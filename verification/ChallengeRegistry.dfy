/** The HTTP-01 challenge registry (`challenge/mod.rs`). A lease has an identity, so one from before a
    clear cannot remove a later publication. The log records publications, clears and lease drops. */
module ChallengeRegistry {
  import opened Types

  const MAX_CHALLENGES: nat := 64
  const LOCALHOST: string := ".localhost"

  datatype Entry = Entry(id: nat, token: string, authorization: string)

  datatype Lease = Lease(host: string, entry: Entry)

  datatype Event = Published(host: string, entry: Entry) | Cleared | Dropped(id: nat)

  datatype ChallengeError =
    InvalidHost | InvalidToken | InvalidAuthorization | UnconfiguredHost | AlreadyPublished | Capacity

  datatype Publication = Leased(lease: Lease) | Rejected(error: ChallengeError)

  predicate Base64Url(c: char) {
    'a' <= c <= 'z' || 'A' <= c <= 'Z' || '0' <= c <= '9' || c == '-' || c == '_'
  }

  predicate AllBase64Url(s: string) {
    forall c :: c in s ==> Base64Url(c)
  }

  predicate ValidToken(token: string) {
    22 <= |token| <= 256 && AllBase64Url(token)
  }

  predicate ValidAuthorization(token: string, authorization: string) {
    && |authorization| == |token| + 44
    && token <= authorization
    && authorization[|token|] == '.'
    && AllBase64Url(authorization[|token| + 1..])
  }

  function LowerLetter(c: char): char {
    if 'A' <= c <= 'Z' then c - 'A' + 'a' else c
  }

  function Lower(s: string): (r: string)
    ensures |r| == |s|
  {
    if s == [] then [] else
    [LowerLetter(s[0])] + Lower(s[1..])
  }

  predicate SameLetter(a: char, b: char) {
    a == b || ('A' <= a <= 'Z' && b == a - 'A' + 'a') || ('A' <= b <= 'Z' && a == b - 'A' + 'a')
  }

  lemma LowerLetterMeans(a: char, b: char)
    ensures LowerLetter(a) == LowerLetter(b) <==> SameLetter(a, b)
  {}

  lemma {:induction false} LowerAt(s: string, i: nat)
    requires i < |s|
    ensures Lower(s)[i] == LowerLetter(s[i])
  {
    if i > 0 {
      LowerAt(s[1..], i - 1);
    }
  }

  /** Lower-casing identifies exactly the names that differ in the case of ASCII letters only. */
  lemma LowerMeans(a: string, b: string)
    ensures Lower(a) == Lower(b) <==> |a| == |b| && forall i :: 0 <= i < |a| ==> SameLetter(a[i], b[i])
  {
    if |a| == |b| {
      forall i | 0 <= i < |a|
        ensures Lower(a)[i] == Lower(b)[i] <==> SameLetter(a[i], b[i])
      {
        LowerAt(a, i);
        LowerAt(b, i);
        LowerLetterMeans(a[i], b[i]);
      }
    }
  }

  /** The library functions that `validate_dns` calls: the strict IDNA mapping and the parser of IP addresses. */
  datatype Idna = Idna(toAscii: string -> Option<string>, isAddress: string -> bool) {
    /** The mapping yields lower-case names (section 4 of Unicode Technical Standard 46). */
    ghost predicate Lowers() {
      forall s :: toAscii(s).Some? ==> Lower(toAscii(s).value) == toAscii(s).value
    }
  }

  function Labels(name: string): (labels: seq<string>)
    ensures labels != [] && Join(labels) == name && forall l :: l in labels ==> '.' !in l
  {
    if name == [] then [[]] else
    var rest := Labels(name[1..]);
    if name[0] == '.' then [[]] + rest else [[name[0]] + rest[0]] + rest[1..]
  }

  function Join(labels: seq<string>): string
    requires labels != []
  {
    if |labels| == 1 then labels[0] else labels[0] + "." + Join(labels[1..])
  }

  predicate Alphanumeric(c: char) {
    'a' <= c <= 'z' || 'A' <= c <= 'Z' || '0' <= c <= '9'
  }

  /** The characters by their codes: digits, capital and small letters; tokens also have the hyphen and the
      underscore. */
  lemma CharacterClasses(c: char)
    ensures var code := c as int;
      && (Alphanumeric(c) <==> 48 <= code < 58 || 65 <= code < 91 || 97 <= code < 123)
      && (Base64Url(c) <==> Alphanumeric(c) || code == 45 || code == 95)
  {}

  predicate ValidLabel(part: string) {
    && 1 <= |part| <= 63
    && Alphanumeric(part[0]) && Alphanumeric(part[|part| - 1])
    && forall c :: c in part ==> Alphanumeric(c) || c == '-'
  }

  lemma JoinOfEmpty(labels: seq<string>)
    requires |labels| > 1 && labels[0] == []
    ensures Join(labels) == "." + Join(labels[1..])
  {}

  lemma JoinOfFirst(labels: seq<string>)
    requires labels != [] && labels[0] != []
    ensures Join(labels) == [labels[0][0]] + Join([labels[0][1..]] + labels[1..])
  {
    var rest := [labels[0][1..]] + labels[1..];
    assert rest[1..] == labels[1..] && rest[0] == labels[0][1..];
    assert labels[0] == [labels[0][0]] + labels[0][1..];
  }

  /** Splitting undoes joining: a name has only one sequence of labels. */
  lemma {:induction false} LabelsOfJoin(labels: seq<string>)
    requires labels != [] && forall l :: l in labels ==> '.' !in l
    ensures Labels(Join(labels)) == labels
    decreases |labels|, |labels[0]|
  {
    if labels[0] != [] {
      var rest := [labels[0][1..]] + labels[1..];
      JoinOfFirst(labels);
      var first := labels[0];
      assert first in labels && first[0] in first;
      forall l | l in rest
        ensures '.' !in l
      {
        assert l == first[1..] || l in labels;
      }
      LabelsOfJoin(rest);
      assert [first[0]] + rest[0] == first && rest[1..] == labels[1..];
    } else if |labels| > 1 {
      JoinOfEmpty(labels);
      LabelsOfJoin(labels[1..]);
      assert [[]] + labels[1..] == labels;
    } else {
      assert labels == [[]];
    }
  }

  lemma {:induction false} DotMeansLabels(name: string)
    ensures '.' in name <==> |Labels(name)| >= 2
  {
    if name != [] {
      DotMeansLabels(name[1..]);
      assert name == [name[0]] + name[1..];
    }
  }

  predicate ValidDns(name: string, idna: Idna) {
    && idna.toAscii(name) == Some(name)
    && !idna.isAddress(name)
    && |name| <= 253
    && '.' in name
    && !EndsWith(name, LOCALHOST)
    && forall l :: l in Labels(name) ==> ValidLabel(l)
  }

  /** 1 to 63 letters, digits and hyphens, with no hyphen at either end. */
  predicate Shaped(s: string) {
    0 < |s| < 64 && s[0] != '-' && s[|s| - 1] != '-' && forall c :: c in s ==> Alphanumeric(c) || c == '-'
  }

  lemma ValidLabelMeans(s: string)
    ensures ValidLabel(s) <==> Shaped(s)
  {
    if 0 < |s| {
      assert s[0] in s && s[|s| - 1] in s;
    }
  }

  ghost predicate IsName(name: string, labels: seq<string>) {
    |labels| >= 2 && Join(labels) == name && forall l :: l in labels ==> Shaped(l)
  }

  lemma LabelsMean(name: string)
    ensures ('.' in name && forall l :: l in Labels(name) ==> ValidLabel(l)) <==> exists labels :: IsName(name, labels)
  {
    DotMeansLabels(name);
    if labels :| IsName(name, labels) {
      forall l | l in labels
        ensures '.' !in l && ValidLabel(l)
      {
        ValidLabelMeans(l);
      }
      LabelsOfJoin(labels);
    } else if '.' in name && forall l :: l in Labels(name) ==> ValidLabel(l) {
      forall l | l in Labels(name)
        ensures Shaped(l)
      {
        ValidLabelMeans(l);
      }
      assert IsName(name, Labels(name));
    }
  }

  predicate EndsWith(name: string, suffix: string) {
    |name| >= |suffix| && name[|name| - |suffix|..] == suffix
  }

  lemma EndsWithMeans(name: string, suffix: string)
    ensures EndsWith(name, suffix) <==> exists prefix :: name == prefix + suffix
  {
    if EndsWith(name, suffix) {
      assert name == name[..|name| - |suffix|] + suffix;
    }
  }

  /** A name is valid exactly if it is its own strict IDNA form, no IP address, at most 253 characters long, not
      under `localhost`, and at least two labels joined by dots, each of 1 to 63 letters, digits and inner hyphens. */
  lemma ValidDnsMeans(name: string, idna: Idna)
    ensures ValidDns(name, idna) <==>
      && idna.toAscii(name) == Some(name) && !idna.isAddress(name) && |name| <= 253
      && !(exists prefix :: name == prefix + ".localhost")
      && (exists labels :: IsName(name, labels))
  {
    LabelsMean(name);
    EndsWithMeans(name, ".localhost");
  }

  /** Publication `i` has been neither cleared nor dropped. */
  ghost predicate LiveAt(log: seq<Event>, i: nat) {
    && i < |log| && log[i].Published?
    && forall j :: i < j < |log| ==> !log[j].Cleared? && log[j] != Dropped(log[i].entry.id)
  }

  ghost function Occupied(hosts: map<string, Option<Entry>>): set<string> {
    set h | h in hosts && hosts[h].Some?
  }

  /** The slots hold exactly the live publications. */
  ghost predicate Reflects(hosts: map<string, Option<Entry>>, log: seq<Event>) {
    && (forall i: nat :: LiveAt(log, i) ==> log[i].host in hosts && hosts[log[i].host] == Some(log[i].entry))
    && (forall h :: h in hosts && hosts[h].Some? ==>
        exists i: nat :: LiveAt(log, i) && log[i] == Published(h, hosts[h].value))
  }

  ghost predicate Numbered(log: seq<Event>, next: nat) {
    && (forall i :: 0 <= i < |log| && log[i].Published? ==> log[i].entry.id < next)
    && (forall i, j :: 0 <= i < j < |log| && log[i].Published? && log[j].Published? ==>
        log[i].entry.id != log[j].entry.id)
  }

  /** What every operation keeps: the counter is the number of occupied slots and stays within capacity. */
  ghost predicate Sound(hosts: map<string, Option<Entry>>, active: nat, log: seq<Event>, next: nat) {
    && Reflects(hosts, log) && Numbered(log, next)
    && active == |Occupied(hosts)| <= MAX_CHALLENGES
    && forall h :: h in hosts ==> Lower(h) == h
  }

  /** The error `publish` reports, checked in the order of the code. */
  function Refusal(hosts: map<string, Option<Entry>>, active: nat, host: string, token: string,
                   authorization: string): Option<ChallengeError> {
    if !ValidToken(token) then Some(InvalidToken)
    else if !ValidAuthorization(token, authorization) then Some(InvalidAuthorization)
    else if host !in hosts then Some(UnconfiguredHost)
    else if hosts[host].Some? then Some(AlreadyPublished)
    else if active == MAX_CHALLENGES then Some(Capacity)
    else None
  }

  ghost predicate IsSuffix(token: string, authorization: string, suffix: string) {
    authorization == token + "." + suffix && |suffix| == 43 && forall c :: c in suffix ==> Base64Url(c)
  }

  /** A response is published exactly if its token is 22 to 256 characters of the base64url alphabet, the key
      authorization is the token, a dot and 43 such characters, the host is configured and free, and there is room;
      otherwise the first of these that fails is reported. */
  lemma RefusalMeans(hosts: map<string, Option<Entry>>, active: nat, host: string, token: string, authorization: string)
    ensures var r := Refusal(hosts, active, host, token, authorization);
      var named := 22 <= |token| <= 256 && forall c :: c in token ==> Base64Url(c);
      var signed := exists suffix :: IsSuffix(token, authorization, suffix);
      && (r.None? <==> named && signed && host in hosts && hosts[host].None? && active != 64)
      && (r == Some(InvalidToken) <==> !named)
      && (r == Some(InvalidAuthorization) <==> named && !signed)
      && (r == Some(UnconfiguredHost) <==> named && signed && host !in hosts)
      && (r == Some(AlreadyPublished) <==> named && signed && host in hosts && hosts[host].Some?)
  {
    if suffix :| IsSuffix(token, authorization, suffix) {
      assert authorization[|token| + 1..] == suffix;
      assert authorization[..|token|] == token;
    }
    if ValidAuthorization(token, authorization) {
      assert authorization == token + "." + authorization[|token| + 1..];
      assert IsSuffix(token, authorization, authorization[|token| + 1..]);
    }
  }

  lemma AppendClear(hosts: map<string, Option<Entry>>, log: seq<Event>, cleared: map<string, Option<Entry>>)
    requires Reflects(hosts, log)
    requires cleared.Keys == hosts.Keys && forall h :: h in cleared ==> cleared[h].None?
    ensures Reflects(cleared, log + [Cleared]) && Occupied(cleared) == {}
  {
    var after := log + [Cleared];
    forall i: nat
      ensures !LiveAt(after, i)
    {
      assert after[|log|] == Cleared;
    }
  }

  lemma AppendPublish(hosts: map<string, Option<Entry>>, log: seq<Event>, next: nat, host: string, entry: Entry)
    requires Reflects(hosts, log) && Numbered(log, next)
    requires host in hosts && hosts[host].None? && entry.id == next
    ensures Reflects(hosts[host := Some(entry)], log + [Published(host, entry)])
    ensures Numbered(log + [Published(host, entry)], next + 1)
    ensures Occupied(hosts[host := Some(entry)]) == Occupied(hosts) + {host}
  {
    var after := log + [Published(host, entry)];
    forall i: nat
      ensures LiveAt(after, i) <==> (LiveAt(log, i) || i == |log|)
    {
      if LiveAt(log, i) {
        assert after[i] == log[i];
      }
      if LiveAt(after, i) && i < |log| {
        assert forall j :: i < j < |log| ==> after[j] == log[j];
      }
    }
    forall h | h in hosts && h != host && hosts[h].Some?
      ensures exists i: nat :: LiveAt(after, i) && after[i] == Published(h, hosts[h].value)
    {
      var i: nat :| LiveAt(log, i) && log[i] == Published(h, hosts[h].value);
      assert LiveAt(after, i) && after[i] == log[i];
    }
    assert LiveAt(after, |log|);
  }

  lemma LiveAfterDrop(log: seq<Event>, id: nat, i: nat)
    ensures LiveAt(log + [Dropped(id)], i) <==> LiveAt(log, i) && log[i].entry.id != id
  {
    var after := log + [Dropped(id)];
    assert after[|log|] == Dropped(id);
    if LiveAt(after, i) {
      assert forall j :: i < j < |log| ==> after[j] == log[j];
    }
  }

  lemma AppendDrop(hosts: map<string, Option<Entry>>, log: seq<Event>, next: nat, lease: Lease)
    requires Reflects(hosts, log) && Numbered(log, next)
    requires Published(lease.host, lease.entry) in log
    ensures var held := lease.host in hosts && hosts[lease.host] == Some(lease.entry);
      var after := if held then hosts[lease.host := None] else hosts;
      && Reflects(after, log + [Dropped(lease.entry.id)])
      && Numbered(log + [Dropped(lease.entry.id)], next)
      && Occupied(after) == Occupied(hosts) - (if held then {lease.host} else {})
  {
    var id := lease.entry.id;
    var k: nat :| k < |log| && log[k] == Published(lease.host, lease.entry);
    var held := lease.host in hosts && hosts[lease.host] == Some(lease.entry);
    var after := if held then hosts[lease.host := None] else hosts;
    forall i: nat
      ensures LiveAt(log + [Dropped(id)], i) <==> LiveAt(log, i) && i != k
    {
      LiveAfterDrop(log, id, i);
    }
    forall h | h in after && after[h].Some?
      ensures
        exists i: nat :: LiveAt(log + [Dropped(id)], i) && (log + [Dropped(id)])[i] == Published(h, after[h].value)
    {
      var i: nat :| LiveAt(log, i) && log[i] == Published(h, hosts[h].value);
      assert LiveAt(log + [Dropped(id)], i);
    }
  }

  lemma PublishKeeps(hosts: map<string, Option<Entry>>, active: nat, log: seq<Event>, next: nat, host: string,
                     entry: Entry)
    requires Sound(hosts, active, log, next) && active < MAX_CHALLENGES
    requires host in hosts && hosts[host].None? && entry.id == next
    ensures Sound(hosts[host := Some(entry)], active + 1, log + [Published(host, entry)], next + 1)
    ensures hosts[host := Some(entry)].Keys == hosts.Keys
  {
    AppendPublish(hosts, log, next, host, entry);
  }

  lemma DropKeeps(hosts: map<string, Option<Entry>>, active: nat, log: seq<Event>, next: nat, lease: Lease)
    requires Sound(hosts, active, log, next)
    requires Published(lease.host, lease.entry) in log
    ensures if lease.host in hosts && hosts[lease.host] == Some(lease.entry)
      then active > 0 && Sound(hosts[lease.host := None], active - 1, log + [Dropped(lease.entry.id)], next)
           && hosts[lease.host := None].Keys == hosts.Keys
      else Sound(hosts, active, log + [Dropped(lease.entry.id)], next)
  {
    AppendDrop(hosts, log, next, lease);
    if lease.host in hosts && hosts[lease.host] == Some(lease.entry) {
      assert lease.host in Occupied(hosts);
    }
  }

  /** `next` numbers allocations, so that two entries are the same object exactly when their ids agree. */
  class Challenges {
    var hosts: map<string, Option<Entry>>
    var active: nat
    ghost var log: seq<Event>
    var next: nat

    ghost predicate Valid()
      reads this
    {
      Sound(hosts, active, log, next)
    }

    constructor (names: set<string>)
      requires forall h :: h in names ==> Lower(h) == h
      ensures Valid() && log == [] && hosts.Keys == names && active == 0
    {
      hosts := map h | h in names :: None;
      active, log, next := 0, [], 0;
      new;
      assert Occupied(hosts) == {};
    }

    /** Takes a free slot for a well-formed response, and otherwise changes nothing. */
    method Publish(host: string, token: string, authorization: string) returns (r: Publication)
      requires Valid()
      modifies this
      ensures Valid() && hosts.Keys == old(hosts.Keys)
      ensures r.Rejected? <==> Refusal(old(hosts), old(active), host, token, authorization).Some?
      ensures r.Rejected? ==>
        && Refusal(old(hosts), old(active), host, token, authorization) == Some(r.error)
        && hosts == old(hosts) && active == old(active) && log == old(log) && next == old(next)
      ensures r.Leased? ==>
        && r.lease == Lease(host, Entry(old(next), token, authorization))
        && log == old(log) + [Published(host, r.lease.entry)] && active == old(active) + 1
    {
      var refusal := Refusal(hosts, active, host, token, authorization);
      if refusal.Some? {
        return Rejected(refusal.value);
      }
      var entry := Entry(next, token, authorization);
      PublishKeeps(hosts, active, log, next, host, entry);
      hosts := hosts[host := Some(entry)];
      next := next + 1;
      active := active + 1;
      log := log + [Published(host, entry)];
      return Leased(Lease(host, entry));
    }

    method Clear()
      requires Valid()
      modifies this
      ensures Valid() && hosts.Keys == old(hosts.Keys)
      ensures active == 0 && log == old(log) + [Cleared]
      ensures forall h :: h in hosts ==> hosts[h].None?
    {
      var cleared: map<string, Option<Entry>> := map h | h in hosts :: None;
      AppendClear(hosts, log, cleared);
      hosts := cleared;
      active := 0;
      log := log + [Cleared];
    }

    /** Frees the slot only if it still holds this lease's own entry. */
    method DropLease(lease: Lease)
      requires Valid() && Published(lease.host, lease.entry) in log
      modifies this
      ensures Valid() && hosts.Keys == old(hosts.Keys)
      ensures log == old(log) + [Dropped(lease.entry.id)]
      ensures forall h :: h in hosts && old(hosts[h]) != Some(lease.entry) ==> hosts[h] == old(hosts[h])
    {
      DropKeeps(hosts, active, log, next, lease);
      if lease.host in hosts && hosts[lease.host] == Some(lease.entry) {
        hosts := hosts[lease.host := None];
        active := active - 1;
      }
      log := log + [Dropped(lease.entry.id)];
    }

    /** Finds the response of the one live publication for this host and token, and nothing else. */
    method Lookup(host: string, token: string) returns (r: Option<string>)
      requires Valid()
      ensures forall a :: r == Some(a) <==>
        exists i: nat :: LiveAt(log, i) && log[i].host == Lower(host) && log[i].entry.token == token
          && log[i].entry.authorization == a
    {
      var rest := hosts.Keys;
      while rest != {}
        invariant rest <= hosts.Keys
        invariant Lower(host) in hosts ==> Lower(host) in rest
        decreases rest
      {
        var name :| name in rest;
        if Lower(name) == Lower(host) {
          if hosts[name].Some? && hosts[name].value.token == token {
            ghost var i: nat :| LiveAt(log, i) && log[i] == Published(name, hosts[name].value);
            return Some(hosts[name].value.authorization);
          }
          return None;
        }
        rest := rest - {name};
      }
      return None;
    }
  }

  /** A registry for the configured hosts; malformed and repeated names are refused. */
  method Configure(names: seq<string>, idna: Idna) returns (r: Option<Challenges>)
    requires idna.Lowers()
    ensures r.Some? <==>
      && (forall i :: 0 <= i < |names| ==> ValidDns(names[i], idna))
      && (forall i, j :: 0 <= i < j < |names| ==> names[i] != names[j])
    ensures r.Some? ==>
      fresh(r.value) && r.value.Valid() && r.value.log == [] && r.value.hosts.Keys == set n | n in names
  {
    var seen := {};
    for k := 0 to |names|
      invariant seen == set n | n in names[..k]
      invariant forall i :: 0 <= i < k ==> ValidDns(names[i], idna)
      invariant forall i, j :: 0 <= i < j < k ==> names[i] != names[j]
    {
      if !ValidDns(names[k], idna) {
        return None;
      }
      if names[k] in seen {
        ghost var i :| 0 <= i < k && names[..k][i] == names[k];
        return None;
      }
      seen := seen + {names[k]};
      assert names[..k + 1] == names[..k] + [names[k]];
    }
    assert names[..|names|] == names;
    var challenges := new Challenges(seen);
    return Some(challenges);
  }

  /** At most one publication for each host is live, and at most 64 in all. */
  lemma LiveIsUnique(hosts: map<string, Option<Entry>>, log: seq<Event>, next: nat, i: nat, j: nat)
    requires Reflects(hosts, log) && Numbered(log, next)
    requires LiveAt(log, i) && LiveAt(log, j) && log[i].host == log[j].host
    ensures i == j
  {
    assert log[i].entry == log[j].entry;
  }

  /** Dropping a lease from before a clear leaves every later publication alone. */
  lemma StaleLeaseIsHarmless(log: seq<Event>, next: nat, k: nat, m: nat, i: nat)
    requires Numbered(log, next) && k < m < i < |log|
    requires log[k].Published? && log[m].Cleared? && LiveAt(log, i)
    ensures LiveAt(log + [Dropped(log[k].entry.id)], i)
  {
    LiveAfterDrop(log, log[k].entry.id, i);
  }
}
