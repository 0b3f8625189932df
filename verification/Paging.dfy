/** Account listing: the paging server (`Api::list`, `list_parameters` in `api.rs`) and the client loop
    (`list_accounts` in `main.rs`), over a store that may change between pages. */
module Paging {
  import opened StringOrder
  import opened Types

  const MAX_PAGE: nat := 100
  const DEFAULT_PAGE: nat := 50
  const PAGE_SIZE: nat := 100

  type AccountKey = string

  ghost predicate Increasing(keys: seq<AccountKey>) {
    forall i, j :: 0 <= i < j < |keys| ==> Less(keys[i], keys[j])
  }

  predicate Beyond(cursor: Option<AccountKey>, key: AccountKey) {
    cursor.None? || Less(cursor.value, key)
  }

  // ----- the server -----

  /** The storage contract of `accounts_after`: the first `count` keys beyond the cursor, in order. */
  ghost predicate IsPage(store: set<AccountKey>, after: Option<AccountKey>, count: nat, page: seq<AccountKey>) {
    && Increasing(page) && |page| <= count
    && (forall k :: k in page ==> k in store && Beyond(after, k))
    && (forall k :: k in store && Beyond(after, k) && k !in page ==>
          |page| == count && forall p :: p in page ==> Less(p, k))
  }

  datatype Reply = Reply(accounts: seq<AccountKey>, next: Option<AccountKey>)

  /** A full page with a cursor exactly when more keys follow; the cursor is the last key of the page. */
  ghost predicate Serves(store: set<AccountKey>, after: Option<AccountKey>, limit: nat, reply: Reply) {
    && IsPage(store, after, limit, reply.accounts)
    && (reply.next.None? ==> forall k :: k in store && Beyond(after, k) ==> k in reply.accounts)
    && (reply.next.Some? ==>
          && |reply.accounts| == limit > 0 && reply.next.value == reply.accounts[limit - 1]
          && exists k :: k in store && Beyond(after, k) && k !in reply.accounts)
  }

  /** Turns a page with one extra key into a reply. */
  method List(lookahead: seq<AccountKey>, limit: nat) returns (reply: Reply)
    requires limit > 0
    ensures forall store, after :: IsPage(store, after, limit + 1, lookahead) ==> Serves(store, after, limit, reply)
  {
    var hasMore := |lookahead| > limit;
    var page := if hasMore then lookahead[..limit] else lookahead;
    reply := Reply(page, if hasMore then Some(page[|page| - 1]) else None);
    forall store, after | IsPage(store, after, limit + 1, lookahead)
      ensures Serves(store, after, limit, reply)
    {
      if hasMore {
        var extra := lookahead[limit];
        assert lookahead == page + [extra];
        LessFromAll(page, extra);
        forall k | k in store && Beyond(after, k) && k !in page
          ensures forall p :: p in page ==> Less(p, k)
        {}
        assert extra in store && Beyond(after, extra) && extra !in page;
      }
    }
  }

  lemma LessFromAll(page: seq<AccountKey>, extra: AccountKey)
    requires Increasing(page + [extra])
    ensures extra !in page && forall p :: p in page ==> Less(p, extra)
  {
    forall i | 0 <= i < |page|
      ensures Less(page[i], extra)
    {
      assert Less((page + [extra])[i], (page + [extra])[|page|]);
    }
    if extra in page {
      LessAsymmetric(extra, extra);
    }
  }

  datatype Parameter = AfterIs(key: Option<AccountKey>) | LimitIs(value: Option<nat>) | Unknown

  /** Reads the query: each parameter at most once, well formed, and a limit from 1 to 100. */
  method ListParameters(query: seq<Parameter>) returns (r: Option<(Option<AccountKey>, nat)>)
    ensures r.Some? <==>
      && (forall i :: 0 <= i < |query| ==> WellFormed(query[i]))
      && (forall i, j :: 0 <= i < j < |query| ==> query[i].AfterIs? != query[j].AfterIs?)
    ensures r.Some? ==>
      && (r.value.0.Some? ==> AfterIs(r.value.0) in query)
      && (r.value.0.None? ==> forall p :: p in query ==> !p.AfterIs?)
      && (if LimitIs(Some(r.value.1)) in query then true
          else r.value.1 == DEFAULT_PAGE && forall p :: p in query ==> !p.LimitIs?)
  {
    var after: Option<AccountKey> := None;
    var limit: Option<nat> := None;
    for k := 0 to |query|
      invariant forall i :: 0 <= i < k ==> WellFormed(query[i])
      invariant forall i, j :: 0 <= i < j < k ==> query[i].AfterIs? != query[j].AfterIs?
      invariant after.Some? <==> exists i :: 0 <= i < k && query[i].AfterIs?
      invariant limit.Some? <==> exists i :: 0 <= i < k && query[i].LimitIs?
      invariant after.Some? ==> AfterIs(after) in query[..k]
      invariant limit.Some? ==> LimitIs(limit) in query[..k]
    {
      match query[k] {
        case AfterIs(key) =>
          if after.Some? || key.None? {
            return None;
          }
          after := key;
        case LimitIs(value) =>
          if limit.Some? || value.None? || !(1 <= value.value <= MAX_PAGE) {
            return None;
          }
          limit := value;
        case Unknown =>
          return None;
      }
    }
    return Some((after, if limit.Some? then limit.value else DEFAULT_PAGE));
  }

  predicate WellFormed(p: Parameter) {
    match p
    case AfterIs(key) => key.Some?
    case LimitIs(value) => value.Some? && 1 <= value.value <= MAX_PAGE
    case Unknown => false
  }

  // ----- the client -----

  datatype Request = Request(after: Option<AccountKey>, limit: nat)

  datatype Listing = Complete | InvalidResponse | NoReply

  /** The first `n` requests were answered as `Api::list` answers them from the store of that moment. */
  ghost predicate Honest(stores: seq<set<AccountKey>>, requests: seq<Request>, replies: seq<Option<Reply>>, n: nat) {
    && n <= |requests| && n <= |replies| && n <= |stores|
    && forall i :: 0 <= i < n ==>
         replies[i].Some? && Serves(stores[i], requests[i].after, requests[i].limit, replies[i].value)
  }

  /** The keys that were in the store for each of the first `n` requests. */
  ghost predicate Throughout(stores: seq<set<AccountKey>>, n: nat, key: AccountKey) {
    n <= |stores| && forall i :: 0 <= i < n ==> key in stores[i]
  }

  /** What an honest conversation has printed: keys in order, up to the cursor, and no constant key missing. */
  ghost predicate Listed(stores: seq<set<AccountKey>>, n: nat, cursor: Option<AccountKey>, output: seq<AccountKey>) {
    && Increasing(output)
    && (cursor.None? <==> output == [])
    && (cursor.Some? ==> cursor.value == output[|output| - 1])
    && (forall k :: k in output ==> exists i :: 0 <= i < n <= |stores| && k in stores[i])
    && (forall k :: Throughout(stores, n, k) ==> k in output || Beyond(cursor, k))
    && n <= |output|
  }

  /** Everything the last page adds to what was printed before it. */
  ghost predicate Finished(stores: seq<set<AccountKey>>, n: nat, output: seq<AccountKey>, reply: Reply) {
    && Increasing(output)
    && (forall k :: k in output ==> exists i :: 0 <= i < n <= |stores| && k in stores[i])
    && n <= |output| + 1
    && (reply.next.None? ==> forall k :: Throughout(stores, n, k) ==> k in output)
    && (reply.next.Some? ==> output != [] && reply.next.value == output[|output| - 1] && n <= |output|)
    && (forall k :: Throughout(stores, n, k) && k !in output ==> forall p :: p in output ==> Less(p, k))
  }

  lemma PageExtends(stores: seq<set<AccountKey>>, n: nat, cursor: Option<AccountKey>, output: seq<AccountKey>,
                    limit: nat, reply: Reply)
    requires n < |stores| && Listed(stores, n, cursor, output) && Serves(stores[n], cursor, limit, reply)
    ensures Finished(stores, n + 1, output + reply.accounts, reply)
    ensures reply.next.Some? ==>
      Listed(stores, n + 1, reply.next, output + reply.accounts) && Beyond(cursor, reply.next.value)
  {
    var all := output + reply.accounts;
    forall i, j | 0 <= i < |output| && 0 <= j < |reply.accounts|
      ensures Less(output[i], reply.accounts[j])
    {
      assert reply.accounts[j] in reply.accounts;
      if i < |output| - 1 {
        LessTransitive(output[i], output[|output| - 1], reply.accounts[j]);
      }
    }
    forall k | k in all
      ensures exists i :: 0 <= i < n + 1 <= |stores| && k in stores[i]
    {
      if k in output {
        var i :| 0 <= i < n && k in stores[i];
      } else {
        assert k in stores[n];
      }
    }
    forall k | Throughout(stores, n + 1, k) && k !in all
      ensures reply.next.Some? && forall p :: p in all ==> Less(p, k)
    {
      assert Throughout(stores, n, k) && k in stores[n];
      assert Beyond(cursor, k);
      forall p | p in output
        ensures Less(p, k)
      {
        var i :| 0 <= i < |output| && output[i] == p;
        if i < |output| - 1 {
          LessTransitive(p, output[|output| - 1], k);
        }
      }
    }
    if reply.next.Some? {
      assert reply.next.value in reply.accounts;
      assert all[|all| - 1] == reply.next.value;
    }
  }

  lemma HonestStep(stores: seq<set<AccountKey>>, requests: seq<Request>, replies: seq<Option<Reply>>, i: nat)
    requires i + 1 == |requests| <= |replies| && replies[i].Some?
    ensures Honest(stores, requests, replies, i + 1) <==>
      && Honest(stores, requests[..i], replies, i) && i < |stores|
      && Serves(stores[i], requests[i].after, requests[i].limit, replies[i].value)
  {
    assert requests == requests[..i] + [requests[i]];
  }

  /** As long as every reply is honest, what has been printed is what should have been. */
  ghost predicate Ongoing(stores: seq<set<AccountKey>>, requests: seq<Request>, replies: seq<Option<Reply>>,
                          cursor: Option<AccountKey>, output: seq<AccountKey>) {
    Honest(stores, requests, replies, |requests|) ==> Listed(stores, |requests|, cursor, output)
  }

  /** One more reply: if it is honest it extends the listing, and it is not one that the client rejects. */
  lemma PageArrives(stores: seq<set<AccountKey>>, before: seq<Request>, requests: seq<Request>,
                    replies: seq<Option<Reply>>, cursor: Option<AccountKey>, output: seq<AccountKey>, limit: nat)
    requires requests == before + [Request(cursor, limit)] && |before| < |replies| && replies[|before|].Some?
    requires Ongoing(stores, before, replies, cursor, output)
    ensures var page := replies[|before|].value;
      Honest(stores, requests, replies, |requests|) ==>
        && |page.accounts| <= limit && (page.accounts == [] ==> page.next.None?)
        && Finished(stores, |requests|, output + page.accounts, page)
        && (page.next.Some? ==>
              && Listed(stores, |requests|, page.next, output + page.accounts)
              && Beyond(cursor, page.next.value))
  {
    var i := |before|;
    HonestStep(stores, requests, replies, i);
    assert requests[..i] == before;
    if Honest(stores, requests, replies, i + 1) {
      PageExtends(stores, i, cursor, output, limit, replies[i].value);
    }
  }

  /** If every reply was honest, the listing is complete: it prints keys in order, each from the store of some
      request, and every key that was there throughout, except past the limit. If finitely many keys ever exist
      and the server goes on answering, it ends. */
  ghost predicate Faithful(stores: seq<set<AccountKey>>, requests: seq<Request>, replies: seq<Option<Reply>>,
                           limit: Option<nat>,
                           r: Listing, output: seq<AccountKey>) {
    && (Honest(stores, requests, replies, |requests|) ==>
          && r == Complete
          && Increasing(output)
          && |requests| <= |output| + 1
          && (forall k :: k in output ==> exists i :: 0 <= i < |requests| && k in stores[i])
          && (forall k :: Throughout(stores, |requests|, k) && k !in output ==>
                && |output| == (if limit.Some? then limit.value else U64_MAX)
                && forall p :: p in output ==> Less(p, k)))
    && (forall universe: set<AccountKey> ::
          |universe| < |replies| && (forall i :: 0 <= i < |stores| ==> stores[i] <= universe)
          && Honest(stores, requests, replies, Min(|requests|, |replies|)) ==>
            r == Complete && |requests| <= |universe| + 1)
  }

  /** Strictly increasing keys from a finite universe are at most as many as the universe. */
  lemma {:induction false} DistinctBound(keys: seq<AccountKey>, universe: set<AccountKey>)
    requires Increasing(keys) && forall k :: k in keys ==> k in universe
    ensures |keys| <= |universe|
  {
    if keys != [] {
      var last, rest := keys[|keys| - 1], keys[..|keys| - 1];
      assert keys == rest + [last];
      LessFromAll(rest, last);
      DistinctBound(rest, universe - {last});
    }
  }

  lemma ListingEnds(stores: seq<set<AccountKey>>, requests: seq<Request>, replies: seq<Option<Reply>>, i: nat,
                    cursor: Option<AccountKey>, limit: Option<nat>, output: seq<AccountKey>)
    requires i + 1 == |requests| && i <= |replies| && (i < |replies| ==> replies[i].None?)
    requires Honest(stores, requests[..i], replies, i) ==> Listed(stores, i, cursor, output)
    ensures Faithful(stores, requests, replies, limit, NoReply, output)
  {
    forall universe: set<AccountKey> |
      |universe| < |replies| && (forall i :: 0 <= i < |stores| ==> stores[i] <= universe)
      ensures !Honest(stores, requests, replies, Min(|requests|, |replies|))
    {
      if Honest(stores, requests, replies, i) {
        assert Honest(stores, requests[..i], replies, i);
        DistinctBound(output, universe);
      }
    }
  }

  lemma Completes(stores: seq<set<AccountKey>>, requests: seq<Request>, replies: seq<Option<Reply>>, limit: Option<nat>,
                  output: seq<AccountKey>, reply: Reply)
    requires |requests| <= |replies|
    requires reply.next.None? || |output| == (if limit.Some? then limit.value else U64_MAX)
    requires Honest(stores, requests, replies, |requests|) ==> Finished(stores, |requests|, output, reply)
    ensures Faithful(stores, requests, replies, limit, Complete, output)
  {
    forall universe: set<AccountKey> |
      (forall i :: 0 <= i < |stores| ==> stores[i] <= universe) && Honest(stores, requests, replies, |requests|)
      ensures |requests| <= |universe| + 1
    {
      DistinctBound(output, universe);
    }
  }

  /** A reply that the client rejects was not honest. */
  lemma Rejected(stores: seq<set<AccountKey>>, requests: seq<Request>, replies: seq<Option<Reply>>, limit: Option<nat>,
                 output: seq<AccountKey>)
    requires |requests| <= |replies| && !Honest(stores, requests, replies, |requests|)
    ensures Faithful(stores, requests, replies, limit, InvalidResponse, output)
  {}

  /** What the first `n` replies contain. */
  function Printed(replies: seq<Option<Reply>>, n: nat): seq<AccountKey>
    requires n <= |replies|
  {
    if n == 0 then [] else
    Printed(replies, n - 1) + (if replies[n - 1].Some? then replies[n - 1].value.accounts else [])
  }

  /** A reply no longer than asked for, that goes on only if it holds something. */
  predicate Sized(q: Request, page: Reply) {
    |page.accounts| <= q.limit && (page.accounts == [] ==> page.next.None?)
  }

  /** A reply whose cursor goes on from the one it was asked with. */
  predicate Forward(q: Request, page: Reply) {
    page.next.Some? && (q.after.Some? ==> Less(q.after.value, page.next.value))
  }

  function Full(limit: Option<nat>): nat {
    if limit.Some? then limit.value else U64_MAX
  }

  /** Where the replies before the n-th have come to. */
  function Cursor(replies: seq<Option<Reply>>, n: nat): Option<AccountKey>
    requires n <= |replies|
  {
    if n == 0 || replies[n - 1].None? then None else replies[n - 1].value.next
  }

  /** Request `i` asks for what is still missing, up to a page, from where reply `i - 1` ended. */
  ghost predicate Asks(replies: seq<Option<Reply>>, limit: Option<nat>, i: nat, q: Request)
    requires i <= |replies|
  {
    && q.after == Cursor(replies, i)
    && q.limit == (if limit.None? || limit.value - |Printed(replies, i)| > 100 then 100
                   else limit.value - |Printed(replies, i)|)
  }

  /** Request `i` was asked in this way, and its reply gave reason to go on. */
  ghost predicate GoesOn(replies: seq<Option<Reply>>, limit: Option<nat>, i: nat, q: Request)
    requires i < |replies|
  {
    && Asks(replies, limit, i, q)
    && replies[i].Some? && Sized(q, replies[i].value) && Forward(q, replies[i].value)
    && |Printed(replies, i)| + |replies[i].value.accounts| != Full(limit)
  }

  ghost predicate Conversed(replies: seq<Option<Reply>>, limit: Option<nat>, requests: seq<Request>, n: nat) {
    n <= |requests| && n <= |replies| && forall i :: 0 <= i < n ==> GoesOn(replies, limit, i, requests[i])
  }

  lemma ConversedStep(replies: seq<Option<Reply>>, limit: Option<nat>, requests: seq<Request>, q: Request)
    requires Conversed(replies, limit, requests, |requests|)
    ensures Conversed(replies, limit, requests + [q], |requests|)
    ensures |requests| < |replies| && GoesOn(replies, limit, |requests|, q) ==>
      Conversed(replies, limit, requests + [q], |requests| + 1)
  {}

  /** How a listing ends with the reply to its last request: a missing reply, a malformed one, the last one, or
      enough. Only a reply of the right size is printed. */
  ghost predicate Ends(replies: seq<Option<Reply>>, limit: Option<nat>, last: nat, q: Request, r: Listing,
                       output: seq<AccountKey>)
    requires last <= |replies|
  {
    && (r == NoReply <==> last == |replies| || replies[last].None?)
    && if r == NoReply then output == Printed(replies, last) else
       var page := replies[last].value;
       && (r == Complete <==>
             && Sized(q, page)
             && (page.next.None? || |Printed(replies, last)| + |page.accounts| == Full(limit)))
       && (r == InvalidResponse && Sized(q, page) ==> !Forward(q, page))
       && output == Printed(replies, last) + (if Sized(q, page) then page.accounts else [])
  }

  /** The client's part, whatever the server answers: it goes on from reply to reply and prints what it accepts. */
  ghost predicate Followed(replies: seq<Option<Reply>>, limit: Option<nat>, requests: seq<Request>, r: Listing,
                           output: seq<AccountKey>) {
    && requests != [] && var last := |requests| - 1;
    && Conversed(replies, limit, requests, last) && Asks(replies, limit, last, requests[last])
    && Ends(replies, limit, last, requests[last], r, output)
  }

  lemma OngoingStep(stores: seq<set<AccountKey>>, requests: seq<Request>, replies: seq<Option<Reply>>,
                    limit: Option<nat>, q: Request)
    requires |requests| < |replies| && GoesOn(replies, limit, |requests|, q)
    requires Ongoing(stores, requests, replies, Cursor(replies, |requests|), Printed(replies, |requests|))
    ensures Ongoing(stores, requests + [q], replies, Cursor(replies, |requests| + 1), Printed(replies, |requests| + 1))
  {
    PageArrives(stores, requests, requests + [q], replies, Cursor(replies, |requests|), Printed(replies, |requests|),
                q.limit);
  }

  lemma {:induction false} StaysOngoing(stores: seq<set<AccountKey>>, requests: seq<Request>,
                                        replies: seq<Option<Reply>>, limit: Option<nat>, n: nat)
    requires Conversed(replies, limit, requests, n)
    ensures Ongoing(stores, requests[..n], replies, Cursor(replies, n), Printed(replies, n))
  {
    if n > 0 {
      StaysOngoing(stores, requests, replies, limit, n - 1);
      OngoingStep(stores, requests[..n - 1], replies, limit, requests[n - 1]);
      assert requests[..n] == requests[..n - 1] + [requests[n - 1]];
    }
  }

  lemma LastReply(stores: seq<set<AccountKey>>, before: seq<Request>, q: Request, replies: seq<Option<Reply>>,
                  limit: Option<nat>, r: Listing, output: seq<AccountKey>)
    requires |before| <= |replies| && Asks(replies, limit, |before|, q) && Ends(replies, limit, |before|, q, r, output)
    requires Ongoing(stores, before, replies, Cursor(replies, |before|), Printed(replies, |before|))
    ensures Faithful(stores, before + [q], replies, limit, r, output)
  {
    var n, requests := |before|, before + [q];
    var cursor, printed := Cursor(replies, n), Printed(replies, n);
    if r == NoReply {
      assert requests[..n] == before;
      ListingEnds(stores, requests, replies, n, cursor, limit, printed);
    } else {
      PageArrives(stores, before, requests, replies, cursor, printed, q.limit);
      if r == Complete {
        Completes(stores, requests, replies, limit, output, replies[n].value);
      } else {
        Rejected(stores, requests, replies, limit, output);
      }
    }
  }

  /** A client that follows the replies lists faithfully, whatever happens to the store between them. */
  lemma FollowedIsFaithful(stores: seq<set<AccountKey>>, requests: seq<Request>, replies: seq<Option<Reply>>,
                           limit: Option<nat>, r: Listing, output: seq<AccountKey>)
    requires Followed(replies, limit, requests, r, output)
    ensures Faithful(stores, requests, replies, limit, r, output)
  {
    var before, q := requests[..|requests| - 1], requests[|requests| - 1];
    assert Faithful(stores, before + [q], replies, limit, r, output) by {
      StaysOngoing(stores, requests, replies, limit, |before|);
      LastReply(stores, before, q, replies, limit, r, output);
    }
    assert requests == before + [q];
  }

  /** Follows cursors until the list ends, the limit is reached or a reply is malformed.
      `replies` are the server's answers in order, `None` a failed exchange. */
  method Follow(replies: seq<Option<Reply>>, limit: Option<nat>)
    returns (r: Listing, output: seq<AccountKey>, requests: seq<Request>)
    requires limit.Some? ==> 0 < limit.value
    ensures forall q :: q in requests ==> 1 <= q.limit <= MAX_PAGE
    ensures limit.Some? ==> |output| <= limit.value
    ensures Followed(replies, limit, requests, r, output)
  {
    output, requests := [], [];
    var count: nat := 0;
    var cursor: Option<AccountKey> := None;
    var i := 0;
    // Every page that does not end the loop leaves room below the limit, so something always remains to ask for.
    while true
      invariant i == |requests| <= |replies|
      invariant count == |output| && (limit.Some? ==> count < limit.value)
      invariant forall q :: q in requests ==> 1 <= q.limit <= MAX_PAGE
      invariant Conversed(replies, limit, requests, i) && output == Printed(replies, i) && cursor == Cursor(replies, i)
      decreases |replies| - i
    {
      var remaining := if limit.Some? then limit.value - count else PAGE_SIZE;
      var pageSize := Min(remaining, PAGE_SIZE);
      ConversedStep(replies, limit, requests, Request(cursor, pageSize));
      requests := requests + [Request(cursor, pageSize)];
      if i == |replies| || replies[i].None? {
        return NoReply, output, requests;
      }
      var page := replies[i].value;
      if |page.accounts| > pageSize || (page.accounts == [] && page.next.Some?) {
        return InvalidResponse, output, requests;
      }
      output := output + page.accounts;
      count := count + |page.accounts|;
      i := i + 1;
      if page.next.None? || count == (if limit.Some? then limit.value else U64_MAX) {
        return Complete, output, requests;
      }
      if cursor.Some? && !Less(cursor.value, page.next.value) {
        return InvalidResponse, output, requests;
      }
      cursor := page.next;
    }
  }

  /** The listing, seen together with the stores that the replies came from. */
  method ListAccounts(replies: seq<Option<Reply>>, limit: Option<nat>, ghost stores: seq<set<AccountKey>>)
    returns (r: Listing, output: seq<AccountKey>, requests: seq<Request>)
    requires limit.Some? ==> 0 < limit.value
    ensures forall q :: q in requests ==> 1 <= q.limit <= MAX_PAGE
    ensures limit.Some? ==> |output| <= limit.value
    ensures Followed(replies, limit, requests, r, output)
    ensures Faithful(stores, requests, replies, limit, r, output)
  {
    r, output, requests := Follow(replies, limit);
    FollowedIsFaithful(stores, requests, replies, limit, r, output);
  }

  /** A page is determined by the store: there is only one first `count` keys beyond a cursor. */
  lemma {:induction false} PageIsUnique(store: set<AccountKey>, after: Option<AccountKey>, count: nat,
                                        p: seq<AccountKey>, q: seq<AccountKey>, n: nat)
    requires IsPage(store, after, count, p) && IsPage(store, after, count, q) && n <= |p|
    ensures n <= |q| && p[..n] == q[..n]
    ensures n == |p| ==> p == q
  {
    if n > 0 {
      PageIsUnique(store, after, count, p, q, n - 1);
      if |q| < n || q[n - 1] != p[n - 1] {
        NextKeyAgrees(store, after, count, p, q, n - 1);
      }
      assert p[..n] == p[..n - 1] + [p[n - 1]] && q[..n] == q[..n - 1] + [q[n - 1]];
    }
    if n == |p| < |q| {
      NextKeyAgrees(store, after, count, q, p, n);
    }
  }

  lemma NextKeyAgrees(store: set<AccountKey>, after: Option<AccountKey>, count: nat, p: seq<AccountKey>,
                      q: seq<AccountKey>, n: nat)
    requires IsPage(store, after, count, p) && IsPage(store, after, count, q)
    requires n < |p| && n <= |q| && p[..n] == q[..n]
    ensures n < |q| && q[n] == p[n]
  {
    var k := p[n];
    NotBefore(p, q, n);
    if |q| == n || q[n] != k {
      if k in q {
        var j :| 0 <= j < |q| && q[j] == k;
        assert n < j;
        NotBefore(q, p, n);
        assert q[n] !in p[..n];
        if q[n] in p {
          var m :| 0 <= m < |p| && p[m] == q[n];
          assert m > n;
          LessAsymmetric(q[n], k);
        } else {
          assert Less(k, q[n]);
          LessAsymmetric(q[n], k);
        }
      } else {
        assert |q| == count;
        NotBefore(q, p, n);
        if n < |q| {
          assert Less(q[n], k);
          if q[n] in p {
            var m :| 0 <= m < |p| && p[m] == q[n];
            LessAsymmetric(q[n], k);
          } else {
            assert Less(k, q[n]);
            LessAsymmetric(q[n], k);
          }
        }
      }
    }
  }

  lemma NotBefore(p: seq<AccountKey>, q: seq<AccountKey>, n: nat)
    requires Increasing(p) && n < |p| && n <= |q| && p[..n] == q[..n]
    ensures p[n] !in q[..n]
  {
    if p[n] in q[..n] {
      var j :| 0 <= j < n && q[..n][j] == p[n];
      assert p[..n][j] == p[j];
      LessAsymmetric(p[j], p[n]);
    }
  }

  /** On a store that does not change, a limited listing prints exactly the first `limit` accounts. */
  lemma FixedStoreListing(store: set<AccountKey>, stores: seq<set<AccountKey>>, requests: seq<Request>,
                          replies: seq<Option<Reply>>,
                          limit: nat, r: Listing, output: seq<AccountKey>, first: seq<AccountKey>)
    requires Faithful(stores, requests, replies, Some(limit), r, output) && |output| <= limit
    requires Honest(stores, requests, replies, |requests|) && forall i :: 0 <= i < |stores| ==> stores[i] == store
    requires IsPage(store, None, limit, first)
    ensures r == Complete && output == first
  {
    forall k | k in store && k !in output
      ensures |output| == limit && forall p :: p in output ==> Less(p, k)
    {
      assert Throughout(stores, |requests|, k);
    }
    FirstKeys(store, limit, output, first);
  }

  lemma FirstKeys(store: set<AccountKey>, limit: nat, output: seq<AccountKey>, first: seq<AccountKey>)
    requires Increasing(output) && |output| <= limit && forall k :: k in output ==> k in store
    requires forall k :: k in store && k !in output ==> |output| == limit && forall p :: p in output ==> Less(p, k)
    requires IsPage(store, None, limit, first)
    ensures output == first
  {
    PageIsUnique(store, None, limit, output, first, |output|);
  }
}
