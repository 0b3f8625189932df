/** What every legal log keeps, over any number of attempts cut anywhere. */
module IssuanceTheorems {
  import opened Types
  import opened Issuance

  // ----- single steps -----

  lemma StepAt(states: seq<Progress>, log: seq<Event>, i: nat)
    requires Behavior(states, log) && i < |log|
    ensures Allowed(states[i], log[i]) && states[i + 1] == Apply(states[i], log[i])
  {}

  predicate HasOrder(s: Progress) {
    s.host.Some? && s.host.value.order.Some?
  }

  function Order(s: Progress): PendingOrder
    requires HasOrder(s)
  {
    s.host.value.order.value
  }

  /** A landed success commit. */
  predicate Commits(s: Progress, e: Event) {
    e.Saved? && e.landed && e.record.retry == Fresh && s.attempt.Some? && s.attempt.value.reserved
  }

  // ----- a pending order's identity -----

  predicate Evolves(o: PendingOrder, o': PendingOrder) {
    && SameOrder(o, o')
    && (o.url.Some? ==> o'.url == o.url)
    && (o.expires.Some? ==> o'.expires.Some?)
  }

  lemma OrderStepEvolves(s: Progress, e: Event)
    requires Allowed(s, e) && HasOrder(s) && HasOrder(Apply(s, e))
    ensures Evolves(Order(s), Order(Apply(s, e)))
  {}

  /** While an order lives in durable state its key, CSR, replacement and profile never change,
      its URL is set at most once, and a known expiry is never erased. */
  lemma {:induction false} OrderIsStable(states: seq<Progress>, log: seq<Event>, i: nat, j: nat)
    requires Behavior(states, log) && i <= j <= |log|
    requires forall k :: i <= k <= j ==> HasOrder(states[k])
    ensures Evolves(Order(states[i]), Order(states[j]))
    decreases j
  {
    if i < j {
      OrderIsStable(states, log, i, j - 1);
      StepAt(states, log, j - 1);
      OrderStepEvolves(states[j - 1], log[j - 1]);
    }
  }

  /** An order whose URL is stored is resumed at that URL and never asked for again. */
  lemma StoredUrlIsResumed(states: seq<Progress>, log: seq<Event>, i: nat, j: nat)
    requires Behavior(states, log) && i <= j < |log|
    requires forall k :: i <= k <= j ==> HasOrder(states[k])
    requires Order(states[i]).url.Some?
    requires log[j].Sent?
    ensures !log[j].call.NewOrder?
    ensures !log[j].call.Restore? ==> Order(states[i]).url == Some(log[j].call.url)
  {
    OrderIsStable(states, log, i, j);
    StepAt(states, log, j);
  }

  // ----- floors and failures -----

  /** A reserved attempt is covered by the durable floor until its success commit. */
  predicate Covered(s: Progress) {
    s.attempt.Some? && s.attempt.value.reserved ==>
      && s.host.Some?
      && (!s.attempt.value.committed ==>
            && s.host.value.retry.notBefore >= s.attempt.value.start + s.attempt.value.delay
            && s.host.value.retry.failures >= 1)
  }

  lemma CoveredStep(s: Progress, e: Event)
    requires Covered(s) && Allowed(s, e)
    ensures Covered(Apply(s, e))
  {}

  lemma {:induction false} AlwaysCovered(states: seq<Progress>, log: seq<Event>, n: nat)
    requires Behavior(states, log) && n <= |log|
    ensures Covered(states[n])
  {
    if n > 0 {
      AlwaysCovered(states, log, n - 1);
      StepAt(states, log, n - 1);
      CoveredStep(states[n - 1], log[n - 1]);
    }
  }

  lemma FloorStep(s: Progress, e: Event)
    requires Allowed(s, e) && s.host.Some? && !Commits(s, e)
    ensures Apply(s, e).host.Some? && Apply(s, e).host.value.retry.notBefore >= s.host.value.retry.notBefore
  {}

  lemma {:induction false} FloorNeverFalls(states: seq<Progress>, log: seq<Event>, i: nat, j: nat)
    requires Behavior(states, log) && i <= j <= |log| && states[i].host.Some?
    requires forall k :: i <= k < j ==> !Commits(states[k], log[k])
    ensures states[j].host.Some? && states[j].host.value.retry.notBefore >= states[i].host.value.retry.notBefore
    decreases j
  {
    if i < j {
      FloorNeverFalls(states, log, i, j - 1);
      StepAt(states, log, j - 1);
      FloorStep(states[j - 1], log[j - 1]);
    }
  }

  ghost predicate NoAdmission(log: seq<Event>, i: nat, j: nat)
    requires j <= |log|
  {
    forall k :: i < k < j ==> !log[k].Admitted?
  }

  /** The running attempt is the one that was admitted last. */
  lemma {:induction false} LastAdmitted(states: seq<Progress>, log: seq<Event>, i: nat, j: nat)
    requires Behavior(states, log) && i < j <= |log| && log[i].Admitted? && NoAdmission(log, i, j)
    requires states[j].attempt.Some?
    ensures states[j].attempt.value.start == log[i].start && states[j].attempt.value.delay == log[i].delay
    decreases j
  {
    StepAt(states, log, j - 1);
    if i < j - 1 {
      LastAdmitted(states, log, i, j - 1);
    }
  }

  /** Nothing is sent before the reservation is durable, and then the floor covers the attempt. */
  lemma SendsAreReserved(states: seq<Progress>, log: seq<Event>, i: nat, k: nat)
    requires Behavior(states, log) && i < k < |log|
    requires log[i].Admitted? && NoAdmission(log, i, k) && log[k].Sent?
    ensures states[k].host.Some? && states[k].host.value.retry.notBefore >= log[i].start + log[i].delay
    ensures states[k].host.value.retry.failures >= 1
  {
    StepAt(states, log, k);
    AlwaysCovered(states, log, k);
    LastAdmitted(states, log, i, k);
  }

  /** `log[m]` is the save that made the present record durable, and nothing has been sent since. */
  ghost predicate PersistedAt(s: Progress, log: seq<Event>, n: nat, m: nat)
    requires n <= |log|
  {
    && m < n && s.host.Some? && log[m] == Saved(s.host.value, true)
    && forall k :: m < k < n ==> !log[k].Sent? && !log[k].Admitted?
  }

  lemma PersistedStep(states: seq<Progress>, log: seq<Event>, i: nat)
    requires Behavior(states, log) && i < |log|
    requires states[i + 1].attempt.Some? && states[i + 1].attempt.value.persisted
    ensures
      || (states[i + 1].host.Some? && log[i] == Saved(states[i + 1].host.value, true))
      || (&& !log[i].Sent? && !log[i].Admitted? && states[i].host == states[i + 1].host
          && states[i].attempt.Some? && states[i].attempt.value.persisted)
  {
    StepAt(states, log, i);
  }

  lemma {:induction false} LastSave(states: seq<Progress>, log: seq<Event>, n: nat) returns (m: nat)
    requires Behavior(states, log) && n <= |log|
    requires states[n].attempt.Some? && states[n].attempt.value.persisted
    ensures PersistedAt(states[n], log, n, m)
  {
    PersistedStep(states, log, n - 1);
    if states[n].host.Some? && log[n - 1] == Saved(states[n].host.value, true) {
      m := n - 1;
    } else {
      m := LastSave(states, log, n - 1);
    }
  }

  /** Before every request the record is saved again: between any two requests, and before the first one of an
      attempt, a save has landed that left the record as the request finds it. */
  lemma SavedBeforeSending(states: seq<Progress>, log: seq<Event>, k: nat) returns (m: nat)
    requires Behavior(states, log) && k < |log| && log[k].Sent?
    ensures PersistedAt(states[k], log, k, m)
  {
    StepAt(states, log, k);
    m := LastSave(states, log, k);
  }

  /** A landed reservation. */
  predicate Reserves(s: Progress, e: Event) {
    e.Saved? && e.landed && s.attempt.Some? && !s.attempt.value.reserved
  }

  /** Once an attempt's reservation has landed, no attempt is admitted before its start plus its delay,
      wherever it was cut, unless a certificate was committed in between. */
  lemma RefusedUntilFloor(states: seq<Progress>, log: seq<Event>, i: nat, k: nat, j: nat)
    requires Behavior(states, log) && i < k < j < |log|
    requires log[i].Admitted? && NoAdmission(log, i, k) && Reserves(states[k], log[k])
    requires log[j].Admitted?
    ensures log[j].now >= log[i].start + log[i].delay || exists m :: k < m < j && Commits(states[m], log[m])
  {
    StepAt(states, log, k);
    AlwaysCovered(states, log, k + 1);
    LastAdmitted(states, log, i, k + 1);
    if forall m :: k < m < j ==> !Commits(states[m], log[m]) {
      FloorNeverFalls(states, log, k + 1, j);
      StepAt(states, log, j);
    }
  }

  /** In particular once an attempt has sent anything. */
  lemma RefusedAfterSending(states: seq<Progress>, log: seq<Event>, i: nat, k: nat, j: nat)
    requires Behavior(states, log) && i < k < j < |log|
    requires log[i].Admitted? && NoAdmission(log, i, k) && log[k].Sent?
    requires log[j].Admitted?
    ensures log[j].now >= log[i].start + log[i].delay || exists m :: k <= m < j && Commits(states[m], log[m])
  {
    SendsAreReserved(states, log, i, k);
    if forall m :: k <= m < j ==> !Commits(states[m], log[m]) {
      FloorNeverFalls(states, log, k, j);
      StepAt(states, log, j);
    }
  }

  /** Every record an attempt tries to save before its success commit carries the floor, landed or not. */
  lemma SavedRecordsCarryFloor(states: seq<Progress>, log: seq<Event>, i: nat, k: nat)
    requires Behavior(states, log) && i < k < |log|
    requires log[i].Admitted? && NoAdmission(log, i, k)
    requires log[k].Saved? && log[k].record.retry != Fresh
    ensures log[k].record.retry.notBefore >= log[i].start + log[i].delay
  {
    StepAt(states, log, k);
    AlwaysCovered(states, log, k);
    LastAdmitted(states, log, i, k);
  }

  /** Reservations that landed since the last success commit. */
  ghost function Reservations(states: seq<Progress>, log: seq<Event>, n: nat): nat
    requires |states| == |log| + 1 && n <= |log|
  {
    if n == 0 || Commits(states[n - 1], log[n - 1]) then 0 else
    Reservations(states, log, n - 1) + (if Reserves(states[n - 1], log[n - 1]) then 1 else 0)
  }

  /** Every admitted attempt whose reservation landed adds exactly one failure, up to the 32-bit limit. */
  lemma {:induction false} FailuresCountAttempts(states: seq<Progress>, log: seq<Event>, n: nat)
    requires Behavior(states, log) && n <= |log|
    ensures states[n].host.Some? ==> states[n].host.value.retry.failures == Min(Reservations(states, log, n), U32_MAX)
    ensures states[n].host.None? ==> Reservations(states, log, n) == 0
  {
    if n > 0 {
      FailuresCountAttempts(states, log, n - 1);
      StepAt(states, log, n - 1);
      AlwaysCovered(states, log, n - 1);
      FailuresStep(states[n - 1], log[n - 1]);
    }
  }

  lemma FailuresStep(s: Progress, e: Event)
    requires Allowed(s, e) && Covered(s)
    ensures var t := Apply(s, e);
      var before := if s.host.Some? then s.host.value.retry.failures else 0;
      && (Commits(s, e) ==> t.host.Some? && t.host.value.retry.failures == 0)
      && (!Commits(s, e) && Reserves(s, e) ==>
          t.host.Some? && t.host.value.retry.failures == SaturatingSucc(before, U32_MAX))
      && (!Commits(s, e) && !Reserves(s, e) ==>
          t.host.Some? == s.host.Some? && (t.host.Some? ==> t.host.value.retry.failures == before))
  {}

  // ----- one CSR for each URL -----

  predicate Finalizes(e: Event, url: Url) {
    e.Sent? && e.call.Finalize? && e.call.url == url
  }

  /** The CA never gives the same URL to two orders. */
  ghost predicate FreshUrls(log: seq<Event>) {
    forall i, j :: 0 <= i < j < |log| && log[i].Opened? && log[j].Opened? ==> log[i].url != log[j].url
  }

  /** Every CSR finalized at `url` in the first `n` events is `csr`. */
  ghost predicate FinalizesOnly(log: seq<Event>, n: nat, url: Url, csr: Csr)
    requires n <= |log|
  {
    forall k :: 0 <= k < n && Finalizes(log[k], url) ==> log[k].call.csr == csr
  }

  ghost predicate NeverFinalized(log: seq<Event>, n: nat, url: Url)
    requires n <= |log|
  {
    forall k :: 0 <= k < n ==> !Finalizes(log[k], url)
  }

  ghost predicate WasOpened(log: seq<Event>, n: nat, url: Url)
    requires n <= |log|
  {
    exists m :: 0 <= m < n && log[m] == Opened(url)
  }

  /** Finalized URLs were opened before; the stored URL goes with the stored CSR; a URL given to the
      running attempt is stored already or has not been finalized at all. */
  ghost predicate UrlsAgree(s: Progress, log: seq<Event>, n: nat)
    requires n <= |log|
  {
    && (forall k :: 0 <= k < n && log[k].Sent? && log[k].call.Finalize? ==> WasOpened(log, n, log[k].call.url))
    && (HasOrder(s) && Order(s).url.Some? ==>
          WasOpened(log, n, Order(s).url.value) && FinalizesOnly(log, n, Order(s).url.value, Order(s).csr))
    && (s.attempt.Some? && s.attempt.value.given.Some? ==>
          var url := s.attempt.value.given.value;
          WasOpened(log, n, url) && ((HasOrder(s) && Order(s).url == Some(url)) || NeverFinalized(log, n, url)))
  }

  lemma {:induction false} UrlsAlwaysAgree(states: seq<Progress>, log: seq<Event>, n: nat)
    requires Behavior(states, log) && FreshUrls(log) && n <= |log|
    ensures UrlsAgree(states[n], log, n)
  {
    if n > 0 {
      UrlsAlwaysAgree(states, log, n - 1);
      StepAt(states, log, n - 1);
      UrlsComeFrom(states[n - 1], log[n - 1]);
      UrlsStep(states[n - 1], states[n], log, n - 1);
    }
  }

  /** A stored URL was stored before or given to the attempt; a given URL is new or given before. */
  predicate UrlSources(s: Progress, e: Event, t: Progress) {
    && (HasOrder(t) && Order(t).url.Some? ==>
          && HasOrder(s) && Order(t).csr == Order(s).csr
          && (Order(t).url == Order(s).url || (s.attempt.Some? && Order(t).url == s.attempt.value.given)))
    && (t.attempt.Some? && t.attempt.value.given.Some? && !(e.Opened? && t.attempt.value.given == Some(e.url)) ==>
          && s.attempt.Some? && s.attempt.value.given == t.attempt.value.given
          && (HasOrder(s) && Order(s).url == t.attempt.value.given ==>
              HasOrder(t) && Order(t).url == t.attempt.value.given))
    && (e.Sent? && e.call.Finalize? ==>
          t.host == s.host && HasOrder(s) && Order(s).url == Some(e.call.url) && Order(s).csr == e.call.csr)
  }

  lemma UrlsComeFrom(s: Progress, e: Event)
    requires Allowed(s, e)
    ensures UrlSources(s, e, Apply(s, e))
  {}

  lemma UrlsStep(s: Progress, t: Progress, log: seq<Event>, n: nat)
    requires n < |log| && FreshUrls(log)
    requires UrlsAgree(s, log, n) && UrlSources(s, log[n], t)
    ensures UrlsAgree(t, log, n + 1)
  {
    forall url | WasOpened(log, n, url)
      ensures WasOpened(log, n + 1, url)
    {}
    if log[n].Opened? {
      assert log[n] == Opened(log[n].url);
      assert WasOpened(log, n + 1, log[n].url);
      assert !WasOpened(log, n, log[n].url);
    }
  }

  /** Over every sequence of attempts, one URL is only ever finalized with one CSR. */
  lemma OneCsrPerUrl(states: seq<Progress>, log: seq<Event>, i: nat, j: nat)
    requires Behavior(states, log) && FreshUrls(log) && i < j < |log|
    requires log[i].Sent? && log[i].call.Finalize? && Finalizes(log[j], log[i].call.url)
    ensures log[i].call.csr == log[j].call.csr
  {
    UrlsAlwaysAgree(states, log, j);
    StepAt(states, log, j);
  }

  /** The CSR finalized at a URL is the one durably stored with that URL at that moment. */
  lemma FinalizedCsrIsStored(states: seq<Progress>, log: seq<Event>, j: nat)
    requires Behavior(states, log) && j < |log| && log[j].Sent? && log[j].call.Finalize?
    ensures HasOrder(states[j])
    ensures Order(states[j]).url == Some(log[j].call.url) && Order(states[j]).csr == log[j].call.csr
  {
    StepAt(states, log, j);
  }

  // ----- certificates and keys -----

  /** The CA hands out a chain only for an order it finalized. */
  ghost predicate IssuesOnlyFinalized(log: seq<Event>) {
    forall d :: 0 <= d < |log| && log[d].Downloaded? ==>
      exists k :: 0 <= k < d && Finalizes(log[k], log[d].url) && log[k].acted
  }

  /** The chain was downloaded from an order at which only the CSR of this key had been finalized. */
  ghost predicate Paired(log: seq<Event>, n: nat, material: CertificateMaterial)
    requires n <= |log|
  {
    exists d: nat, csr :: PairedAt(log, n, material, d, csr)
  }

  ghost predicate PairedAt(log: seq<Event>, n: nat, material: CertificateMaterial, d: nat, csr: Csr)
    requires n <= |log|
  {
    && d < n && log[d].Downloaded? && log[d].chain == material.chain
    && Generated(material.key, csr) in log[..n]
    && FinalizesOnly(log, d, log[d].url, csr)
  }

  ghost predicate KeysAgree(s: Progress, log: seq<Event>, n: nat)
    requires n <= |log|
  {
    && (HasOrder(s) ==> Generated(Order(s).key, Order(s).csr) in log[..n])
    && (s.attempt.Some? && s.attempt.value.generated.Some? ==>
          Generated(s.attempt.value.generated.value.0, s.attempt.value.generated.value.1) in log[..n])
    && (s.attempt.Some? && s.attempt.value.downloaded.Some? ==>
          Downloaded(s.attempt.value.downloaded.value.0, s.attempt.value.downloaded.value.1) in log[..n])
    && (s.host.Some? && s.host.value.certificate.Some? ==> Paired(log, n, s.host.value.certificate.value.material))
  }

  lemma PairedLater(log: seq<Event>, n: nat, material: CertificateMaterial)
    requires n < |log| && Paired(log, n, material)
    ensures Paired(log, n + 1, material)
  {
    var d: nat, csr :| PairedAt(log, n, material, d, csr);
    assert log[..n + 1] == log[..n] + [log[n]];
    assert PairedAt(log, n + 1, material, d, csr);
  }

  /** Keys, downloads and certificates are old, or come from this very event. */
  predicate KeySources(s: Progress, e: Event, t: Progress) {
    && (HasOrder(t) ==>
          || (HasOrder(s) && Order(s).key == Order(t).key && Order(s).csr == Order(t).csr)
          || (s.attempt.Some? && s.attempt.value.generated == Some((Order(t).key, Order(t).csr))))
    && (t.attempt.Some? && t.attempt.value.generated.Some? ==>
          || e == Generated(t.attempt.value.generated.value.0, t.attempt.value.generated.value.1)
          || (s.attempt.Some? && s.attempt.value.generated == t.attempt.value.generated))
    && (t.attempt.Some? && t.attempt.value.downloaded.Some? ==>
          || e == Downloaded(t.attempt.value.downloaded.value.0, t.attempt.value.downloaded.value.1)
          || (s.attempt.Some? && s.attempt.value.downloaded == t.attempt.value.downloaded))
    && (t.host.Some? && t.host.value.certificate.Some? ==>
          || (s.host.Some? && s.host.value.certificate.Some?
              && s.host.value.certificate.value.material == t.host.value.certificate.value.material)
          || (s.host.Some? && s.attempt.Some? && Commit(s.host.value, s.attempt.value, t.host.value)))
  }

  lemma KeysComeFrom(states: seq<Progress>, log: seq<Event>, i: nat)
    requires Behavior(states, log) && i < |log|
    ensures KeySources(states[i], log[i], states[i + 1])
  {
    StepAt(states, log, i);
  }

  lemma KeysStep(s: Progress, t: Progress, log: seq<Event>, n: nat)
    requires n < |log| && UrlsAgree(s, log, n) && KeysAgree(s, log, n) && KeySources(s, log[n], t)
    ensures KeysAgree(t, log, n + 1)
  {
    assert log[..n + 1] == log[..n] + [log[n]];
    if t.host.Some? && t.host.value.certificate.Some? {
      if s.host.Some? && s.attempt.Some? && Commit(s.host.value, s.attempt.value, t.host.value) {
        CommitPairs(s, log, n, t.host.value);
      } else {
        PairedLater(log, n, t.host.value.certificate.value.material);
      }
    }
  }

  lemma CommitPairs(s: Progress, log: seq<Event>, n: nat, record: StoredHost)
    requires n < |log| && UrlsAgree(s, log, n) && KeysAgree(s, log, n)
    requires s.host.Some? && s.attempt.Some? && Commit(s.host.value, s.attempt.value, record)
    ensures Paired(log, n + 1, record.certificate.value.material)
  {
    var o, got := Order(s), s.attempt.value.downloaded.value;
    var d :| 0 <= d < n && log[..n][d] == Downloaded(got.0, got.1);
    assert log[..n + 1] == log[..n] + [log[n]];
    assert PairedAt(log, n + 1, record.certificate.value.material, d, o.csr);
  }

  lemma KeysAt(states: seq<Progress>, log: seq<Event>, n: nat)
    requires Behavior(states, log) && FreshUrls(log) && n < |log| && KeysAgree(states[n], log, n)
    ensures KeysAgree(states[n + 1], log, n + 1)
  {
    assert UrlsAgree(states[n], log, n) by {
      UrlsAlwaysAgree(states, log, n);
    }
    assert KeySources(states[n], log[n], states[n + 1]) by {
      KeysComeFrom(states, log, n);
    }
    KeysStep(states[n], states[n + 1], log, n);
  }

  lemma {:induction false} KeysAlwaysAgree(states: seq<Progress>, log: seq<Event>, n: nat)
    requires Behavior(states, log) && FreshUrls(log) && n <= |log|
    ensures KeysAgree(states[n], log, n)
  {
    if n > 0 {
      KeysAlwaysAgree(states, log, n - 1);
      KeysAt(states, log, n - 1);
    }
  }

  /** The key and the CSR were generated together, and the chain comes from an order at which the CA
      finalized that CSR and no other CSR was ever finalized. */
  ghost predicate KeyCertified(log: seq<Event>, material: CertificateMaterial) {
    exists d: nat, k: nat, csr :: CertifiedAt(log, material, d, k, csr)
  }

  ghost predicate CertifiedAt(log: seq<Event>, material: CertificateMaterial, d: nat, k: nat, csr: Csr) {
    && k < d < |log|
    && log[d].Downloaded? && log[d].chain == material.chain
    && log[k] == Sent(Finalize(log[d].url, csr), true)
    && Generated(material.key, csr) in log
    && FinalizesOnly(log, |log|, log[d].url, csr)
  }

  /** Every certificate that is ever durable or activated is paired with the private key whose CSR
      the CA finalized for its order. */
  lemma CertificatesMatchKeys(states: seq<Progress>, log: seq<Event>, n: nat, material: CertificateMaterial)
    requires Behavior(states, log) && FreshUrls(log) && IssuesOnlyFinalized(log) && n <= |log|
    requires || (n < |log| && log[n] == Activated(material))
             || (states[n].host.Some? && states[n].host.value.certificate.Some?
                 && states[n].host.value.certificate.value.material == material)
    ensures KeyCertified(log, material)
  {
    if n < |log| {
      StepAt(states, log, n);
    }
    KeysAlwaysAgree(states, log, n);
    var d: nat, csr :| PairedAt(log, n, material, d, csr);
    var k: nat :| k < d && Finalizes(log[k], log[d].url) && log[k].acted;
    forall m | 0 <= m < |log| && Finalizes(log[m], log[d].url)
      ensures log[m].call.csr == csr
    {
      if k < m {
        OneCsrPerUrl(states, log, k, m);
      } else if m < k {
        OneCsrPerUrl(states, log, m, k);
      }
    }
    assert CertifiedAt(log, material, d, k, csr);
  }

  // ----- requests that are never repeated -----

  predicate Finalization(e: Event) {
    e.Sent? && e.call.Finalize?
  }

  /** What the attempt saw last was reported, and nothing was finalized since. */
  ghost predicate SeenAt(s: Progress, log: seq<Event>, n: nat, i: nat)
    requires n <= |log|
  {
    && s.attempt.Some? && s.attempt.value.seen.Some?
    && i < n && log[i] == Reported(s.attempt.value.seen.value.0, s.attempt.value.seen.value.1)
    && forall k :: i < k < n ==> !Finalization(log[k])
  }

  lemma SeenStep(states: seq<Progress>, log: seq<Event>, i: nat)
    requires Behavior(states, log) && i < |log| && states[i + 1].attempt.Some? && states[i + 1].attempt.value.seen.Some?
    ensures !Finalization(log[i])
    ensures var seen := states[i + 1].attempt.value.seen;
      || log[i] == Reported(seen.value.0, seen.value.1)
      || (states[i].attempt.Some? && states[i].attempt.value.seen == seen)
  {
    StepAt(states, log, i);
  }

  lemma {:induction false} SeenWasReported(states: seq<Progress>, log: seq<Event>, n: nat) returns (i: nat)
    requires Behavior(states, log) && n <= |log|
    requires states[n].attempt.Some? && states[n].attempt.value.seen.Some?
    ensures SeenAt(states[n], log, n, i)
  {
    var seen := states[n].attempt.value.seen.value;
    SeenStep(states, log, n - 1);
    if log[n - 1] == Reported(seen.0, seen.1) {
      i := n - 1;
    } else {
      i := SeenWasReported(states, log, n - 1);
    }
  }

  /** Section 7.1.6 of RFC 8555: an order whose finalization was processed never goes back. */
  ghost predicate ForwardOnly(log: seq<Event>) {
    forall i, j :: 0 <= i < j < |log| && Finalization(log[i]) && log[i].acted && log[j].Reported?
      && log[j].url == log[i].call.url
      ==> !log[j].status.Pending? && !log[j].status.Ready?
  }

  /** A finalization the CA processed is never sent again, in this attempt or any later one. */
  lemma FinalizedOnce(states: seq<Progress>, log: seq<Event>, i: nat, j: nat)
    requires Behavior(states, log) && ForwardOnly(log) && i < j < |log|
    requires Finalization(log[i]) && log[i].acted
    ensures !Finalizes(log[j], log[i].call.url)
  {
    if Finalizes(log[j], log[i].call.url) {
      StepAt(states, log, j);
      var _ := SeenWasReported(states, log, j);
    }
  }

  /** Within an attempt the once-only flags stay set and the counters count. */
  lemma FlagsStep(states: seq<Progress>, log: seq<Event>, i: nat)
    requires Behavior(states, log) && i < |log| && !log[i].Admitted? && states[i + 1].attempt.Some?
    ensures states[i].attempt.Some?
    ensures var a, b := states[i].attempt.value, states[i + 1].attempt.value;
      && (a.finalized ==> b.finalized) && (a.answered ==> b.answered)
      && b.refreshes == a.refreshes + (if log[i].Sent? && log[i].call.Refresh? then 1 else 0)
      && b.slept == a.slept + (if log[i].Slept? then log[i].nanos else 0)
  {
    StepAt(states, log, i);
  }

  lemma {:induction false} FlagsPersist(states: seq<Progress>, log: seq<Event>, i: nat, j: nat)
    requires Behavior(states, log) && i <= j <= |log| && states[i].attempt.Some? && states[j].attempt.Some?
    requires forall k :: i <= k < j ==> !log[k].Admitted?
    ensures states[i].attempt.value.finalized ==> states[j].attempt.value.finalized
    ensures states[i].attempt.value.answered ==> states[j].attempt.value.answered
    ensures states[j].attempt.value.refreshes == states[i].attempt.value.refreshes + Refreshes(log, i, j)
    ensures states[j].attempt.value.slept == states[i].attempt.value.slept + SleepTotal(log, i, j)
    decreases j
  {
    if i < j {
      FlagsStep(states, log, j - 1);
      FlagsPersist(states, log, i, j - 1);
    }
  }

  /** Order refreshes among events `i` to `j`. */
  function Refreshes(log: seq<Event>, i: nat, j: nat): nat
    requires i <= j <= |log|
  {
    if i == j then 0 else
    Refreshes(log, i, j - 1) + (if log[j - 1].Sent? && log[j - 1].call.Refresh? then 1 else 0)
  }

  function SleepTotal(log: seq<Event>, i: nat, j: nat): nat
    requires i <= j <= |log|
  {
    if i == j then 0 else
    SleepTotal(log, i, j - 1) + (if log[j - 1].Slept? then log[j - 1].nanos else 0)
  }

  /** Within one attempt a challenge is answered at most once and an order finalized at most once. */
  lemma SentOncePerAttempt(states: seq<Progress>, log: seq<Event>, i: nat, j: nat)
    requires Behavior(states, log) && i < j < |log| && log[i].Sent? && log[j].Sent?
    requires (log[i].call.Finalize? && log[j].call.Finalize?)
      || (log[i].call.AnswerChallenge? && log[j].call.AnswerChallenge?)
    ensures exists k :: i < k < j && log[k].Admitted?
  {
    StepAt(states, log, i);
    StepAt(states, log, j);
    if forall k :: i < k < j ==> !log[k].Admitted? {
      FlagsPersist(states, log, i + 1, j);
    }
  }

  /** One attempt refreshes its order at most 32 times and sleeps less than 900 seconds in all. */
  lemma AttemptIsBounded(states: seq<Progress>, log: seq<Event>, i: nat, j: nat)
    requires Behavior(states, log) && i < j <= |log| && log[i].Admitted? && NoAdmission(log, i, j)
    requires states[j].attempt.Some?
    ensures Refreshes(log, i + 1, j) <= MAX_REFRESHES
    ensures SleepTotal(log, i + 1, j) < BUDGET
  {
    StepAt(states, log, i);
    FlagsPersist(states, log, i + 1, j);
    Bounded(states, log, j);
  }

  lemma {:induction false} Bounded(states: seq<Progress>, log: seq<Event>, n: nat)
    requires Behavior(states, log) && n <= |log|
    ensures states[n].attempt.Some? ==>
      states[n].attempt.value.refreshes <= MAX_REFRESHES && states[n].attempt.value.slept < BUDGET
  {
    if n > 0 {
      StepAt(states, log, n - 1);
      Bounded(states, log, n - 1);
    }
  }
}
