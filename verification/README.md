# Lonewolf certificate management: a verified model

Lonewolf is an XMPP server that obtains and renews its own TLS certificates with ACME (RFC 8555, with renewal
information as in RFC 9773). This project models the part of it that has to be right when a machine loses power in
the middle of an order: the issuance state machine and its durable records, the scheduler that decides when to run it,
the store and transport admission gates, the challenge registry, the HTTP-01 accept loop, the observation of CA
responses, and the timing rules. It also models the token bucket of the rate limiter and the paged account listing of
the administration tool.

Protocols are logs of events: `Behavior(states, log)` says that each event was allowed where it happened. The code
that produces a log is imperative Dafny, proved to append allowed events only, and the theorems speak of every such
log, so also of logs cut by a crash at any point. Storage, the CA, clocks, random draws, the installer and the network
are an environment that may do anything their interfaces permit: a save that failed may have landed, a request without
a reply may have been acted on, and a draw is an arbitrary legal number. Classes with updatable fields
(`TokenBucket`, `Challenges`, `Lock`, `Observer`, `RetryContext`, `Acceptor`, `RequestLineObserver`, `Driver`,
`Ledger`, `Scheduler`) follow the objects and loops of the code; each is tied to a function on values or to a log.

| file | what it models |
|---|---|
| `Types.dfy`, `Schedule.dfy`, `Renewal.dfy` | durable records, retry and renewal timing, unbiased draws |
| `Issuance.dfy`, `Issuer.dfy`, `Attempts.dfy`, `IssuanceTheorems.dfy` | one host's issuance: events and guards, environment, driver, theorems |
| `AccountSetup.dfy` | account registration |
| `Manager.dfy` | the scheduler loop |
| `Admission.dfy`, `ChallengeRegistry.dfy`, `Http01.dfy`, `Observations.dfy` | admission and draining, challenge leases, accept loop, response observation |
| `TokenBuckets.dfy`, `Paging.dfy`, `StringOrder.dfy` | rate limiting, account listing, the order of names |

Two results are sharper than one would state them first. Ten immediate retries fit between the fallback time and
expiry if and only if the certificate lives at least 107053 seconds (`Schedule.TenRetriesFit`). And an order is
declared finished only on the 404 or 410 answer to the latest request of its own operation, in every interleaving
(`Observations.TerminalIsJustified`). Arming an operation does not by itself clear the status that the operation
before it left behind (`Observations.ArmKeepsStatus`), but a step can fail only with the answer to a request it has
sent, and a recorded status speaks of the armed order if and only if something was sent since the arm
(`Observations.TerminalExactly`). The steps on the order resource also reset the status before they arm
(`Observations.Observer.OrderStep`).

## Model

| member | source | states |
|---|---|---|
| `IssuanceTheorems.OneCsrPerUrl` | crates/lonewolf-acme/src/issuer/mod.rs:760-767 | Over every sequence of attempts, cut anywhere, with a CA that never gives one URL to two orders: all finalisations at one URL carry the same CSR. |
| `IssuanceTheorems.FinalizedCsrIsStored` | crates/lonewolf-acme/src/issuer/mod.rs:653-685 | The CSR finalised at a URL is the one that is durable together with that URL at that moment. |
| `IssuanceTheorems.CertificatesMatchKeys` | crates/lonewolf-acme/src/issuer/mod.rs:768-807 | Every certificate ever stored or activated is paired with the private key whose CSR was generated with it and is the only one ever finalised at the order the chain came from. |
| `IssuanceTheorems.OrderIsStable` | crates/lonewolf-acme/src/issuer/mod.rs:818-842 | While an order stays in durable state its key, CSR, replacement and profile never change, its URL is set at most once and a known expiry is never erased. |
| `IssuanceTheorems.StoredUrlIsResumed` | crates/lonewolf-acme/src/issuer/mod.rs:674-685 | Once an order's URL is stored it is never ordered again; every later request that names an order names that URL. |
| `IssuanceTheorems.SendsAreReserved` | crates/lonewolf-acme/src/issuer/mod.rs:495-533 | Nothing is sent to the CA before the attempt's reservation is durable: its floor is at least start plus delay and it counts at least one failure. |
| `IssuanceTheorems.RefusedUntilFloor` | crates/lonewolf-acme/src/issuer/mod.rs:495-533 | Once an attempt's reservation has landed, wherever the attempt is cut, no attempt is admitted before its start plus its delay, unless a certificate was committed. |
| `IssuanceTheorems.RefusedAfterSending` | crates/lonewolf-acme/src/issuer/mod.rs:495-533 | In particular after anything was sent to the CA. |
| `IssuanceTheorems.SavedBeforeSending` | crates/lonewolf-acme/src/issuer/mod.rs:566-572 | Before every request the record is saved again: since the last request, or since the admission, a save has landed that left the record as the request finds it. |
| `IssuanceTheorems.SavedRecordsCarryFloor` | crates/lonewolf-acme/src/issuer/mod.rs:536-572 | Every record an attempt tries to save before the success commit, landed or not, carries that floor. |
| `IssuanceTheorems.FloorNeverFalls` | crates/lonewolf-acme/src/issuer/mod.rs:316-338 | The durable floor never falls until a success commit. |
| `IssuanceTheorems.FailuresCountAttempts` | crates/lonewolf-acme/src/issuer/mod.rs:298-315 | The durable failure count is the number of reservations that landed since the last success, capped at 32 bits. |
| `IssuanceTheorems.FinalizedOnce` | crates/lonewolf-acme/src/issuer/mod.rs:760-767 | With a CA whose order status only moves forward (section 7.1.6 of RFC 8555), a finalisation it processed is never sent again, in this attempt or any later one. |
| `IssuanceTheorems.SentOncePerAttempt` | crates/lonewolf-acme/src/issuer/mod.rs:735-767 | Between two challenge answers, or two finalisations, a new attempt was admitted. |
| `IssuanceTheorems.AttemptIsBounded` | crates/lonewolf-acme/src/issuer/mod.rs:547-564 | One attempt refreshes its order at most 32 times and sleeps less than 900 seconds in all. |
| `Attempts.RefreshBudget` | crates/lonewolf-acme/src/issuer/mod.rs:808-815 | With intervals that double up to 30 seconds, a wait that still fits the 900-second budget is followed by at most the 32nd refresh. |
| `Attempts.Driver.Wait` | crates/lonewolf-acme/src/issuer/mod.rs:547-564 | Refreshes and saves the floor for the moment and the hint, then sleeps exactly the pause or until the hint, and times out only if that reaches the deadline, which no sleep does. |
| `Attempts.Driver.Before` | crates/lonewolf-acme/src/issuer/mod.rs:566-572 | Before every CA request the hint has been waited for and cleared, and the in-memory record is durable with only its floor moved, past the moment plus the delay and past the hint. |
| `Attempts.Driver.Observe` | crates/lonewolf-acme/src/issuer/mod.rs:818-842 | A report for another name or replacement, of another URL, malformed, or without the expiry its status needs is a protocol failure and changes nothing; an accepted one changes only the URL and the expiry, which is the reported one or else the known one. |
| `Attempts.Driver.CheckAccount` | crates/lonewolf-acme/src/issuer/mod.rs:579-590 | Passes only with an account that is registered with this directory under its own key and whose floor has passed; a later floor is reported. |
| `Attempts.Driver.Intent` | crates/lonewolf-acme/src/issuer/mod.rs:591-629 | The certificate must be the one the caller names; an order for another profile is dropped, and one that replaces a certificate must replace the stored one. |
| `Attempts.Driver.Plan` | crates/lonewolf-acme/src/issuer/mod.rs:631-669 | The account is restored first; an order without URL needs an offered profile; a new order replaces the stored certificate exactly if the CA supports that. |
| `Attempts.Driver.CheckExpiry` | crates/lonewolf-acme/src/issuer/mod.rs:692-704 | At a moment that can be represented: fails terminally exactly if the expiry of the order has passed, and otherwise changes nothing. |
| `Attempts.Driver.Prepare` | crates/lonewolf-acme/src/issuer/mod.rs:574-677 | After the preparation the account is usable, the certificate is the one named, and there is an unexpired order of the configured profile that the CA can take. |
| `Attempts.Driver.Open` | crates/lonewolf-acme/src/issuer/mod.rs:674-686 | Resumes the stored URL or opens a new order; afterwards the snapshot has been accepted and the durable order is the one it speaks of. |
| `Attempts.Driver.Challenge` | crates/lonewolf-acme/src/issuer/mod.rs:706-759 | In the pending branch a valid authorization needs nothing more; otherwise the response is being served and a pending challenge has been answered unless it was before; exactly a hopeless authorization ends the order. |
| `Attempts.Driver.Finalize` | crates/lonewolf-acme/src/issuer/mod.rs:760-767 | The ready branch finalises with the CSR of the durable order and stores the report. |
| `Attempts.Driver.Check` | crates/lonewolf-acme/src/issuer/mod.rs:776-799 | A certificate is recorded only if the installer accepts it and it is valid now, and refused as material only otherwise; the record has its first check at once and its renewal at the fallback time. |
| `Attempts.Driver.Respond` | crates/lonewolf-acme/src/issuer/mod.rs:705-809 | What each status leads to: ready is finalised unless that was done, valid is installed, invalid is given up, and everything else waits. |
| `Attempts.Driver.Act` | crates/lonewolf-acme/src/issuer/mod.rs:692-809 | An expired order is not acted on; otherwise the status decides. |
| `Attempts.Driver.Install` | crates/lonewolf-acme/src/issuer/mod.rs:768-807 | A success ends with the commit of the downloaded chain under the order's key, then its activation. |
| `Attempts.Driver.Loop` | crates/lonewolf-acme/src/issuer/mod.rs:687-815 | The polling loop ends on every run: the time left, then the finalise-once flag, decrease; every event it causes is allowed. |
| `Attempts.Reserve` | crates/lonewolf-acme/src/issuer/mod.rs:298-314 | Deferred exactly before the floor; otherwise one more failure, a delay of the base plus at most a tenth drawn for it, and as floor the later of the old one and start plus delay. |
| `Attempts.Begin` | crates/lonewolf-acme/src/issuer/mod.rs:464-508 | The attempt works on the stored record or a new one, with its failures plus one, a delay for its lifetime and a deadline 900 seconds after its start; a failure other than one of state changes nothing. |
| `Attempts.Settle` | crates/lonewolf-acme/src/issuer/mod.rs:510-532 | A failed run saves the record with a floor for the CA's hint, or else for its own, and drops the order exactly if it is finished. |
| `Attempts.Attempt` | crates/lonewolf-acme/src/issuer/mod.rs:464-533 | From any legal log, an attempt that returns, fails or is cut leaves a legal log; a success leaves the certificate durable. |
| `Attempts.History` | crates/lonewolf-acme/src/issuer/mod.rs:134-160 | Any number of attempts and renewal saves, one after another, produce a log that the theorems above apply to. |
| `Issuer.RefreshedFloor` | crates/lonewolf-acme/src/issuer/mod.rs:316-338 | Refreshing succeeds exactly if clock, floor and hint are representable; the floor is the least one that keeps the old floor, now plus delay, and the server's hint rounded up. |
| `AccountSetup.KeyIsForever` | crates/lonewolf-acme/src/issuer/mod.rs:398-452 | A stored account key, and credentials once stored, stay for good. |
| `AccountSetup.CredentialsMatchKey` | crates/lonewolf-acme/src/issuer/mod.rs:340-367 | Stored credentials always belong to the stored key and the configured directory. |
| `AccountSetup.OneAccountKey` | crates/lonewolf-acme/src/issuer/mod.rs:398-452 | Every registration ever sent, over any number of attempts cut anywhere, uses the one stored key, and none is sent once credentials are stored. |
| `AccountSetup.RegistrationIsReserved` | crates/lonewolf-acme/src/issuer/mod.rs:426-430 | When a registration is sent, the durable record has the key that is sent, counts at least one failure, and its floor is at least start plus delay of the admitted attempt. |
| `AccountSetup.RefusedUntilFloor` | crates/lonewolf-acme/src/issuer/mod.rs:426-427 | Once a registration attempt's reservation has landed, wherever the attempt is cut, no registration is attempted before its start plus its delay. |
| `AccountSetup.FloorNeverFalls` | crates/lonewolf-acme/src/issuer/mod.rs:316-338 | The durable floor of an account that is not registered yet never falls. |
| `AccountSetup.CredentialsWereRequested` | crates/lonewolf-acme/src/issuer/mod.rs:429-440 | Credentials are stored only for a key that a registration was sent for. |
| `AccountSetup.Ledger.Conclude` | crates/lonewolf-acme/src/issuer/mod.rs:429-451 | Registering succeeds only with credentials for the stored key and this directory, stored with a clear back-off; a refusal stores a floor for its hint and is reported with that floor. |
| `AccountSetup.Ledger.EnsureAccount` | crates/lonewolf-acme/src/issuer/mod.rs:398-452 | Success leaves credentials for the stored key; a stored key is never replaced; a registered account is left alone; any other success has sent the stored key and clears the back-off. |
| `Manager.Load` | crates/lonewolf-acme/src/manager/mod.rs:150-214 | Loading succeeds exactly for names without repetition whose stored records are valid and carry the host's name; the scheduler then starts from these records. |
| `Manager.LoadedMeans` | crates/lonewolf-acme/src/manager/mod.rs:159-214 | A host starts from its stored record or an empty one, with its certificate active exactly if that is valid now. |
| `Manager.Scheduler.constructor` | crates/lonewolf-acme/src/manager/mod.rs:125-228 | The scheduler starts in a valid state whose cached records are the stored ones, with certificates that are valid now active. |
| `Manager.Scheduler.Drive` | crates/lonewolf-acme/src/manager/mod.rs:544-943 | After any number of turns without a fatal error: the jobs are exactly the busy hosts and the account job, at most two; account work excludes readiness; an idle host's cached record is its durable one; every record carries its host's name; attempts are successes plus failures plus the issuance in flight; running issuances started after both floors. Every turn has kept house and started what was due. No older certificate generation is ever activated again. |
| `Manager.Scheduler.Fill` | crates/lonewolf-acme/src/manager/mod.rs:597-690 | Only idle hosts whose time has come get jobs, none is passed over for a later one (by time, then name), and work stops only at two jobs or with nothing due. |
| `Manager.Scheduler.Dispatch` | crates/lonewolf-acme/src/manager/mod.rs:633-690 | While the account is not ready no host job starts, and the account job starts exactly if a host is due, there is room and none is running. |
| `Manager.DueMeans` | crates/lonewolf-acme/src/manager/mod.rs:607-626 | A host is due for an issuance exactly if both floors have passed and the certificate, if it is usable and of the configured profile, has reached its renewal time; for a renewal check exactly if no issuance is due, the certificate is usable, and check time and account floor have passed; the due time is the first such moment. |
| `Manager.EligibleMeans` | crates/lonewolf-acme/src/manager/mod.rs:616-634 | A host is served, or makes the account be checked, exactly if it is idle and one of these jobs may start now. |
| `Manager.LaunchedMeans` | crates/lonewolf-acme/src/manager/mod.rs:648-690 | The job is an issuance exactly if one may start, which is counted as an attempt, and otherwise a check of the host's own certificate; nothing else changes. |
| `Manager.ServedFirst` | crates/lonewolf-acme/src/manager/mod.rs:633 | A host that was served was due no later than any that is still waiting, and comes first by name at the same moment. |
| `Manager.LaunchedOk` | crates/lonewolf-acme/src/manager/mod.rs:347-355 | Giving a due, idle host its job keeps the host's invariant: an issuance starts after the host's and the account's floors and is counted once. |
| `Manager.FilledStep` | crates/lonewolf-acme/src/manager/mod.rs:648-657 | Serving the candidate that sorts first keeps the order of service. |
| `Manager.EarlierIsOrder` | crates/lonewolf-acme/src/manager/mod.rs:633 | Service by due time, then name, is a strict order, and hosts with different names are always ordered one way or the other. |
| `Manager.ServiceIsDetermined` | crates/lonewolf-acme/src/manager/mod.rs:633-655 | Which hosts a round serves is determined by how many it serves: as names are not repeated, there is only one order of service. |
| `Manager.Scheduler.Housekeeping` | crates/lonewolf-acme/src/manager/mod.rs:454-506 | Leaves every host tended: the publication flag belongs to the cached certificate, a published one is active, one valid throughout the pass is published; a host is reported ready only if published. Only a cached certificate that is valid during the pass is activated, and the pass fails only if one had to be. |
| `Manager.Scheduler.Report` | crates/lonewolf-acme/src/manager/mod.rs:483-503 | The reported state is that of the override, or else of the cached certificate now, and never ready without an installed certificate. |
| `Manager.ShownMeans` | crates/lonewolf-acme/src/manager/mod.rs:483-498 | Ready exactly if the certificate is published and valid now, expired exactly if there is one that has run out, for every record; with an override its period decides at the start of the pass. |
| `Manager.IdleHostServesDurable` | crates/lonewolf-acme/src/manager/mod.rs:454-506 | After housekeeping an idle host without override whose certificate is published has its durable certificate active, and one whose certificate is valid is published, whichever attempt stored it and wherever that attempt was cut. |
| `Manager.Scheduler.Storage` | crates/lonewolf-acme/src/manager/mod.rs:508-542 | Any number of housekeeping passes and landing saves during a storage operation change no host's job, cached record or counters and never go back a generation. |
| `Manager.Scheduler.Deliver` | crates/lonewolf-acme/src/manager/mod.rs:725-735 | After a success the override speaks for the committed, active certificate until the record is read back. |
| `Manager.Scheduler.Adopt` | crates/lonewolf-acme/src/manager/mod.rs:747-758 | Reading the record back makes it the cached one, published and active, and ends the override. |
| `Manager.Scheduler.Succeed` | crates/lonewolf-acme/src/manager/mod.rs:725-794 | A success leaves the host idle with its record durable; it is counted as a success; the account's back-off is reset exactly if it is not clear and equals the one at dispatch, and then no account failure was recorded since. |
| `Manager.EqualBackoffIsUnchanged` | crates/lonewolf-acme/src/manager/mod.rs:764-794 | Comparing back-offs has no false positive: dispatch needs the floor to have passed and every failure moves it past all running starts. |
| `Manager.BackoffMeans` | crates/lonewolf-acme/src/manager/mod.rs:827-850 | The account's floor is the least one that keeps the old floor, the base for the new count plus the draw, and the hint; it is refused only if it does not fit or there is no legal draw. |
| `Manager.Scheduler.RecordFailure` | crates/lonewolf-acme/src/manager/mod.rs:815-863 | An account failure adds one, raises the floor to at least a minute past now, the old floor and the hint, and withdraws readiness; the back-off is the one for the shortest cached lifetime. |
| `Manager.Scheduler.Fail` | crates/lonewolf-acme/src/manager/mod.rs:795-865 | A failure leaves the host idle with the record that is durable, which is the one before or one committed since, and caches it; a deferral takes its attempt back and any other failure is counted; only an account failure touches the account; a storage failure is fatal. |
| `Manager.ShortestLifetimeIsLeast` | crates/lonewolf-acme/src/manager/mod.rs:828-832 | The back-off is computed from the shortest lifetime among the cached certificates. |
| `Manager.Scheduler.Renew` | crates/lonewolf-acme/src/manager/mod.rs:868-941 | A renewal check leaves the durable record alone, unless it has an answer about the certificate that the host still has; that answer is applied, at a moment of the call, if the certificate has not expired then. |
| `Manager.StaleAnswerIsIgnored` | crates/lonewolf-acme/src/manager/mod.rs:874-878 | An answer about a certificate that was replaced, or had expired when its check completed, changes nothing. |
| `Manager.CurrentAnswerIsStored` | crates/lonewolf-acme/src/manager/mod.rs:874-937 | An answer about the host's own certificate, handled before it expires, is stored in a valid record with the same certificate and a check at least a minute ahead. |
| `Renewal.AnswersKeepValid` | crates/lonewolf-acme/src/manager/mod.rs:868-937 | Every answer keeps the record valid and the certificate untouched, with the next check at least a minute ahead and not before a hint; a window is accepted exactly if well formed and ending by expiry, an unchanged one keeps its second, a malformed one restores the fallback, a failed check keeps the schedule. |
| `Renewal.NextCheck` | crates/lonewolf-acme/src/manager/mod.rs:878-928 | The next check comes after the CA's delay but not within a minute, after half a day for a rejected or superseded window, and after a failure at the first second past the back-off (60, 600, 6000, then 43200 seconds if temporary) and the hint. |
| `Renewal.AnswerIsRefused` | crates/lonewolf-acme/src/manager/mod.rs:878-928 | An answer is refused exactly if its check or hint cannot be represented or a new window gets no legal draw. |
| `Renewal.AcceptedSecondIsInside` | crates/lonewolf-acme/src/issuer/mod.rs:1460-1464 | An accepted window renews at a whole second inside the CA's fractional window (section 4.2 of RFC 9773). |
| `Schedule.WindowAccepted` | crates/lonewolf-acme/src/schedule/mod.rs:102-135 | A window is applied exactly when it is well formed and has an old or a legal new selection; the selection lies inside the fractional window, is the renewal time, is the start plus the draw for a new window, and survives the same window. |
| `Schedule.Uniform` | crates/lonewolf-acme/src/issuer/mod.rs:198-209 | The draw used is the first accepted one and the result is its remainder; a full-range maximum is refused. |
| `Schedule.Unbiased` | crates/lonewolf-acme/src/schedule/mod.rs:27-38 | For every maximum below 2^64 - 1 each result comes from exactly floor(2^64 / (maximum + 1)) accepted draws. |
| `Schedule.SplitIsTwoThirds` | crates/lonewolf-acme/src/schedule/mod.rs:40-66 | The overflow-free split form equals floor(2L/3). |
| `Schedule.FallbackInsidePeriod` | crates/lonewolf-acme/src/schedule/mod.rs:40-66 | The fallback is computed exactly on a valid period with a legal draw, and lies in the period. |
| `Schedule.RetryBaseValues` | crates/lonewolf-acme/src/schedule/mod.rs:68-76 | 60, 600 and 6000 seconds; from the fourth failure on a day, or a 24th of the lifetime within 6000 and 86400 seconds. |
| `Schedule.AriDelayValues` | crates/lonewolf-acme/src/schedule/mod.rs:90-100 | Failed checks wait 60, 600, 6000 and then 43200 seconds if temporary, and 43200 otherwise. |
| `Schedule.WindowSecondIsLeast` | crates/lonewolf-acme/src/issuer/mod.rs:1460-1464 | The second is the least one at or after the moment, and missing only if the moment is before the epoch or does not fit. |
| `Schedule.RetryBaseMonotone` | crates/lonewolf-acme/src/schedule/mod.rs:68-76 | Retry bases never decrease as failures grow from one. |
| `Schedule.TenRetriesFit` | crates/lonewolf-acme/src/schedule/mod.rs:68-88 | Ten immediate retries after the fallback fit before expiry for every jitter if and only if the lifetime is at least 107053 seconds. |
| `Admission.CountersStep` | crates/lonewolf-acme/src/store/mod.rs:308-335 | Every step keeps the counter equal to the number of live operations and the number of running ones within the workers. |
| `Admission.DrainsStep` | crates/lonewolf-acme/src/store/mod.rs:280-306 | Every step keeps: while something is active all unfinished drains are listed, afterwards every sleeping one has a wake coming. |
| `Admission.CounterIsExact` | crates/lonewolf-acme/src/store/mod.rs:57-73 | In every interleaving the counter is the number of live operations. |
| `Admission.LeavingNeverUnderflows` | crates/lonewolf-acme/src/transport/mod.rs:67-83 | An operation is dropped only while it is counted. |
| `Admission.StaysClosed` | crates/lonewolf-acme/src/transport/mod.rs:154-164 | Closing and uncertainty are permanent. |
| `Admission.CompletedDrainIsFinal` | crates/lonewolf-acme/src/store/mod.rs:280-306 | A drain that completes leaves nothing active, then and ever after, and every later admission is refused as closed. |
| `Admission.NoDrainLeftAsleep` | crates/lonewolf-acme/src/transport/mod.rs:124-152 | With nothing active, a sleeping drain has a wake on its way that will wake it. |
| `Admission.PollCompletes` | crates/lonewolf-acme/src/transport/mod.rs:124-152 | A drain polled with nothing active completes. |
| `Admission.NothingAfterUncertainty` | crates/lonewolf-acme/src/store/mod.rs:385-408 | After a commit of unknown outcome no mutation runs or is admitted, not even one that was queued already. |
| `Admission.AtMostTwoRequests` | crates/lonewolf-acme/src/transport/mod.rs:154-164 | The transport never has more than two requests at once, and while open it refuses one as unavailable exactly if two are live. |
| `Admission.Lock.Enter` | crates/lonewolf-acme/src/store/mod.rs:308-325 | Admission under the lock: refused when closed, uncertain (for mutations) or full, counted otherwise. |
| `Admission.Lock.Leave` | crates/lonewolf-acme/src/store/mod.rs:57-73 | Dropping an operation counts down, and the last one takes the waiters off the record. |
| `Admission.Lock.Drain` | crates/lonewolf-acme/src/store/mod.rs:280-306 | A drain closes admission and waits only if something is active. |
| `ChallengeRegistry.Challenges.Publish` | crates/lonewolf-acme/src/challenge/mod.rs:82-121 | Takes a free slot for a well-formed response within the 64 places, and otherwise reports the first reason in the code's order and changes nothing. |
| `ChallengeRegistry.RefusalMeans` | crates/lonewolf-acme/src/challenge/mod.rs:82-110 | A response is refused unless the token has 22 to 256 base64url characters, the authorization is the token, a dot and 43 such characters, the host is configured and free, and there is room; the first failing test is reported. |
| `ChallengeRegistry.Challenges.Clear` | crates/lonewolf-acme/src/challenge/mod.rs:123-129 | Empties every slot and the counter. |
| `ChallengeRegistry.Challenges.DropLease` | crates/lonewolf-acme/src/challenge/mod.rs:143-155 | Frees the slot only if it still holds this lease's own entry. |
| `ChallengeRegistry.Challenges.Lookup` | crates/lonewolf-acme/src/challenge/mod.rs:131-140 | Returns exactly the authorization of the one publication for that host and token that was neither cleared nor dropped. |
| `ChallengeRegistry.LowerMeans` | crates/lonewolf-acme/src/challenge/mod.rs:131-140 | Names are the same to a look-up exactly if they differ in the case of ASCII letters only. |
| `ChallengeRegistry.PublishKeeps` | crates/lonewolf-acme/src/challenge/mod.rs:82-121 | Publishing keeps the counter equal to the occupied slots, within 64, and the slots equal to the live publications. |
| `ChallengeRegistry.DropKeeps` | crates/lonewolf-acme/src/challenge/mod.rs:143-155 | Dropping any lease, stale or not, keeps the same, and the counter never underflows. |
| `ChallengeRegistry.LiveIsUnique` | crates/lonewolf-acme/src/challenge/mod.rs:20-30 | At most one publication of a host is live. |
| `ChallengeRegistry.StaleLeaseIsHarmless` | crates/lonewolf-acme/src/challenge/mod.rs:143-155 | A lease from before a clear never ends a later publication. |
| `ChallengeRegistry.Configure` | crates/lonewolf-acme/src/challenge/mod.rs:63-80 | A registry is made exactly for valid DNS names without repetition, with one empty slot each. |
| `ChallengeRegistry.ValidDnsMeans` | crates/lonewolf-acme/src/types/mod.rs:314-334 | A name is valid exactly if it is its own strict IDNA form, no address, at most 253 characters, not under localhost, and at least two labels of 1 to 63 letters, digits and inner hyphens joined by dots. |
| `ChallengeRegistry.LabelsOfJoin` | crates/lonewolf-acme/src/types/mod.rs:321-330 | Splitting a name at its dots undoes joining labels. |
| `Http01.HeardMeans` | crates/lonewolf-acme/src/http/mod.rs:230-242 | Exactly the endpoints whose wait ended well stop waiting and queue behind those that were queued before. |
| `Http01.Acceptor.AcceptOne` | crates/lonewolf-acme/src/http/mod.rs:243-280 | One accept keeps every endpoint in exactly one of queue and waiting set, permits equal to live connections, fixes a new connection's deadline, and sends the endpoint to the back of the queue, or to wait after an error that is not an interruption or a lost connection. |
| `Http01.Acceptor.AcceptReady` | crates/lonewolf-acme/src/http/mod.rs:228-280 | At capacity nothing is accepted and readiness is kept; otherwise it stops only with an empty queue, at capacity or at 64 units of work. |
| `Http01.Acceptor.Poll` | crates/lonewolf-acme/src/http/mod.rs:201-288 | One poll keeps the partition and at most 32 permits, does at most 64 units of work, drops exactly the finished connections, never changes a connection's deadline, keeps readiness at capacity, and sleeps only with nothing it could accept. |
| `Http01.Acceptor.Serve` | crates/lonewolf-acme/src/http/mod.rs:201-288 | Over any number of polls a connection that is still alive has the deadline it was given at accept, and no number is given twice. |
| `Http01.RequestLineObserver.Read` | crates/lonewolf-acme/src/http/mod.rs:422-447 | A read advances the observer by exactly its bytes. |
| `Http01.FoldConcat` | crates/lonewolf-acme/src/http/mod.rs:422-447 | How the bytes are split into reads does not matter. |
| `Http01.FragmentMeaning` | crates/lonewolf-acme/src/http/mod.rs:415-447 | The fragment flag is set exactly when the request line contains a fragment mark. |
| `Observations.SnapshotOrigin` | crates/lonewolf-acme/src/issuer/mod.rs:973-1083 | Order metadata comes only from the response to a POST to the armed target sent after that arm, however late other responses arrive. |
| `Observations.TerminalIsJustified` | crates/lonewolf-acme/src/issuer/mod.rs:1439-1458 | In every interleaving, a failure declares an order finished only if the latest request of the current operation was a POST to that order answered 404 or 410. |
| `Observations.TerminalExactly` | crates/lonewolf-acme/src/issuer/mod.rs:984-1026 | A recorded 404 or 410 speaks of the armed order if and only if some request was sent since the last arm. |
| `Observations.ArmKeepsStatus` | crates/lonewolf-acme/src/issuer/mod.rs:1156-1164 | Arming alone does not clear the status of the operation before; no failure that can happen then turns it into a verdict. |
| `Observations.Observer.OrderStep` | crates/lonewolf-acme/src/issuer/mod.rs:1295-1306 | A step on the order resource arms with no status recorded, whatever answers to older requests arrive meanwhile; a terminal verdict rests on a request of that very step. |
| `Observations.HintIsMaximum` | crates/lonewolf-acme/src/transport/mod.rs:317-329 | The retry hint is the greatest deadline over requests begun since the last reset, and absent exactly without any. |
| `Observations.Observer.SendRequest` | crates/lonewolf-acme/src/issuer/mod.rs:973-1010 | A request takes the current operation with it and clears the status before it is answered. |
| `Observations.RetryContext.CaptureRetry` | crates/lonewolf-acme/src/transport/mod.rs:317-329 | Each deadline of a response can only raise the hint of the cell the request began with. |
| `TokenBuckets.TokenBucket.Replenish` | crates/lonewolf-util/src/token_bucket.rs:28-43 | The saturating code computes exactly the unbounded bucket, also after the rate or burst has changed. |
| `TokenBuckets.RefillMatches` | crates/lonewolf-util/src/token_bucket.rs:28-43 | Saturation at 64 and 128 bits never changes the result. |
| `TokenBuckets.BackwardTime` | crates/lonewolf-util/src/token_bucket.rs:28-43 | Time that goes backwards changes nothing. |
| `TokenBuckets.SplitInterval` | crates/lonewolf-util/src/token_bucket.rs:28-43 | Refilling at any moment in between gives the same bucket. |
| `TokenBuckets.RefillDelayIsLeast` | crates/lonewolf-util/src/token_bucket.rs:58-66 | Below the burst a wait yields a new token if and only if it is at least the refill delay. |
| `TokenBuckets.TokenBucket.RefillDelay` | crates/lonewolf-util/src/token_bucket.rs:58-66 | The method returns that least wait, which is between one nanosecond and one second. |
| `TokenBuckets.CreditIsConserved` | crates/lonewolf-util/src/token_bucket.rs:28-56 | Over every run, what was used and what is left never exceed the first burst plus the accrued credit. |
| `TokenBuckets.ConsumptionBound` | crates/lonewolf-util/src/token_bucket.rs:51-56 | Total consumption by any moment is at most burst + floor(rate x elapsed). |
| `Paging.List` | crates/lonewolf-admin/src/api.rs:255-288 | From one extra key the reply is the first `limit` keys beyond the cursor, with a cursor exactly if more follow. |
| `Paging.ListParameters` | crates/lonewolf-admin/src/api.rs:411-435 | A query is accepted exactly if each parameter is known, well formed and given once; the limit is 1 to 100. |
| `Paging.ListAccounts` | crates/lonewolfctl/src/main.rs:143-208 | With honest pages from a store that changes in between: never rejected, strictly increasing, every account present throughout exactly once (up to the limit), and it ends if finitely many accounts ever exist. |
| `Paging.Follow` | crates/lonewolfctl/src/main.rs:156-202 | Whatever the server answers: each request goes on from the reply before and asks for what is missing, what was accepted is printed, and the listing stops exactly at a missing, malformed, last or sufficient reply. |
| `Paging.FollowedIsFaithful` | crates/lonewolfctl/src/main.rs:156-202 | A client that does so lists faithfully, for every store history. |
| `Paging.FixedStoreListing` | crates/lonewolfctl/src/main.rs:143-208 | On a fixed store a limited listing prints exactly the first `limit` accounts. |
| `Paging.PageExtends` | crates/lonewolfctl/src/main.rs:173-202 | One honest page extends an honest listing, whatever happened to the store since the page before. |
| `Paging.PageIsUnique` | crates/lonewolf-admin/src/api.rs:255-266 | There is only one page for a store, a cursor and a count. |

## Left out

- Cryptography, X.509, DER, base64, JSON and the record codecs: keys, CSRs, chains, URLs, profiles and certificate identifiers are opaque values with equality.
- TLS, sockets, the resolver pool, the HTTP client connector, `Http01Server::bind`, HTTP responses and host-header parsing: input and output.
- `StateStore::open`, database tables and file modes: the store is a record whose commit succeeds, fails, or is uncertain.
- Of `StoredHost::validate` only the checks on the certificate's schedule are modelled; URL, profile and size checks would add easy members.
- The XMPP core, account creation and deletion, extensions, policies, metrics, logging, event counters and command-line parsing.
- Percent encoding and JID parsing: account keys are strings in string order.
- Manager.Scheduler.Drive: assumes a clock that never goes back, as the property on resets needs; failures are counted in one total rather than by kind; the wake-up time of the loop is arbitrary; an aborted renewal check may end at any time; shutdown is the end after any number of turns.
- Attempts.Driver.CheckAccount: the account record is a parameter, not tied to the log of the account registration.
- Attempts.Driver.Challenge: the CA chooses the authorization and challenge objects freely; token and key-authorization formats are checked in the challenge registry only.
- Http01.Acceptor.Serve: the one-second retry delay after resource errors is part of the environment that decides when an endpoint becomes ready again.
- ChallengeRegistry.Configure: the strict IDNA mapping and the parser of IP addresses are parameters, and the mapping is assumed to yield lower-case names.
- Admission.Lock.Drain: the deadline of a drain is the environment's choice to drop the waiting drain.
