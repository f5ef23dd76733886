# Browser SDK session store, configuration and error formatting — a Dafny model

This project models the core of a browser SDK's session handling, plus four small pure pieces
around it.

The session handling has three parts:

- **The session cookie codec.** A session record is a flat string map. It is written to the
  `_dd_s` cookie as `key=value` entries joined by `&`. Reading keeps only the entries that match
  `^[a-z]+=[a-z0-9-]+$`.
- **`persistSession` and the cookie lock protocol `withCookieLockAccess`.** Tabs take an
  advisory lock on the cookie: read, mint a token, write, read back, run `process`, read back,
  persist, read back, strip the lock, then run `after`. A mismatch at any of the four checks
  postpones the attempt.
- **The per-tab session store.** It keeps a cache of the session. It reconciles that cache
  against the cookie, and fires renew and expire events. Its three entry points are
  `expandOrRenewSession`, `expandSession` and `watchSession`.

The four small pieces are:

- validation of the init configuration and derivation of the cookie options;
- the classification of failed XHR and fetch requests into network errors, and their payload;
- the messages and stacks of browser reports and CSP violations;
- the api partitioning of `initReportObservable`.

Modules, in dependency order:

| file | module | what it holds |
|---|---|---|
| `text.dfy` | `Text` | `Option`, JavaScript truthiness, `split`/`join`, decimal printing and `Number()` |
| `sessions.dfy` | `Sessions` | session records (insertion-ordered string maps), the two delays, `isActiveSession` |
| `session_codec.dfy` | `SessionCodec` | `toSessionString`, `retrieveSession`, `isValidSessionString`, the round trip |
| `session_cookie_store.dfy` | `SessionCookieStore` | `persistSession`, `clearSession`, `withCookieLockAccess` with peer writes |
| `session_store.dfy` | `SessionStore` | the tab's store and its three entry points |
| `configuration.dfy` | `Configuration` | `validateAndBuildConfiguration`, `buildCookieOptions`, `mustUseSecureCookie` |
| `track_network_error.dfy` | `TrackNetworkError` | `handleCompleteRequest` and its helpers |
| `report_observable.dfy` | `ReportObservable` | report messages and stacks, and the api partitioning |

How the environment is represented:

- **The cookie** is a cell of type `Option<string>`. `None` means there is no cookie: it is
  absent, or it was cleared with an empty value and lifetime 0. Every write goes through the
  codec.
- **Other tabs** may overwrite the cookie just before and just after each of the four reads
  of one attempt. This is a `PeerWrite`: `Quiet`, or `Overwrite(seen, left)`, where `seen` is
  what the read returns and `left` is what the cell holds afterwards.
- **Each attempt's inputs** come from an `AttemptEnv`. Its `Entropy` carries `Date.now()`,
  the lock token and the session id, standing in for the clock and `generateUUID()`. It also
  carries the peers' writes.
- **The `'cookie-lock'` experimental flag** is the boolean `lockEnabled`.
- **A postponement** is an outcome, `Postponed(checkpoint)`. A retry is the next `AttemptEnv`
  of a finite schedule, not a timer.
- **The `process` and `after` callbacks** are function values over a caller context. For the
  session store that context is the tab's `Tab` record:
  - the cache;
  - counters of renew and expire notifications;
  - the log of "Session inconsistencies detected" messages;
  - the `isTracked` variable shared by the two closures of `expandOrRenewSession`.
- **Aliasing of the cached record.** In the original, `synchronizeSession` can store the very
  object that `process` returns as the cache. `expandOrRenewCookie` and `persistSession` then
  mutate that object in place, so the cache changes too. The `cacheIsProcessed` flag tracks
  whether the cache is that object. A `settle` step gives the cache the processed object's
  final value at the end of each attempt.

Behaviour of the code that the proofs make explicit:

- With the lock enabled, `expandOrRenewSession` on an inactive cookie postpones at the
  post-persist check. Its `process` returns a new record built from `{}` (the tracking
  type, and a new id and `created` when tracked), which carries no lock
  (`SessionStore.LockedRenewalPostpones`). The cookie has already been rewritten without the
  lock at that point. A missing cookie does not take this path: it decodes to `{}`, which has
  no timestamps and so is active, and the locked record it is given keeps its lock.
- When a cached session without an `id` expires, the id comparison finds both ids undefined.
  The product key comparison then logs a "different tracking type" inconsistency
  (`SessionStore.UntrackedExpiryReportsTrackingType`).
- The `isValidSessionString` gate never changes what `retrieveSession` returns for a defined
  cookie (`SessionCodec.GateIsRedundant`).

## Model

Source paths are relative to the repository root.

| member | source | states |
|---|---|---|
| Text.IndexOf | packages/core/src/domain/session/sessionCookieStore.ts:101-103 | finds the first `=` of a segment, where the anchored entry pattern must split it, or none when there is no `=` |
| Text.Split | packages/core/src/domain/session/sessionCookieStore.ts:100 | `split` yields at least one piece, and no piece contains the separator |
| Text.SplitJoin | packages/core/src/domain/session/sessionCookieStore.ts:89-100 | splitting the join of separator-free pieces gives the pieces back |
| Text.JoinSplit | packages/core/src/domain/session/sessionCookieStore.ts:89-100 | joining the pieces of a split gives the string back |
| Text.NatToStringValue | packages/core/src/domain/session/sessionCookieStore.ts:81 | the decimal text of `String(n)` has value n |
| Text.ParseIntToString | packages/core/src/domain/session/sessionStore.ts:155-156 | `Number(String(n)) == n` for every integer, so stamped timestamps read back exactly |
| Sessions.Set | packages/core/src/domain/session/sessionStore.ts:94-97 | a property write sets that key, keeps every other key, keeps keys unique, appends a new key last, and on a record with unique keys replaces an existing key in its place, leaving every other entry where it was |
| Sessions.Remove | packages/core/src/domain/session/sessionCookieStore.ts:59 | `delete` removes the key and keeps every other key |
| Sessions.RemoveAfterSet | packages/core/src/domain/session/sessionCookieStore.ts:30-59 | adding the lock and deleting it again restores a record that had no lock |
| Sessions.InactiveStaysInactive | packages/core/src/domain/session/sessionStore.ts:151-158 | once inactive, a record stays inactive at every later time |
| Sessions.ActiveWindow | packages/core/src/domain/session/sessionStore.ts:151-158 | with both timestamps stamped as decimal numbers, a record is active iff now < created + 4 h and now < expire |
| Text.ParseNumber | packages/core/src/domain/session/sessionStore.ts:155-156 | `Number()` of a timestamp: no contract of its own; `Text.ParseIntToString` shows it reads back every printed integer |
| Sessions.IsActiveSession | packages/core/src/domain/session/sessionStore.ts:151-158 | definition: a missing `created` or `expire` never ends a session, and a present one must read as a number that is in range; its properties are `Sessions.ActiveWindow`, `Sessions.InactiveStaysInactive` and `Sessions.MissingTimestampsStayActive` |
| Sessions.MissingTimestampsStayActive | packages/core/src/domain/session/sessionStore.ts:152-156 | a record with neither `created` nor `expire` is always active |
| SessionCodec.Encode | packages/core/src/domain/session/sessionCookieStore.ts:89-94 | the encoding is empty exactly for the empty record |
| SessionCodec.ParseEntry | packages/core/src/domain/session/sessionCookieStore.ts:101-104 | an accepted segment yields a `[a-z]+` key and a `[a-z0-9-]+` value whose `key=value` text is the segment; `SessionCodec.ParseEntryIff` gives the converse |
| SessionCodec.IsValidSessionString | packages/core/src/domain/session/sessionCookieStore.ts:111-116 | definition: a defined string that holds `&` or is a single entry; `SessionCodec.GateIsRedundant` shows the gate never changes a defined cookie's decoding |
| SessionCodec.ParseEntryIff | packages/core/src/domain/session/sessionCookieStore.ts:100-106 | a segment parses to (k, v) iff k is `[a-z]+`, v is `[a-z0-9-]+` and the segment is `k=v` |
| SessionCodec.Decode | packages/core/src/domain/session/sessionCookieStore.ts:96-109 | decoding never fails, and always yields unique keys and values the pattern accepts |
| SessionCodec.DecodeLastMatchWins | packages/core/src/domain/session/sessionCookieStore.ts:100-106 | each key's decoded value is its last matching segment's value |
| SessionCodec.GateIsRedundant | packages/core/src/domain/session/sessionCookieStore.ts:99-116 | for a defined cookie, the `isValidSessionString` gate does not change the decoded record |
| SessionCodec.GarbageDecodesEmpty | packages/core/src/domain/session/sessionCookieStore.ts:96-116 | a missing cookie, or text with no `&` and no valid entry, decodes to `{}` |
| SessionCodec.EncodeSegments | packages/core/src/domain/session/sessionCookieStore.ts:89-100 | splitting an encoded non-empty record on `&` gives back its entry texts |
| SessionCodec.RoundTrip | packages/core/src/domain/session/sessionCookieStore.ts:89-109 | decode(encode(s)) == s, including order, for every record with unique `[a-z]+` keys and `[a-z0-9-]+` values |
| SessionCodec.SetWireSafe | packages/core/src/domain/session/sessionStore.ts:94-97 | writing a valid key and value keeps a record encodable |
| SessionCodec.NumberIsValue | packages/core/src/domain/session/sessionCookieStore.ts:81 | a stamped timestamp is a valid cookie value |
| SessionCookieStore.PersistSession | packages/core/src/domain/session/sessionCookieStore.ts:76-120 | an empty record clears the cookie; otherwise `expire` becomes now + 15 min, every other field is unchanged, and the cookie decodes to the stamped record |
| SessionCookieStore.TryAccess | packages/core/src/domain/session/sessionCookieStore.ts:19-65 | one attempt: with the lock off it always completes; a completed attempt ran `process`; a postponement at the first two checks leaves the context as it was and never ran `process`; under the lock, `process` only sees this attempt's token |
| SessionCookieStore.RunAttempts | packages/core/src/domain/session/sessionCookieStore.ts:19-74 | the retry loop: a run ends with a record exactly at its first completing attempt, all earlier ones having postponed, leaving the cookie and context that attempt left; a run with no completing attempt tries the whole schedule |
| SessionCookieStore.WithCookieLockAccess | packages/core/src/domain/session/sessionCookieStore.ts:19-74 | the retry loop over `TryAccess` attempts with the same flag and callbacks; at most one attempt per schedule entry, and a run that never completes postponed every attempt |
| SessionCookieStore.PostponedBeforeIff | packages/core/src/domain/session/sessionCookieStore.ts:67-73 | "the first n attempts postpone", stated along the run's recursion, is the same as attempt j postponing for each j < n |
| SessionCookieStore.FirstCompletionEndsRun | packages/core/src/domain/session/sessionCookieStore.ts:19-74 | if attempt k completes after k postponements, the run makes k + 1 attempts and ends with attempt k's record, cookie and context |
| SessionCookieStore.RunCompletesIff | packages/core/src/domain/session/sessionCookieStore.ts:19-74 | a run ends with a record iff some attempt of it completes |
| SessionCookieStore.UnlockedAccess | packages/core/src/domain/session/sessionCookieStore.ts:39-64 | lock disabled: `process` gets the decoded cookie, and the run completes. An undefined result leaves the cookie and passes the read record to `after`. `{}` clears it. Any other result is persisted with `expire` |
| SessionCookieStore.HeldLockPostpones | packages/core/src/domain/session/sessionCookieStore.ts:24-27 | a lock already in the read record postpones before any `process` or write |
| SessionCookieStore.ProcessOnlyUnderOwnLock | packages/core/src/domain/session/sessionCookieStore.ts:29-39 | `process` only runs when the read-back record's lock is this attempt's token |
| SessionCookieStore.QuietAcquisitionRunsProcess | packages/core/src/domain/session/sessionCookieStore.ts:29-39 | an unlocked cookie with no peer write at acquisition reaches `process` with the token added |
| SessionCookieStore.AfterOnlyOnCompletion | packages/core/src/domain/session/sessionCookieStore.ts:40-64 | `after` runs exactly on a completed attempt, and only after `process` |
| SessionCookieStore.LockedCompletionReleases | packages/core/src/domain/session/sessionCookieStore.ts:51-64 | lock enabled: a completed attempt leaves a cookie without a lock, and `after` gets exactly that cookie's record |
| SessionCookieStore.DroppedLockPostpones | packages/core/src/domain/session/sessionCookieStore.ts:29-58 | once the lock is acquired, a non-empty `process` result without the lock postpones, and `after` does not run |
| SessionCookieStore.LockLostAfterProcess | packages/core/src/domain/session/sessionCookieStore.ts:39-46 | once the lock is held, a lock other than this tab's read after `process` postpones at that check and leaves the peer's cookie |
| SessionCookieStore.LockLostAfterPersist | packages/core/src/domain/session/sessionCookieStore.ts:48-58 | a non-empty record persisted under the lock, then read back with another lock, postpones at the post-persist check without running `after` |
| SessionCookieStore.QuietLockedAccess | packages/core/src/domain/session/sessionCookieStore.spec.ts:110-143 | lock enabled and no peers: each of the three kinds of `process` result, and the unlocked cookie it leaves |
| SessionCookieStore.ConflictPostpones | packages/core/src/domain/session/sessionCookieStore.spec.ts:144-197 | a peer's lock seen at any of the four checks postpones at that check and leaves the peer's cookie |
| SessionCookieStore.ConflictThenRetry | packages/core/src/domain/session/sessionCookieStore.spec.ts:144-197 | after a conflict at any check, the retry processes the peer's record and the final cookie holds the peer's and the processed fields, without a lock |
| SessionStore.ActiveOrEmpty | packages/core/src/domain/session/sessionStore.ts:79-81 | an active record is kept as is, and any other record becomes `{}` |
| SessionStore.RetrieveActiveSession | packages/core/src/domain/session/sessionStore.ts:143-149 | the decoded cookie when it is active, `{}` otherwise, and always a record the codec can write |
| SessionStore.StartSessionStore | packages/core/src/domain/session/sessionStore.ts:43 | a new store's cache is the decoded cookie when that is active and `{}` otherwise, with no events and no monitoring messages yet |
| SessionStore.HasSessionInCache | packages/core/src/domain/session/sessionStore.ts:102-104 | definition: the product's key is present in the cache |
| SessionStore.ExpireSession | packages/core/src/domain/session/sessionStore.ts:133-136 | definition: the cache becomes `{}` and one expire notification is counted; `SessionStore.SynchronizeSession` states when it happens |
| SessionStore.RenewSession | packages/core/src/domain/session/sessionStore.ts:138-141 | definition: the cache becomes the record and one renew notification is counted; `SessionStore.ExpandOrRenewEvents` states when it happens |
| SessionStore.IsSessionInCacheOutdated | packages/core/src/domain/session/sessionStore.ts:106-120 | outdated iff the cache and the record differ in id or in tracking type; only the monitoring log changes, by at most one message appended |
| SessionStore.SynchronizeSession | packages/core/src/domain/session/sessionStore.ts:78-136 | an inactive cookie reads as `{}`. Without a cached session nothing changes. With one, a differing id or tracking type expires the cache once; otherwise the cache adopts the record |
| SessionStore.InconsistencyLogged | packages/core/src/domain/session/sessionStore.ts:106-131 | "different id" is logged iff the cookie has an id and the cached session is still active; "different tracking type" iff the ids agree and the tracking types differ; nothing otherwise |
| SessionStore.UntrackedExpiryReportsTrackingType | packages/core/src/domain/session/sessionStore.ts:78-118 | an expiring cached session without an id expires the cache and logs "different tracking type" |
| SessionStore.ExpandOrRenewCookie | packages/core/src/domain/session/sessionStore.ts:92-100 | the tracking type is always written; `id` and `created = now` are minted only when tracked and the id is missing; every other field is unchanged |
| SessionStore.ExpandOrRenewProcess | packages/core/src/domain/session/sessionStore.ts:49-53 | definition of the `process` closure: synchronise, then expand; its effect is stated by `SessionStore.ExpandOrRenewEvents` and the run lemmas below |
| SessionStore.ExpandOrRenewAfter | packages/core/src/domain/session/sessionStore.ts:54-59 | definition of the `after` closure: a tracked session with nothing cached renews, and the cache becomes the final record; stated by `SessionStore.ExpandOrRenewEvents` |
| SessionStore.ExpandProcess | packages/core/src/domain/session/sessionStore.ts:66 | definition of `expandSession`'s `process`: synchronise only when a session is cached; stated by `SessionStore.ExpandSessionNeverCreates` and `SessionStore.ExpandSessionUnlocked` |
| SessionStore.WatchProcess | packages/core/src/domain/session/sessionStore.ts:73 | definition of `watchSession`'s `process`: `{}` for an inactive record, nothing otherwise; stated by `SessionStore.WatchSessionUnlocked` and `SessionStore.WatchSessionLocked` |
| SessionStore.WatchAfter | packages/core/src/domain/session/sessionStore.ts:74 | definition of `watchSession`'s `after`: `synchronizeSession`; stated by `SessionStore.WatchSessionUnlocked` |
| SessionStore.ExpandedRecordFacts | packages/core/src/domain/session/sessionStore.ts:49-53 | the record `expandOrRenewSession` persists has the tracking type, a fresh `expire`, and a kept or minted `id` and `created` |
| SessionStore.ExpandedRecordIsActive | packages/core/src/domain/session/sessionStore.ts:49-53 | that record is active |
| SessionStore.ExpandedRecordWireSafe | packages/core/src/domain/session/sessionStore.ts:49-53 | that record survives the cookie codec |
| SessionStore.ExpandOrRenewEvents | packages/core/src/domain/session/sessionStore.ts:45-61 | renew fires iff tracked and no session is cached by the time `after` runs; expire fires iff the cached session diverged; the cache ends equal to the record given to `after` |
| SessionStore.ExpandOrRenewUnlocked | packages/core/src/domain/session/sessionStore.ts:45-61 | lock disabled: the cookie and the final record are the synchronised, expanded record, stamped with `expire`, in one attempt |
| SessionStore.FreshTabRenews | packages/core/src/domain/session/sessionStore.ts:43-61 | a new tab with no cookie, tracked: one renew, no expire, and a cached active session with the minted id, `created` and `expire` that matches the cookie |
| SessionStore.ExpandOrRenewLocked | packages/core/src/domain/session/sessionStore.ts:45-61 | lock enabled, active cookie, no peers: completes in one attempt with the expanded record minus the lock |
| SessionStore.LockedRenewalPostpones | packages/core/src/domain/session/sessionStore.ts:49-53 | lock enabled, inactive cookie: the attempt postpones at the post-persist check |
| SessionStore.LockedExpansionKeepsLock | packages/core/src/domain/session/sessionStore.ts:92-100 | expanding a locked record keeps its lock |
| SessionStore.ExpandSessionNeverCreates | packages/core/src/domain/session/sessionStore.ts:63-68 | without a cached session, `expandSession` leaves the tab unchanged on any schedule and lock setting; with the lock off it does not write the cookie (with the lock on, the lock is still written and released) |
| SessionStore.ExpandSessionRun | packages/core/src/domain/session/sessionStore.ts:63-68 | with a cached session, `expandSession` persists the synchronised record |
| SessionStore.ExpandSessionUnlocked | packages/core/src/domain/session/sessionStore.ts:63-90 | with a cached session: never a renew. A diverged cookie expires the cache; otherwise the cache keeps its id and tracking type and gets the fresh `expire` |
| SessionStore.WatchSessionUnlocked | packages/core/src/domain/session/sessionStore.ts:70-76 | an inactive cookie is cleared and an active one is not written; `after` synchronises the cache with the record read |
| SessionStore.CrossTabRenewalDetected | packages/core/src/domain/session/sessionStore.ts:70-113 | a cookie renewed by another tab expires this tab's cache once and logs "different id" |
| SessionStore.WatchSessionLocked | packages/core/src/domain/session/sessionStore.ts:70-76 | lock enabled: an inactive cookie is cleared, and an active one reads back unchanged |
| Configuration.BuildCookieOptions | packages/core/src/domain/configuration/configuration.ts:128-143 | `secure` iff secure or cross-site cookies are asked for; `crossSite` iff cross-site; `domain` is the current site iff subdomains are tracked |
| Configuration.ValidateAndBuildConfiguration | packages/core/src/domain/configuration/configuration.ts:73-126 | rejected iff the client token is missing or empty, or a given sample rate is not a percentage. Otherwise the sample rate defaults to 100 and the fixed limits apply |
| Configuration.AcceptedIffValid | packages/core/src/domain/configuration/configuration.ts:77-85 | accepted iff there is a client token and the sample rate is absent or a percentage |
| Configuration.CrossSiteCookieIsSecure | packages/core/src/domain/configuration/configuration.ts:131-143 | a cross-site cookie is always secure |
| Configuration.SiteOnlyAffectsDomain | packages/core/src/domain/configuration/configuration.ts:134-136 | the current site changes nothing but the cookie domain |
| TrackNetworkError.IsRejected | packages/logs/src/domain/trackNetworkError.ts:41-43 | definition: status 0 and not an opaque response; `TrackNetworkError.OpaqueResponseIsNoError` is its opaque case |
| TrackNetworkError.IsServerError | packages/logs/src/domain/trackNetworkError.ts:45-47 | definition: status 500 or above; `TrackNetworkError.NoErrorBelowServerErrors` is its complement |
| TrackNetworkError.Format | packages/logs/src/domain/trackNetworkError.ts:56-61 | definition: `XHR` or `Fetch`; `TrackNetworkError.FormatNamesXhrOnly` states it |
| TrackNetworkError.TruncateResponseText | packages/logs/src/domain/trackNetworkError.ts:49-54 | a text longer than the limit becomes its first `limit` characters and `...`; any other text is returned as is |
| TrackNetworkError.TruncateIdempotent | packages/logs/src/domain/trackNetworkError.ts:49-54 | truncating twice is truncating once |
| TrackNetworkError.HandleCompleteRequest | packages/logs/src/domain/trackNetworkError.ts:17-31 | an error iff the URL is not an intake URL and the request was rejected or got a server error; message `<XHR or Fetch> error <method> <url>`; the resource copies method, status and url |
| TrackNetworkError.StackFallsBackOnlyWithoutText | packages/logs/src/domain/trackNetworkError.ts:27-54 | the stack is `Failed to load` exactly when the response text is missing or empty, and the truncated text otherwise |
| TrackNetworkError.NoErrorBelowServerErrors | packages/logs/src/domain/trackNetworkError.ts:18-47 | a response with a status from 1 to 499 never produces an error |
| TrackNetworkError.OpaqueResponseIsNoError | packages/logs/src/domain/trackNetworkError.ts:41-43 | an opaque response with status 0 is not an error |
| TrackNetworkError.FormatNamesXhrOnly | packages/logs/src/domain/trackNetworkError.ts:56-61 | `format` is `XHR` only for XHR |
| ReportObservable.BuildStack | packages/core/src/domain/report/reportObservable.ts:140-153 | no stack exactly when the source file is missing or empty; otherwise the stack starts with `<name>: <message>\nat <anonymous> @ ` |
| ReportObservable.BuildReportLogFromReport | packages/core/src/domain/report/reportObservable.ts:118-127 | the message is `<type>: <message>`; there is a stack iff the report is an intervention with a source file, and it is named after the report's id and located at the file, then `:line` and `:column` when not 0 |
| ReportObservable.BuildReportLogFromCspViolation | packages/core/src/domain/report/reportObservable.ts:129-138 | type `csp_violation`, message `csp_violation: '<uri>' blocked by '<directive>' directive`; a stack iff there is a source file, named `csp_violation` with the violation's text and located at the file, line and column |
| ReportObservable.LocationSpelledOut | packages/core/src/domain/report/reportObservable.ts:152 | the location is the source file, then `:line` and `:column` for each one that is present and not 0 |
| ReportObservable.StackSpelledOut | packages/core/src/domain/report/reportObservable.ts:140-153 | no stack without a source file; otherwise `<name>: <message>\nat <anonymous> @ <location>` |
| ReportObservable.ZeroPositionsDropped | packages/core/src/domain/report/reportObservable.ts:152 | a zero line and column are left out of the location |
| ReportObservable.InterventionExample | packages/core/src/domain/report/reportObservable.spec.ts:42-50 | the intervention report's stack is named after the report id and located at `index.js:20:10` |
| ReportObservable.CspViolationExample | packages/core/src/domain/report/reportObservable.spec.ts:52-62 | the CSP violation's message, type and stack located at `index.js:17:8` |
| ReportObservable.BrowserReportTypes | packages/core/src/domain/report/reportObservable.ts:72 | the browser report types are the requested apis minus `csp_violation`, with multiplicity |
| ReportObservable.InitReportObservable | packages/core/src/domain/report/reportObservable.ts:65-78 | a CSP source iff `csp_violation` is requested; a reporting observer iff another api is requested, observing exactly the other apis |

## Left out

- Timers: the `setTimeout` of `postpone`, the `setInterval` that drives `watchSession`, and the
  `throttle` around `expandOrRenewSession`. A postponement is an outcome and a retry is the
  next attempt of a finite schedule, so a run that postpones on every attempt just ends.
- Cookie I/O: `getCookie` and `setCookie` are not part of this model. The cookie name, its
  lifetime and the cookie options are passed through unchanged, so they are not modelled.
- Between a postponement and its retry, the original waits on a timer, and the same tab's
  `watchSession` interval or another entry point can run meanwhile and change `sessionCache`.
  Here each retry receives the tab exactly as the previous attempt left it; peers change only
  the cookie.
- Peers write only at the four read points of an attempt. A guarantee across tabs, such as
  "no two tabs hold the lock at once", is a property of all tabs together. Peers here are an
  environment, so it is not stated.
- Each attempt reads the clock once. The original calls `Date.now()` separately in
  `isActiveSession`, `expandOrRenewCookie` and `persistSession`.
- `Number()` is modelled for the empty string, decimal digits and a leading minus. Other
  forms (exponents, hexadecimal, surrounding spaces, fractions) read as NaN here, where the
  original would parse them.
- Records are insertion-ordered lists. The original's objects list integer-like keys first;
  valid keys are `[a-z]+`, so such keys never reach the codec's output.
- The observables and `monitor`: renew and expire are counters in the tab, and
  `addMonitoringMessage` is a log of `Inconsistency` values.
- `getSession`, and the `stop` of the store: they only expose or tear down state.
- The transport configuration, `beforeSend` and `catchUserErrors`, and
  `updateExperimentalFeatures`: their implementations are not part of this model. So are
  `getCurrentSite`, which becomes the `currentSite` parameter, and `isIntakeUrl`, which
  becomes a function parameter.
- `isPercentage` is not part of this model: it is taken to mean a number from 0 to 100. Sample
  rates are reals; NaN and infinities are not modelled.
- `TruncateResponseText`: lengths count characters, where the original counts UTF-16 code
  units.
- `HandleCompleteRequest`: does not carry `startClocks` or the constant `source` field.
- The browser event sources: `ReportingObserver`, the `securitypolicyviolation` listener, the
  XHR and fetch observables, and the merging of observables. `InitReportObservable` gives
  which sources are set up and for which report types.
- `SessionStore.ExpandSessionUnlocked`, `SessionStore.ExpandOrRenewCookie` and the other
  expansion lemmas assume the product key is a valid key other than `id`, `created`, `expire`
  and `lock`. A product key that collides with one of those fields is not covered.
