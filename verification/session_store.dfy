/** The per-tab session state machine: a cache of the last known-good session record,
    reconciled against the shared cookie on every access, with renew and expire events.

    The events are counters, the internal monitoring messages a log, and the three entry
    points (`expandOrRenewSession`, `expandSession`, `watchSession`) are the lock protocol
    run with this module's `process` and `after` steps. */
module SessionStore {
  import opened Text
  import opened Sessions
  import opened SessionCodec
  import opened SessionCookieStore

  /** What the product's `computeSessionState` decides from the raw tracking value. */
  datatype TrackingDecision = TrackingDecision(trackingType: string, isTracked: bool)

  /** The store's fixed inputs: the product's key in the record and its tracking strategy. */
  datatype StoreConfig = StoreConfig(
    productKey: string, computeSessionState: Option<string> -> TrackingDecision)

  /** The keys the session core itself uses; a product key is none of them. */
  predicate IsProductKey(k: string) {
    IsKey(k) && k != "id" && k != "created" && k != ExpireKey && k != LockKey
  }

  datatype Cause = DifferentId | DifferentTrackingType

  /** One "Session inconsistencies detected" monitoring message and its debug payload. */
  datatype Inconsistency = Inconsistency(cause: Cause, sessionCache: SessionState, cookieSession: SessionState)

  /** A tab's session store. Besides the cache, the event counters and the monitoring log:
      `isTracked`, the variable `expandOrRenewSession`'s `process` step sets for its `after`
      step, and `cacheIsProcessed`, true while the cache is the very record the current
      attempt's `process` returned (so that stamping that record also stamps the cache). */
  datatype Tab = Tab(
    cache: SessionState, renewals: nat, expirations: nat, inconsistencies: seq<Inconsistency>,
    isTracked: bool, cacheIsProcessed: bool)

  /** A tab between operations. */
  predicate AtRest(tab: Tab) {
    !tab.cacheIsProcessed
  }

  /** `hasSessionInCache`: the product's key is present in the cache. */
  predicate HasSessionInCache(cfg: StoreConfig, tab: Tab) {
    Get(tab.cache, cfg.productKey).Some?
  }

  /** The cache and a record disagree on the session id or on the product's tracking type. */
  predicate Diverged(cfg: StoreConfig, cache: SessionState, s: SessionState) {
    Get(cache, "id") != Get(s, "id") || Get(cache, cfg.productKey) != Get(s, cfg.productKey)
  }

  /** A record as the store accepts it: itself when active, the empty record otherwise. */
  function ActiveOrEmpty(s: SessionState, now: int): (r: SessionState)
    ensures IsEmpty(r) || IsActiveSession(r, now)
    ensures IsActiveSession(s, now) ==> r == s
    ensures !IsActiveSession(s, now) ==> r == []
  {
    if IsActiveSession(s, now) then s else []
  }

  /** `retrieveActiveSession`: the stored record when it is active, `{}` otherwise. */
  function RetrieveActiveSession(cell: Cookie, now: int): (s: SessionState)
    ensures IsActiveSession(Decode(cell), now) ==> s == Decode(cell)
    ensures !IsActiveSession(Decode(cell), now) ==> s == []
    ensures WireSafe(s)
  {
    ActiveOrEmpty(Decode(cell), now)
  }

  /** A freshly started store: its cache is the active stored record, if any. */
  function StartSessionStore(cell: Cookie, now: int): (tab: Tab)
    ensures AtRest(tab) && tab.renewals == 0 && tab.expirations == 0
    ensures IsEmpty(tab.cache) || IsActiveSession(tab.cache, now)
    ensures IsActiveSession(Decode(cell), now) ==> tab.cache == Decode(cell)
    ensures !IsActiveSession(Decode(cell), now) ==> tab.cache == []
    ensures tab.inconsistencies == []
  {
    Tab(RetrieveActiveSession(cell, now), 0, 0, [], false, false)
  }

  /** `expireSession`. */
  function ExpireSession(tab: Tab): Tab {
    tab.(cache := [], expirations := tab.expirations + 1, cacheIsProcessed := false)
  }

  /** `renewSession`. */
  function RenewSession(tab: Tab, s: SessionState): Tab {
    tab.(cache := s, renewals := tab.renewals + 1)
  }

  function AddInconsistency(tab: Tab, cause: Cause, cookie: SessionState): Tab {
    tab.(inconsistencies := tab.inconsistencies + [Inconsistency(cause, tab.cache, cookie)])
  }

  /** `isSessionInCacheOutdated`, with the monitoring messages it logs on the way. */
  function IsSessionInCacheOutdated(cfg: StoreConfig, tab: Tab, cookie: SessionState, now: int): (r: (Tab, bool))
    ensures r.1 <==> Diverged(cfg, tab.cache, cookie)
    ensures r.0.(inconsistencies := tab.inconsistencies) == tab
    ensures tab.inconsistencies <= r.0.inconsistencies && |r.0.inconsistencies| <= |tab.inconsistencies| + 1
  {
    if Get(tab.cache, "id") != Get(cookie, "id") then
      // a missing cookie id can come from expiry; an inactive cache from a renewal elsewhere
      if Truthy(Get(cookie, "id")) && IsActiveSession(tab.cache, now) then
        (AddInconsistency(tab, DifferentId, cookie), true)
      else (tab, true)
    else if Get(tab.cache, cfg.productKey) != Get(cookie, cfg.productKey) then
      (AddInconsistency(tab, DifferentTrackingType, cookie), true)
    else (tab, false)
  }

  /** What `synchronizeSession` leaves: the tab, the reconciled record it returns, and whether
      the cache has become that very record. */
  datatype Reconciled = Reconciled(tab: Tab, session: SessionState, adopted: bool)

  /** `synchronizeSession`: an inactive cookie record counts as empty; a cached session that
      disagrees with it expires, one that agrees is replaced by it. */
  function SynchronizeSession(cfg: StoreConfig, tab: Tab, cookie: SessionState, now: int): (r: Reconciled)
    ensures IsActiveSession(cookie, now) ==> r.session == cookie
    ensures !IsActiveSession(cookie, now) ==> r.session == []
    ensures !HasSessionInCache(cfg, tab) ==> r.tab == tab && !r.adopted
    ensures HasSessionInCache(cfg, tab) ==>
      && r.tab.renewals == tab.renewals
      && (if Diverged(cfg, tab.cache, r.session)
          then r.tab.cache == [] && r.tab.expirations == tab.expirations + 1 && !r.adopted
          else r.tab.cache == r.session && r.tab.expirations == tab.expirations && r.adopted)
    ensures r.tab.isTracked == tab.isTracked
    ensures !r.adopted ==> r.tab.cacheIsProcessed == tab.cacheIsProcessed || !r.tab.cacheIsProcessed
  {
    var s := ActiveOrEmpty(cookie, now);
    if !HasSessionInCache(cfg, tab) then Reconciled(tab, s, false)
    else
      var (t, outdated) := IsSessionInCacheOutdated(cfg, tab, s, now);
      if outdated then Reconciled(ExpireSession(t), s, false)
      else Reconciled(t.(cache := s), s, true)
  }

  /** `expandOrRenewCookie`: writes the product's tracking type and, for a tracked session
      without an id, mints an id and stamps its creation time. */
  function ExpandOrRenewCookie(cfg: StoreConfig, s: SessionState, e: Entropy): (r: (SessionState, bool))
    ensures IsProductKey(cfg.productKey) ==>
      var decision := cfg.computeSessionState(Get(s, cfg.productKey));
      var minted := decision.isTracked && !Truthy(Get(s, "id"));
      && r.1 == decision.isTracked
      && Get(r.0, cfg.productKey) == Some(decision.trackingType)
      && (minted ==> Get(r.0, "id") == Some(e.sessionId) && Get(r.0, "created") == Some(NatToString(e.now)))
      && (!minted ==> Get(r.0, "id") == Get(s, "id") && Get(r.0, "created") == Get(s, "created"))
      && (forall k :: k != cfg.productKey && k != "id" && k != "created" ==> Get(r.0, k) == Get(s, k))
  {
    var decision := cfg.computeSessionState(Get(s, cfg.productKey));
    var tracked := Set(s, cfg.productKey, decision.trackingType);
    if decision.isTracked && !Truthy(Get(tracked, "id")) then
      (Set(Set(tracked, "id", e.sessionId), "created", NatToString(e.now)), true)
    else (tracked, decision.isTracked)
  }

  // ----- the steps handed to the lock protocol -----

  /** `expandOrRenewSession`'s `process`: reconcile, then expand or renew the record. */
  function ExpandOrRenewProcess(cfg: StoreConfig, tab: Tab, e: Entropy, cookie: SessionState): (Tab, Option<SessionState>)
  {
    var rec := SynchronizeSession(cfg, tab, cookie, e.now);
    var (expanded, tracked) := ExpandOrRenewCookie(cfg, rec.session, e);
    var t := rec.tab.(isTracked := tracked);
    // an adopted cache is the very record `expandOrRenewCookie` just changed
    (if rec.adopted then t.(cache := expanded, cacheIsProcessed := true) else t, Some(expanded))
  }

  /** `expandOrRenewSession`'s `after`: a tracked session with nothing cached is a renewal;
      either way the cache becomes the record the protocol ended with. */
  function ExpandOrRenewAfter(cfg: StoreConfig, tab: Tab, e: Entropy, cookie: SessionState): Tab
  {
    var t := if tab.isTracked && !HasSessionInCache(cfg, tab) then RenewSession(tab, cookie) else tab;
    t.(cache := cookie, cacheIsProcessed := false)
  }

  /** `expandSession`'s `process`: reconcile only when a session is cached. */
  function ExpandProcess(cfg: StoreConfig, tab: Tab, e: Entropy, cookie: SessionState): (Tab, Option<SessionState>)
  {
    if HasSessionInCache(cfg, tab) then
      var rec := SynchronizeSession(cfg, tab, cookie, e.now);
      (rec.tab.(cacheIsProcessed := rec.adopted), Some(rec.session))
    else (tab, None)
  }

  /** `watchSession`'s `process`: replace an inactive record by the empty one. */
  function WatchProcess(tab: Tab, e: Entropy, cookie: SessionState): (Tab, Option<SessionState>)
  {
    (tab, if !IsActiveSession(cookie, e.now) then Some([]) else None)
  }

  /** `watchSession`'s `after`: `synchronizeSession`. */
  function WatchAfter(cfg: StoreConfig, tab: Tab, e: Entropy, cookie: SessionState): Tab
  {
    SynchronizeSession(cfg, tab, cookie, e.now).tab
  }

  /** At the end of an attempt, a cache that is the processed record holds that record as it
      finally stands. */
  function Settle(tab: Tab, processed: Option<SessionState>): Tab
  {
    if tab.cacheIsProcessed && processed.Some? then tab.(cache := processed.value, cacheIsProcessed := false)
    else tab.(cacheIsProcessed := false)
  }

  function ExpandOrRenewSteps(cfg: StoreConfig): (Process<Tab>, After<Tab>) {
    ((t, e, s) => ExpandOrRenewProcess(cfg, t, e, s), (t, e, s) => ExpandOrRenewAfter(cfg, t, e, s))
  }

  function ExpandSteps(cfg: StoreConfig): (Process<Tab>, After<Tab>) {
    ((t, e, s) => ExpandProcess(cfg, t, e, s), (t: Tab, e: Entropy, s: SessionState) => t)
  }

  function WatchSteps(cfg: StoreConfig): (Process<Tab>, After<Tab>) {
    ((t, e, s) => WatchProcess(t, e, s), (t, e, s) => WatchAfter(cfg, t, e, s))
  }

  /** One call of an entry point: the lock protocol with the given steps. */
  function RunSteps(steps: (Process<Tab>, After<Tab>), lockEnabled: bool, tab: Tab, cell: Cookie,
                    schedule: seq<AttemptEnv>): LockRun<Tab>
  {
    WithCookieLockAccess(lockEnabled, cell, schedule, steps.0, steps.1, (t, p) => Settle(t, p), tab)
  }

  // ----- properties -----

  /** An attempt no other tab disturbs. */
  function Undisturbed(e: Entropy): seq<AttemptEnv> {
    [AttemptEnv(e, NoInterference)]
  }

  lemma CoreKeysAreKeys()
    ensures IsKey("id") && IsKey("created") && IsKey(ExpireKey)
  {
    assert forall i :: 0 <= i < |"id"| ==> IsLowerLetter("id"[i]);
    assert forall i :: 0 <= i < |"created"| ==> IsLowerLetter("created"[i]);
    assert forall i :: 0 <= i < |ExpireKey| ==> IsLowerLetter(ExpireKey[i]);
  }

  /** The record `expandOrRenewSession` persists: the reconciled record, expanded and
      stamped. */
  function ExpandedRecord(cfg: StoreConfig, synced: SessionState, e: Entropy): SessionState {
    PersistSession(ExpandOrRenewCookie(cfg, synced, e).0, e.now).session
  }

  /** Stamping a non-empty record changes only its expiry. */
  lemma StampKeepsFields(x: SessionState, now: nat, productKey: string)
    requires Get(x, productKey).Some? && productKey != ExpireKey
    ensures
      var r := PersistSession(x, now).session;
      && Get(r, ExpireKey) == Some(NatToString(now + SessionExpirationDelay))
      && Get(r, productKey) == Get(x, productKey)
      && Get(r, "id") == Get(x, "id")
      && Get(r, "created") == Get(x, "created")
  {
    assert !IsEmpty(x);
  }

  /** What the expanded record holds: the tracking type, an id and creation time minted when
      tracked and missing, and a fresh expiry. */
  lemma ExpandedRecordFacts(cfg: StoreConfig, synced: SessionState, e: Entropy)
    requires IsProductKey(cfg.productKey)
    ensures
      var r := ExpandedRecord(cfg, synced, e);
      var decision := cfg.computeSessionState(Get(synced, cfg.productKey));
      && Get(r, cfg.productKey) == Some(decision.trackingType)
      && Get(r, ExpireKey) == Some(NatToString(e.now + SessionExpirationDelay))
      && (Truthy(Get(synced, "id")) ==> Get(r, "id") == Get(synced, "id") && Get(r, "created") == Get(synced, "created"))
      && (decision.isTracked && !Truthy(Get(synced, "id")) ==>
            Get(r, "id") == Some(e.sessionId) && Get(r, "created") == Some(NatToString(e.now)))
      && (!decision.isTracked ==> Get(r, "id") == Get(synced, "id") && Get(r, "created") == Get(synced, "created"))
  {
    var expanded := ExpandOrRenewCookie(cfg, synced, e).0;
    StampKeepsFields(expanded, e.now, cfg.productKey);
  }

  /** The expanded record is active when stamped: a reconciled record is active or empty, a
      minted creation time is now, and the expiry lies ahead. */
  lemma ExpandedRecordIsActive(cfg: StoreConfig, synced: SessionState, e: Entropy)
    requires IsProductKey(cfg.productKey)
    requires IsEmpty(synced) || IsActiveSession(synced, e.now)
    ensures IsActiveSession(ExpandedRecord(cfg, synced, e), e.now)
  {
    var r := ExpandedRecord(cfg, synced, e);
    ExpandedRecordFacts(cfg, synced, e);
    ParseNatToString(e.now + SessionExpirationDelay);
    if Get(r, "created") != Get(synced, "created") {
      assert Get(r, "created") == Some(NatToString(e.now));
      ParseNatToString(e.now);
    }
  }

  /** The expanded record is wire-safe when the tracking type and the minted id are wire
      values, so the cookie then reads back as exactly that record. */
  lemma ExpandedRecordWireSafe(cfg: StoreConfig, synced: SessionState, e: Entropy)
    requires IsProductKey(cfg.productKey) && WireSafe(synced)
    requires IsValue(cfg.computeSessionState(Get(synced, cfg.productKey)).trackingType)
    requires IsValue(e.sessionId)
    ensures WireSafe(ExpandOrRenewCookie(cfg, synced, e).0)
    ensures
      var p := PersistSession(ExpandOrRenewCookie(cfg, synced, e).0, e.now);
      Decode(p.cookie) == p.session
  {
    var decision := cfg.computeSessionState(Get(synced, cfg.productKey));
    CoreKeysAreKeys();
    NumberIsValue(e.now);
    var tracked := Set(synced, cfg.productKey, decision.trackingType);
    SetWireSafe(synced, cfg.productKey, decision.trackingType);
    if decision.isTracked && !Truthy(Get(tracked, "id")) {
      SetWireSafe(tracked, "id", e.sessionId);
      SetWireSafe(Set(tracked, "id", e.sessionId), "created", NatToString(e.now));
    }
  }

  /** The events of one `expandOrRenewSession` attempt that reaches `after`: the cache expires
      exactly when it disagreed with the reconciled record, and a renewal fires exactly when
      the session is tracked and nothing consistent was cached; the cache ends as the record
      handed to `after`. */
  lemma ExpandOrRenewEvents(cfg: StoreConfig, tab: Tab, e: Entropy, cookie: SessionState, final: SessionState)
    requires IsProductKey(cfg.productKey)
    ensures
      var synced := ActiveOrEmpty(cookie, e.now);
      var decision := cfg.computeSessionState(Get(synced, cfg.productKey));
      var diverged := HasSessionInCache(cfg, tab) && Diverged(cfg, tab.cache, synced);
      var t := ExpandOrRenewAfter(cfg, ExpandOrRenewProcess(cfg, tab, e, cookie).0, e, final);
      && t.cache == final && AtRest(t)
      && t.expirations == tab.expirations + (if diverged then 1 else 0)
      && t.renewals == tab.renewals + (if decision.isTracked && (diverged || !HasSessionInCache(cfg, tab)) then 1 else 0)
  {
    var rec := SynchronizeSession(cfg, tab, cookie, e.now);
    var t1 := ExpandOrRenewProcess(cfg, tab, e, cookie).0;
    assert HasSessionInCache(cfg, t1) <==> HasSessionInCache(cfg, tab) && !Diverged(cfg, tab.cache, rec.session);
  }

  /** An undisturbed `expandOrRenewSession` with the lock off: the cookie's active record (or
      a new one) is expanded and stamped, written to the cookie and cached, with the events of
      `ExpandOrRenewEvents`. */
  lemma ExpandOrRenewUnlocked(cfg: StoreConfig, tab: Tab, cell: Cookie, e: Entropy)
    requires IsProductKey(cfg.productKey) && AtRest(tab)
    ensures
      var r := RunSteps(ExpandOrRenewSteps(cfg), false, tab, cell, Undisturbed(e));
      var synced := ActiveOrEmpty(Decode(cell), e.now);
      var p := PersistSession(ExpandOrRenewCookie(cfg, synced, e).0, e.now);
      && r.final == Some(p.session) && r.cookie == p.cookie && r.attempts == 1
      && r.ctx == ExpandOrRenewAfter(cfg, ExpandOrRenewProcess(cfg, tab, e, Decode(cell)).0, e, p.session)
  {
    var steps := ExpandOrRenewSteps(cfg);
    var read := Decode(cell);
    var answer := ExpandOrRenewProcess(cfg, tab, e, read);
    var expanded := ExpandOrRenewCookie(cfg, ActiveOrEmpty(read, e.now), e).0;
    assert steps.0(tab, e, read) == answer;
    assert answer.1 == Some(expanded);
    UnlockedPersists(cell, AttemptEnv(e, NoInterference), steps.0, steps.1, tab, expanded);
    CompletedFirstAttempt(false, cell, Undisturbed(e), steps.0, steps.1, (t, q) => Settle(t, q), tab);
  }

  /** A tab opened with no cookie, whose product tracks a session without a tracking value:
      the first `expandOrRenewSession` mints the session, fires exactly one renewal and no
      expiry, and the cookie and the cache agree on the new active session. */
  lemma FreshTabRenews(cfg: StoreConfig, openedAt: int, e: Entropy)
    requires IsProductKey(cfg.productKey)
    requires cfg.computeSessionState(None).isTracked
    requires IsValue(cfg.computeSessionState(None).trackingType) && IsValue(e.sessionId)
    ensures
      var r := RunSteps(ExpandOrRenewSteps(cfg), false, StartSessionStore(None, openedAt), None, Undisturbed(e));
      && r.ctx.renewals == 1 && r.ctx.expirations == 0
      && Get(r.ctx.cache, "id") == Some(e.sessionId)
      && Get(r.ctx.cache, "created") == Some(NatToString(e.now))
      && Get(r.ctx.cache, ExpireKey) == Some(NatToString(e.now + SessionExpirationDelay))
      && Get(r.ctx.cache, cfg.productKey) == Some(cfg.computeSessionState(None).trackingType)
      && IsActiveSession(r.ctx.cache, e.now)
      && Decode(r.cookie) == r.ctx.cache
  {
    var tab := StartSessionStore(None, openedAt);
    assert tab.cache == [];
    var synced := ActiveOrEmpty(Decode(None), e.now);
    assert synced == [];
    ExpandOrRenewUnlocked(cfg, tab, None, e);
    ExpandOrRenewEvents(cfg, tab, e, Decode(None), ExpandedRecord(cfg, synced, e));
    ExpandedRecordFacts(cfg, synced, e);
    ExpandedRecordIsActive(cfg, synced, e);
    ExpandedRecordWireSafe(cfg, synced, e);
  }

  /** `expandSession` never creates a session: a tab with nothing cached is left exactly as it
      was, whatever the lock setting, the schedule and the other tabs do. */
  lemma {:induction false} ExpandSessionNeverCreates(cfg: StoreConfig, lockEnabled: bool, tab: Tab,
                                                     cell: Cookie, schedule: seq<AttemptEnv>)
    requires AtRest(tab) && !HasSessionInCache(cfg, tab)
    ensures RunSteps(ExpandSteps(cfg), lockEnabled, tab, cell, schedule).ctx == tab
    ensures !lockEnabled && |schedule| > 0 ==>
      RunSteps(ExpandSteps(cfg), lockEnabled, tab, cell, schedule).cookie == Left(cell, schedule[0].peers.initial)
    decreases |schedule|
  {
    if |schedule| > 0 {
      var steps := ExpandSteps(cfg);
      var a := TryAccess(lockEnabled, cell, schedule[0], steps.0, steps.1, tab);
      AfterOnlyOnCompletion(lockEnabled, cell, schedule[0], steps.0, steps.1, tab);
      assert a.ctx == tab;
      assert Settle(a.ctx, a.processed) == tab;
      if a.outcome.Postponed? {
        ExpandSessionNeverCreates(cfg, lockEnabled, tab, a.cookie, schedule[1..]);
      } else if !lockEnabled {
        var read := Decode(Seen(cell, schedule[0].peers.initial));
        assert steps.0(tab, schedule[0].entropy, read) == (tab, None);
        CompletedFirstAttempt(lockEnabled, cell, schedule, steps.0, steps.1, (t, q) => Settle(t, q), tab);
      }
    }
  }

  /** One undisturbed `expandSession` with the lock off, on a tab with a cached session: the
      reconciled record is persisted, and the cache, when it adopted that record, holds it as
      stamped. */
  lemma ExpandSessionRun(cfg: StoreConfig, tab: Tab, cell: Cookie, e: Entropy)
    requires AtRest(tab) && HasSessionInCache(cfg, tab)
    ensures
      var r := RunSteps(ExpandSteps(cfg), false, tab, cell, Undisturbed(e));
      var rec := SynchronizeSession(cfg, tab, Decode(cell), e.now);
      var p := PersistSession(rec.session, e.now);
      && r.final == Some(p.session) && r.cookie == p.cookie
      && r.ctx == (if rec.adopted then rec.tab.(cache := p.session) else rec.tab)
  {
    var steps := ExpandSteps(cfg);
    var env := AttemptEnv(e, NoInterference);
    var read := Decode(cell);
    var rec := SynchronizeSession(cfg, tab, read, e.now);
    assert steps.0(tab, e, read) == (rec.tab.(cacheIsProcessed := rec.adopted), Some(rec.session));
    var p := PersistSession(rec.session, e.now);
    var a := TryAccess(false, cell, env, steps.0, steps.1, tab);
    assert a == AttemptResult(rec.tab.(cacheIsProcessed := rec.adopted), p.cookie, Completed(p.session), Some(read), Some(p.session));
    CompletedFirstAttempt(false, cell, Undisturbed(e), steps.0, steps.1, (t, q) => Settle(t, q), tab);
  }

  /** An undisturbed `expandSession` with the lock off, on a tab with a cached session: a
      cookie session consistent with the cache is prolonged (same id and tracking type, fresh
      expiry) and stays cached, with no event; an inconsistent one expires the cache, and an
      inactive one is cleared from the cookie. */
  lemma ExpandSessionUnlocked(cfg: StoreConfig, tab: Tab, cell: Cookie, e: Entropy)
    requires IsProductKey(cfg.productKey) && AtRest(tab) && HasSessionInCache(cfg, tab)
    ensures
      var r := RunSteps(ExpandSteps(cfg), false, tab, cell, Undisturbed(e));
      var synced := ActiveOrEmpty(Decode(cell), e.now);
      && r.final.Some? && AtRest(r.ctx)
      && Decode(r.cookie) == r.final.value
      && r.ctx.renewals == tab.renewals
      && (IsEmpty(synced) ==> r.cookie == Cleared)
      && (Diverged(cfg, tab.cache, synced) ==> r.ctx.cache == [] && r.ctx.expirations == tab.expirations + 1)
      && (!Diverged(cfg, tab.cache, synced) ==>
            && r.ctx.cache == r.final.value
            && r.ctx.expirations == tab.expirations
            && Get(r.ctx.cache, "id") == Get(tab.cache, "id")
            && Get(r.ctx.cache, cfg.productKey) == Get(tab.cache, cfg.productKey)
            && Get(r.ctx.cache, ExpireKey) == Some(NatToString(e.now + SessionExpirationDelay)))
  {
    var r := RunSteps(ExpandSteps(cfg), false, tab, cell, Undisturbed(e));
    ExpandSessionRun(cfg, tab, cell, e);
    ExpandedSessionRecord(cfg, tab, Decode(cell), e.now);
    var rec := SynchronizeSession(cfg, tab, Decode(cell), e.now);
    if Diverged(cfg, tab.cache, rec.session) {
      assert r.ctx == rec.tab;
    } else {
      assert r.ctx == rec.tab.(cache := PersistSession(rec.session, e.now).session);
    }
  }

  /** The record `expandSession` persists for a tab with a cached session, and the tab's
      reconciliation with it. */
  lemma ExpandedSessionRecord(cfg: StoreConfig, tab: Tab, read: SessionState, now: nat)
    requires IsProductKey(cfg.productKey) && AtRest(tab) && HasSessionInCache(cfg, tab)
    requires WireSafe(read)
    ensures
      var rec := SynchronizeSession(cfg, tab, read, now);
      var p := PersistSession(rec.session, now);
      && rec.session == ActiveOrEmpty(read, now)
      && Decode(p.cookie) == p.session
      && AtRest(rec.tab) && rec.tab.renewals == tab.renewals
      && (IsEmpty(rec.session) ==> p.cookie == Cleared)
      && (Diverged(cfg, tab.cache, rec.session) ==>
            !rec.adopted && rec.tab.cache == [] && rec.tab.expirations == tab.expirations + 1)
      && (!Diverged(cfg, tab.cache, rec.session) ==>
            && rec.adopted && rec.tab.expirations == tab.expirations
            && Get(p.session, "id") == Get(tab.cache, "id")
            && Get(p.session, cfg.productKey) == Get(tab.cache, cfg.productKey)
            && Get(p.session, ExpireKey) == Some(NatToString(now + SessionExpirationDelay)))
  {
    var rec := SynchronizeSession(cfg, tab, read, now);
    assert WireSafe(rec.session);
    if !Diverged(cfg, tab.cache, rec.session) {
      assert Get(rec.session, cfg.productKey).Some?;
      StampKeepsFields(rec.session, now, cfg.productKey);
    }
  }

  /** An undisturbed `watchSession` with the lock off: an inactive cookie record is cleared
      from the cookie, an active one is left as it is, and the tab then reconciles with the
      record read (an inactive one counting as empty, so a cached session expires). */
  lemma WatchSessionUnlocked(cfg: StoreConfig, tab: Tab, cell: Cookie, e: Entropy)
    requires AtRest(tab)
    ensures
      var r := RunSteps(WatchSteps(cfg), false, tab, cell, Undisturbed(e));
      var read := Decode(cell);
      && r.final.Some? && AtRest(r.ctx)
      && r.cookie == (if IsActiveSession(read, e.now) then cell else Cleared)
      && r.ctx == SynchronizeSession(cfg, tab, read, e.now).tab
      && (!IsActiveSession(read, e.now) && HasSessionInCache(cfg, tab) ==>
            r.ctx.cache == [] && r.ctx.expirations == tab.expirations + 1)
  {
    var steps := WatchSteps(cfg);
    var env := AttemptEnv(e, NoInterference);
    var read := Decode(cell);
    var answer := WatchProcess(tab, e, read);
    assert steps.0(tab, e, read) == answer;
    var a := TryAccess(false, cell, env, steps.0, steps.1, tab);
    if IsActiveSession(read, e.now) {
      assert a == AttemptResult(SynchronizeSession(cfg, tab, read, e.now).tab, cell, Completed(read), Some(read), None);
    } else {
      var p := PersistSession([], e.now);
      assert a == AttemptResult(SynchronizeSession(cfg, tab, [], e.now).tab, Cleared, Completed([]), Some(read), Some([]));
      assert Diverged(cfg, tab.cache, []) || !HasSessionInCache(cfg, tab);
    }
    CompletedFirstAttempt(false, cell, Undisturbed(e), steps.0, steps.1, (t, q) => Settle(t, q), tab);
  }

  /** The monitoring messages of `synchronizeSession`: "different id" exactly when a cached
      session meets a cookie with another, defined id while the cached session is still
      active; "different tracking type" exactly when the ids agree and the product's value
      does not; nothing otherwise. */
  lemma InconsistencyLogged(cfg: StoreConfig, tab: Tab, cookie: SessionState, now: int)
    ensures
      var r := SynchronizeSession(cfg, tab, cookie, now);
      var s := r.session;
      var sameId := Get(tab.cache, "id") == Get(s, "id");
      var differentId := HasSessionInCache(cfg, tab) && !sameId && Truthy(Get(s, "id")) && IsActiveSession(tab.cache, now);
      var differentType := HasSessionInCache(cfg, tab) && sameId && Get(tab.cache, cfg.productKey) != Get(s, cfg.productKey);
      && (r.tab.inconsistencies == tab.inconsistencies + [Inconsistency(DifferentId, tab.cache, s)] <==> differentId)
      && (r.tab.inconsistencies == tab.inconsistencies + [Inconsistency(DifferentTrackingType, tab.cache, s)] <==> differentType)
      && (r.tab.inconsistencies == tab.inconsistencies <==> !differentId && !differentType)
  {
    var r := SynchronizeSession(cfg, tab, cookie, now);
    var s := r.session;
    var byId := tab.inconsistencies + [Inconsistency(DifferentId, tab.cache, s)];
    var byType := tab.inconsistencies + [Inconsistency(DifferentTrackingType, tab.cache, s)];
    assert byId != byType by {
      assert byId[|tab.inconsistencies|] != byType[|tab.inconsistencies|];
    }
    assert |byId| != |tab.inconsistencies| && |byType| != |tab.inconsistencies|;
    if HasSessionInCache(cfg, tab) {
      var (t, outdated) := IsSessionInCacheOutdated(cfg, tab, s, now);
      assert r.tab.inconsistencies == t.inconsistencies;
    }
  }

  /** A session cached without an id (not tracked) whose cookie record is no longer active
      expires with a "different tracking type" message, although the cookie only expired. */
  lemma UntrackedExpiryReportsTrackingType(cfg: StoreConfig, tab: Tab, cookie: SessionState, now: int)
    requires HasSessionInCache(cfg, tab) && Get(tab.cache, "id").None?
    requires !IsActiveSession(cookie, now)
    ensures
      var r := SynchronizeSession(cfg, tab, cookie, now);
      && r.tab.cache == [] && r.tab.expirations == tab.expirations + 1
      && r.tab.inconsistencies == tab.inconsistencies + [Inconsistency(DifferentTrackingType, tab.cache, [])]
  {
  }

  /** Another tab renewed the session: the next undisturbed `watchSession` tick leaves the
      cookie alone, expires the cache (one expire event, no renewal) and logs a "different
      id" message carrying the stale cache and the new record. */
  lemma CrossTabRenewalDetected(cfg: StoreConfig, tab: Tab, cell: Cookie, e: Entropy)
    requires AtRest(tab) && HasSessionInCache(cfg, tab) && IsActiveSession(tab.cache, e.now)
    requires IsActiveSession(Decode(cell), e.now)
    requires Truthy(Get(Decode(cell), "id")) && Get(Decode(cell), "id") != Get(tab.cache, "id")
    ensures
      var r := RunSteps(WatchSteps(cfg), false, tab, cell, Undisturbed(e));
      && r.cookie == cell
      && r.ctx.cache == [] && r.ctx.expirations == tab.expirations + 1 && r.ctx.renewals == tab.renewals
      && r.ctx.inconsistencies == tab.inconsistencies + [Inconsistency(DifferentId, tab.cache, Decode(cell))]
  {
    WatchSessionUnlocked(cfg, tab, cell, e);
    InconsistencyLogged(cfg, tab, Decode(cell), e.now);
  }

  /** With the lock on, an undisturbed `watchSession` clears an inactive cookie (which also
      drops the lock it took) and leaves an active one reading as before. */
  lemma WatchSessionLocked(cfg: StoreConfig, tab: Tab, cell: Cookie, e: Entropy)
    requires AtRest(tab)
    requires Get(Decode(cell), LockKey).None? && IsValue(e.lockToken)
    ensures
      var r := RunSteps(WatchSteps(cfg), true, tab, cell, Undisturbed(e));
      var read := Decode(cell);
      && r.final.Some? && r.attempts == 1
      && (!IsActiveSession(read, e.now) ==> r.cookie == Cleared)
      && (IsActiveSession(read, e.now) ==> Decode(r.cookie) == read)
  {
    var steps := WatchSteps(cfg);
    var read := Decode(cell);
    var input := Set(read, LockKey, e.lockToken);
    LockKeepsActivity(read, e.lockToken, e.now);
    assert steps.0(tab, e, input) == WatchProcess(tab, e, input);
    QuietLockedAccess(cell, e, steps.0, steps.1, tab);
    CompletedFirstAttempt(true, cell, Undisturbed(e), steps.0, steps.1, (t, q) => Settle(t, q), tab);
  }

  /** With the lock on, `expandOrRenewSession` on a cookie whose record is no longer active
      cannot finish in one attempt: reconciliation replaces the record by a new one that has
      no lock field, so the attempt writes the new session and then postpones at the
      post-persist check, without calling `after`. */
  lemma LockedRenewalPostpones(cfg: StoreConfig, tab: Tab, cell: Cookie, e: Entropy)
    requires IsProductKey(cfg.productKey) && AtRest(tab)
    requires Get(Decode(cell), LockKey).None? && IsValue(e.lockToken)
    requires !IsActiveSession(Decode(cell), e.now)
    requires IsValue(cfg.computeSessionState(None).trackingType) && IsValue(e.sessionId)
    ensures
      var steps := ExpandOrRenewSteps(cfg);
      var a := TryAccess(true, cell, AttemptEnv(e, NoInterference), steps.0, steps.1, tab);
      && a.outcome == Postponed(PostPersistCheck)
      && a.ctx == ExpandOrRenewProcess(cfg, tab, e, Set(Decode(cell), LockKey, e.lockToken)).0
  {
    var steps := ExpandOrRenewSteps(cfg);
    var input := Set(Decode(cell), LockKey, e.lockToken);
    InactiveRenewalAnswer(cfg, tab, cell, e);
    LockLostAfterPersist(cell, AttemptEnv(e, NoInterference), steps.0, steps.1, tab, input, ExpandOrRenewCookie(cfg, [], e).0);
  }

  /** What the locked `expandOrRenewSession` attempt on an inactive cookie writes: its lock
      reads back intact, and its `process` answers with a fresh record that has no lock. */
  lemma InactiveRenewalAnswer(cfg: StoreConfig, tab: Tab, cell: Cookie, e: Entropy)
    requires IsProductKey(cfg.productKey)
    requires Get(Decode(cell), LockKey).None? && IsValue(e.lockToken)
    requires !IsActiveSession(Decode(cell), e.now)
    requires IsValue(cfg.computeSessionState(None).trackingType) && IsValue(e.sessionId)
    ensures
      var input := Set(Decode(cell), LockKey, e.lockToken);
      var expanded := ExpandOrRenewCookie(cfg, [], e).0;
      && Decode(SetSession(input)) == input
      && ExpandOrRenewSteps(cfg).0(tab, e, input).1 == Some(expanded)
      && !IsEmpty(expanded)
      && Get(Decode(PersistSession(expanded, e.now).cookie), LockKey).None?
  {
    var input := Set(Decode(cell), LockKey, e.lockToken);
    LockedReadBack(Decode(cell), e.lockToken, e.now);
    InactiveProcessAnswer(cfg, tab, input, e);
    FreshRecordUnlocked(cfg, e);
  }

  /** The read record with this tab's lock added survives the codec, and is exactly as active
      as the record read. */
  lemma LockedReadBack(read: SessionState, token: string, now: int)
    requires WireSafe(read) && IsValue(token)
    ensures Decode(SetSession(Set(read, LockKey, token))) == Set(read, LockKey, token)
    ensures IsActiveSession(Set(read, LockKey, token), now) == IsActiveSession(read, now)
  {
    LockKeyIsKey();
    SetWireSafe(read, LockKey, token);
    RoundTrip(Set(read, LockKey, token));
    LockKeepsActivity(read, token, now);
  }

  /** A session expanded from nothing is not empty, and persisting it writes no lock. */
  lemma FreshRecordUnlocked(cfg: StoreConfig, e: Entropy)
    requires IsProductKey(cfg.productKey)
    requires IsValue(cfg.computeSessionState(None).trackingType) && IsValue(e.sessionId)
    ensures
      var expanded := ExpandOrRenewCookie(cfg, [], e).0;
      !IsEmpty(expanded) && Get(Decode(PersistSession(expanded, e.now).cookie), LockKey).None?
  {
    var expanded := ExpandOrRenewCookie(cfg, [], e).0;
    assert Get(expanded, cfg.productKey).Some?;
    assert Get(expanded, LockKey) == Get([], LockKey);
    ExpandedRecordWireSafe(cfg, [], e);
  }

  /** Taking the lock does not change whether a record is active. */
  lemma LockKeepsActivity(s: SessionState, token: string, now: int)
    ensures IsActiveSession(Set(s, LockKey, token), now) == IsActiveSession(s, now)
  {
    var locked := Set(s, LockKey, token);
    assert Get(locked, "created") == Get(s, "created");
    assert Get(locked, ExpireKey) == Get(s, ExpireKey);
  }

  /** Expanding a record read under this attempt's lock keeps the lock, and keeps the record
      wire-safe when the tracking type and the minted id are wire values. */
  lemma LockedExpansionKeepsLock(cfg: StoreConfig, read: SessionState, e: Entropy)
    requires IsProductKey(cfg.productKey) && WireSafe(read)
    requires IsValue(e.lockToken)
    requires IsValue(cfg.computeSessionState(Get(read, cfg.productKey)).trackingType) && IsValue(e.sessionId)
    ensures
      var input := Set(read, LockKey, e.lockToken);
      && WireSafe(ExpandOrRenewCookie(cfg, input, e).0)
      && Get(ExpandOrRenewCookie(cfg, input, e).0, LockKey) == Some(e.lockToken)
  {
    var input := Set(read, LockKey, e.lockToken);
    var expanded := ExpandOrRenewCookie(cfg, input, e).0;
    assert Get(expanded, LockKey) == Get(input, LockKey);
    LockKeyIsKey();
    SetWireSafe(read, LockKey, e.lockToken);
    assert Get(input, cfg.productKey) == Get(read, cfg.productKey);
    ExpandedRecordWireSafe(cfg, input, e);
  }

  /** On an active record, `expandOrRenewSession`'s `process` answers with the record itself,
      expanded. */
  lemma ActiveProcessAnswer(cfg: StoreConfig, tab: Tab, input: SessionState, e: Entropy)
    requires IsActiveSession(input, e.now)
    ensures ExpandOrRenewSteps(cfg).0(tab, e, input)
            == (ExpandOrRenewProcess(cfg, tab, e, input).0, Some(ExpandOrRenewCookie(cfg, input, e).0))
  {
    assert SynchronizeSession(cfg, tab, input, e.now).session == input;
  }

  /** On an inactive record, `expandOrRenewSession`'s `process` answers with a new record
      expanded from nothing. */
  lemma InactiveProcessAnswer(cfg: StoreConfig, tab: Tab, input: SessionState, e: Entropy)
    requires !IsActiveSession(input, e.now)
    ensures ExpandOrRenewSteps(cfg).0(tab, e, input)
            == (ExpandOrRenewProcess(cfg, tab, e, input).0, Some(ExpandOrRenewCookie(cfg, [], e).0))
  {
    assert SynchronizeSession(cfg, tab, input, e.now).session == [];
  }

  /** With the lock on, an undisturbed `expandOrRenewSession` on a free cookie holding an
      active record completes in one attempt: the cookie and the cache end with the expanded
      record, stamped and without the lock, and the tab's events are those of
      `ExpandOrRenewEvents` for the record read under the lock. */
  lemma ExpandOrRenewLocked(cfg: StoreConfig, tab: Tab, cell: Cookie, e: Entropy)
    requires IsProductKey(cfg.productKey) && AtRest(tab)
    requires Get(Decode(cell), LockKey).None? && IsValue(e.lockToken)
    requires IsActiveSession(Decode(cell), e.now)
    requires IsValue(cfg.computeSessionState(Get(Decode(cell), cfg.productKey)).trackingType) && IsValue(e.sessionId)
    ensures
      var r := RunSteps(ExpandOrRenewSteps(cfg), true, tab, cell, Undisturbed(e));
      var input := Set(Decode(cell), LockKey, e.lockToken);
      && r.final.Some? && r.attempts == 1
      && Decode(r.cookie) == r.final.value
      && Get(r.final.value, LockKey).None?
      && (forall k :: k != LockKey ==> Get(r.final.value, k) == Get(ExpandedRecord(cfg, input, e), k))
      && r.ctx == ExpandOrRenewAfter(cfg, ExpandOrRenewProcess(cfg, tab, e, input).0, e, r.final.value)
  {
    var steps := ExpandOrRenewSteps(cfg);
    var env := AttemptEnv(e, NoInterference);
    var input := Set(Decode(cell), LockKey, e.lockToken);
    ActiveRenewalAnswer(cfg, tab, cell, e);
    QuietLockedAccess(cell, e, steps.0, steps.1, tab);
    AfterOnlyOnCompletion(true, cell, env, steps.0, steps.1, tab);
    var a := TryAccess(true, cell, env, steps.0, steps.1, tab);
    assert a.processInput == Some(input);
    assert a.outcome.Completed?;
    CompletedFirstAttempt(true, cell, Undisturbed(e), steps.0, steps.1, (t, q) => Settle(t, q), tab);
  }

  /** What the locked `expandOrRenewSession` attempt on an active cookie processes: its
      `process` answers with the expanded record, which can be encoded and still holds this
      tab's lock. */
  lemma ActiveRenewalAnswer(cfg: StoreConfig, tab: Tab, cell: Cookie, e: Entropy)
    requires IsProductKey(cfg.productKey)
    requires Get(Decode(cell), LockKey).None? && IsValue(e.lockToken)
    requires IsActiveSession(Decode(cell), e.now)
    requires IsValue(cfg.computeSessionState(Get(Decode(cell), cfg.productKey)).trackingType) && IsValue(e.sessionId)
    ensures
      var input := Set(Decode(cell), LockKey, e.lockToken);
      var expanded := ExpandOrRenewCookie(cfg, input, e).0;
      && ExpandOrRenewSteps(cfg).0(tab, e, input).1 == Some(expanded)
      && WireSafe(expanded) && !IsEmpty(expanded)
      && Get(expanded, LockKey) == Some(e.lockToken)
  {
    var input := Set(Decode(cell), LockKey, e.lockToken);
    LockKeepsActivity(Decode(cell), e.lockToken, e.now);
    ActiveProcessAnswer(cfg, tab, input, e);
    assert Get(ExpandOrRenewCookie(cfg, input, e).0, cfg.productKey).Some?;
    LockedExpansionKeepsLock(cfg, Decode(cell), e);
  }
}
