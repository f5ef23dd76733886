/** The session cookie store: persisting and clearing the `_dd_s` cookie, and the advisory
    lock protocol that lets tabs read-modify-write the cookie without a real lock.

    The cookie is an explicit cell. Other tabs are an environment that may write the cell
    around each of the protocol's four reads. A postponement is an outcome of an attempt; the
    retry it schedules is the next attempt of a run. */
module SessionCookieStore {
  import opened Text
  import opened Sessions
  import opened SessionCodec

  /** The `_dd_s` cookie: `None` when no cookie is set. */
  type Cookie = Option<string>

  const LockKey: string := "lock"
  const ExpireKey: string := "expire"

  /** `setSession`: the cookie holds the encoded record (its lifetime is pass-through). */
  function SetSession(s: SessionState): Cookie {
    Some(Encode(s))
  }

  /** `clearSession`: an empty value with lifetime 0 deletes the cookie. */
  const Cleared: Cookie := None

  /** What `persistSession` leaves behind: the cookie, and the record it was handed as that
      record stands afterwards (the expiry is stamped onto the caller's object in place). */
  datatype Persisted = Persisted(cookie: Cookie, session: SessionState)

  /** `persistSession`: an empty record clears the cookie; any other record gets
      `expire = now + 15 min` and is written. */
  function PersistSession(s: SessionState, now: nat): (r: Persisted)
    ensures IsEmpty(s) ==> r.cookie == Cleared && r.session == s
    ensures !IsEmpty(s) ==> Get(r.session, ExpireKey) == Some(NatToString(now + SessionExpirationDelay))
    ensures forall k :: k != ExpireKey ==> Get(r.session, k) == Get(s, k)
    ensures WireSafe(s) ==> WireSafe(r.session) && Decode(r.cookie) == r.session
  {
    if IsEmpty(s) then Persisted(Cleared, s)
    else
      var stamped := Set(s, ExpireKey, NatToString(now + SessionExpirationDelay));
      if WireSafe(s) then
        assert IsKey(ExpireKey) by {
          assert forall i :: 0 <= i < |ExpireKey| ==> IsLowerLetter(ExpireKey[i]);
        }
        SetWireSafe(s, ExpireKey, NatToString(now + SessionExpirationDelay));
        RoundTrip(stamped);
        Persisted(SetSession(stamped), stamped)
      else
        Persisted(SetSession(stamped), stamped)
  }

  // ----- the environment -----

  /** What other tabs do around one read of the cookie: nothing, or write `seen` just before
      the read and `left` just after it. */
  datatype PeerWrite = Quiet | Overwrite(seen: Cookie, left: Cookie)

  /** Other tabs' writes around the four reads of an attempt (with the lock off, only the
      first read happens). */
  datatype Interference = Interference(
    initial: PeerWrite, acquired: PeerWrite, postProcess: PeerWrite, postPersist: PeerWrite)

  const NoInterference: Interference := Interference(Quiet, Quiet, Quiet, Quiet)

  /** The cookie content a read returns. */
  function Seen(cell: Cookie, w: PeerWrite): Cookie {
    if w.Quiet? then cell else w.seen
  }

  /** The cookie cell after the read. */
  function Left(cell: Cookie, w: PeerWrite): Cookie {
    if w.Quiet? then cell else w.left
  }

  /** The values this tab draws during one attempt: the clock (`Date.now()`) and the two
      UUIDs it may mint (the lock token, and a new session id). */
  datatype Entropy = Entropy(now: nat, lockToken: string, sessionId: string)

  /** Everything an attempt receives from outside. */
  datatype AttemptEnv = AttemptEnv(entropy: Entropy, peers: Interference)

  /** The four lock checks, in protocol order. */
  datatype Checkpoint = InitialCheck | AcquiredCheck | PostProcessCheck | PostPersistCheck

  datatype Outcome = Postponed(at: Checkpoint) | Completed(final: SessionState)

  /** One attempt: the caller's context afterwards, the cookie afterwards, the outcome, the
      record `process` was given (if it ran) and the processed record as it stands at the
      end of the attempt (if `process` ran and returned one). */
  datatype AttemptResult<C> = AttemptResult(
    ctx: C, cookie: Cookie, outcome: Outcome,
    processInput: Option<SessionState>, processed: Option<SessionState>)

  /** The caller's `process` step: its context, the attempt's entropy and the record read
      from the cookie, to a new context and a replacement record (`None` = leave as is). */
  type Process<!C> = (C, Entropy, SessionState) -> (C, Option<SessionState>)

  /** The caller's `after` step (a missing `after` is one that returns the context as is). */
  type After<!C> = (C, Entropy, SessionState) -> C

  /** One run of `withCookieLockAccess`, up to the point where it completes or postpones. */
  function TryAccess<C>(lockEnabled: bool, cell: Cookie, env: AttemptEnv,
                        process: Process<C>, after: After<C>, ctx: C): (r: AttemptResult<C>)
    ensures !lockEnabled ==> r.outcome.Completed?
    ensures r.outcome.Completed? ==> r.processInput.Some?
    ensures r.outcome == Postponed(InitialCheck) || r.outcome == Postponed(AcquiredCheck) ==>
      r.ctx == ctx && r.processInput.None? && r.processed.None?
    ensures lockEnabled && r.processInput.Some? ==> Get(r.processInput.value, LockKey) == Some(env.entropy.lockToken)
  {
    var e := env.entropy;
    var current0 := Decode(Seen(cell, env.peers.initial));
    var cell0 := Left(cell, env.peers.initial);
    if !lockEnabled then
      var (ctx1, processed) := process(ctx, e, current0);
      if processed.None? then
        AttemptResult(after(ctx1, e, current0), cell0, Completed(current0), Some(current0), None)
      else
        var p := PersistSession(processed.value, e.now);
        AttemptResult(after(ctx1, e, p.session), p.cookie, Completed(p.session), Some(current0), Some(p.session))
    else if Truthy(Get(current0, LockKey)) then
      // someone holds the lock
      AttemptResult(ctx, cell0, Postponed(InitialCheck), None, None)
    else
      var token := e.lockToken;
      var written := SetSession(Set(current0, LockKey, token));
      var current1 := Decode(Seen(written, env.peers.acquired));
      var cell1 := Left(written, env.peers.acquired);
      if Get(current1, LockKey) != Some(token) then
        // the lock was not acquired
        AttemptResult(ctx, cell1, Postponed(AcquiredCheck), None, None)
      else
        var (ctx1, processed) := process(ctx, e, current1);
        var current2 := Decode(Seen(cell1, env.peers.postProcess));
        var cell2 := Left(cell1, env.peers.postProcess);
        if Get(current2, LockKey) != Some(token) then
          // the lock was taken while processing
          AttemptResult(ctx1, cell2, Postponed(PostProcessCheck), Some(current1), processed)
        else if processed.Some? && IsEmpty(processed.value) then
          // clearing the cookie also releases the lock
          AttemptResult(after(ctx1, e, processed.value), Cleared, Completed(processed.value),
                        Some(current1), processed)
        else
          var p := if processed.Some? then Some(PersistSession(processed.value, e.now)) else None;
          var cell3 := if p.Some? then p.value.cookie else cell2;
          var processedNow := if p.Some? then Some(p.value.session) else None;
          var current3 := Decode(Seen(cell3, env.peers.postPersist));
          var cell4 := Left(cell3, env.peers.postPersist);
          if Get(current3, LockKey) != Some(token) then
            // the lock was taken while persisting
            AttemptResult(ctx1, cell4, Postponed(PostPersistCheck), Some(current1), processedNow)
          else
            var released := Remove(current3, LockKey);
            AttemptResult(after(ctx1, e, released), SetSession(released), Completed(released),
                          Some(current1), processedNow)
  }

  /** A whole `withCookieLockAccess` call: attempts follow one another, each postponement
      retrying with the next environment of the schedule, until one completes or the schedule
      ends (`final` is `None` then). `settle` lets the caller see, after every attempt, the
      processed record as it finally stands. */
  datatype LockRun<C> = LockRun(ctx: C, cookie: Cookie, final: Option<SessionState>, attempts: nat)

  /** One attempt as a function of the cookie cell, the environment and the caller's context;
      `postpone` retries the same one. */
  type Attempt<!C> = (Cookie, AttemptEnv, C) -> AttemptResult<C>

  /** The attempt `withCookieLockAccess` makes with the given flag and callbacks. */
  function AttemptOf<C>(lockEnabled: bool, process: Process<C>, after: After<C>): Attempt<C> {
    (cell, env, ctx) => TryAccess(lockEnabled, cell, env, process, after, ctx)
  }

  /** Where a run stands before an attempt: the cookie cell and the caller's context. */
  datatype RunState<C> = RunState(cell: Cookie, ctx: C)

  /** The state before attempt `k`: where the `k` earlier attempts left the cookie and the
      context, each settled. */
  function StateBefore<C>(attempt: Attempt<C>, settle: (C, Option<SessionState>) -> C,
                          cell: Cookie, schedule: seq<AttemptEnv>, ctx: C, k: nat): RunState<C>
    requires k <= |schedule|
    decreases k
  {
    if k == 0 then RunState(cell, ctx)
    else
      var a := attempt(cell, schedule[0], ctx);
      StateBefore(attempt, settle, a.cookie, schedule[1..], settle(a.ctx, a.processed), k - 1)
  }

  /** Attempt `k` of a run, started from where the earlier attempts left things. */
  function AttemptAt<C>(attempt: Attempt<C>, settle: (C, Option<SessionState>) -> C,
                        cell: Cookie, schedule: seq<AttemptEnv>, ctx: C, k: nat): AttemptResult<C>
    requires k < |schedule|
  {
    var st := StateBefore(attempt, settle, cell, schedule, ctx, k);
    attempt(st.cell, schedule[k], st.ctx)
  }

  /** The first `n` attempts of a run all postpone. */
  predicate PostponedBefore<C>(attempt: Attempt<C>, settle: (C, Option<SessionState>) -> C,
                               cell: Cookie, schedule: seq<AttemptEnv>, ctx: C, n: nat)
    requires n <= |schedule|
    decreases n
  {
    n == 0 ||
      var a := attempt(cell, schedule[0], ctx);
      && a.outcome.Postponed?
      && PostponedBefore(attempt, settle, a.cookie, schedule[1..], settle(a.ctx, a.processed), n - 1)
  }

  /** The retry loop of `withCookieLockAccess`: a run completes with the first attempt that
      completes, every earlier attempt having postponed, and leaves the cookie and context that
      attempt left; a run in which no attempt completes tries every entry of the schedule and
      ends where the last one left. */
  function RunAttempts<C>(attempt: Attempt<C>, settle: (C, Option<SessionState>) -> C,
                          cell: Cookie, schedule: seq<AttemptEnv>, ctx: C): (r: LockRun<C>)
    ensures r.attempts <= |schedule|
    ensures r.final.None? ==>
      && r.attempts == |schedule|
      && PostponedBefore(attempt, settle, cell, schedule, ctx, |schedule|)
    ensures r.final.Some? ==>
      && r.attempts >= 1
      && PostponedBefore(attempt, settle, cell, schedule, ctx, r.attempts - 1)
      && AttemptAt(attempt, settle, cell, schedule, ctx, r.attempts - 1).outcome == Completed(r.final.value)
    ensures RunState(r.cookie, r.ctx) == StateBefore(attempt, settle, cell, schedule, ctx, r.attempts)
    decreases |schedule|
  {
    if |schedule| == 0 then LockRun(ctx, cell, None, 0)
    else
      var a := attempt(cell, schedule[0], ctx);
      var ctx1 := settle(a.ctx, a.processed);
      if a.outcome.Completed? then
        assert AttemptAt(attempt, settle, cell, schedule, ctx, 0) == a;
        LockRun(ctx1, a.cookie, Some(a.outcome.final), 1)
      else
        var rest := RunAttempts(attempt, settle, a.cookie, schedule[1..], ctx1);
        StateShift(attempt, settle, cell, schedule, ctx, rest.attempts);
        if rest.final.Some? then
          AttemptShift(attempt, settle, cell, schedule, ctx, rest.attempts - 1);
          rest.(attempts := rest.attempts + 1)
        else rest.(attempts := rest.attempts + 1)
  }

  /** `withCookieLockAccess`: the retry loop `RunAttempts` over attempts of `TryAccess` with
      the same flag, `process` and `after`; `RunAttempts`, `FirstCompletionEndsRun` and
      `RunCompletesIff` say which attempt ends the run and what it leaves. */
  function WithCookieLockAccess<C>(lockEnabled: bool, cell: Cookie, schedule: seq<AttemptEnv>,
                                   process: Process<C>, after: After<C>,
                                   settle: (C, Option<SessionState>) -> C, ctx: C): (r: LockRun<C>)
    ensures r.attempts <= |schedule|
    ensures r.final.None? ==>
      && r.attempts == |schedule|
      && PostponedBefore(AttemptOf(lockEnabled, process, after), settle, cell, schedule, ctx, |schedule|)
  {
    RunAttempts(AttemptOf(lockEnabled, process, after), settle, cell, schedule, ctx)
  }

  /** The state before attempt `n + 1` of a run is the state before attempt `n` of the run
      that starts after the first attempt. */
  lemma StateShift<C>(attempt: Attempt<C>, settle: (C, Option<SessionState>) -> C,
                      cell: Cookie, schedule: seq<AttemptEnv>, ctx: C, n: nat)
    requires n < |schedule|
    ensures
      var a := attempt(cell, schedule[0], ctx);
      StateBefore(attempt, settle, cell, schedule, ctx, n + 1)
      == StateBefore(attempt, settle, a.cookie, schedule[1..], settle(a.ctx, a.processed), n)
  {
  }

  /** Attempt `n + 1` of a run is attempt `n` of the run that starts after the first attempt. */
  lemma AttemptShift<C>(attempt: Attempt<C>, settle: (C, Option<SessionState>) -> C,
                        cell: Cookie, schedule: seq<AttemptEnv>, ctx: C, n: nat)
    requires n + 1 < |schedule|
    ensures
      var a := attempt(cell, schedule[0], ctx);
      AttemptAt(attempt, settle, cell, schedule, ctx, n + 1)
      == AttemptAt(attempt, settle, a.cookie, schedule[1..], settle(a.ctx, a.processed), n)
  {
    StateShift(attempt, settle, cell, schedule, ctx, n);
    assert schedule[n + 1] == schedule[1..][n];
  }

  // ----- properties -----

  /** `PostponedBefore` in indexed form: attempts 0 to `n - 1` each postpone. */
  lemma {:induction false} PostponedBeforeIff<C>(attempt: Attempt<C>, settle: (C, Option<SessionState>) -> C,
                                                 cell: Cookie, schedule: seq<AttemptEnv>, ctx: C, n: nat)
    requires n <= |schedule|
    ensures PostponedBefore(attempt, settle, cell, schedule, ctx, n) <==>
      forall j :: 0 <= j < n ==> AttemptAt(attempt, settle, cell, schedule, ctx, j).outcome.Postponed?
    decreases n
  {
    if n > 0 {
      var a := attempt(cell, schedule[0], ctx);
      var ctx1 := settle(a.ctx, a.processed);
      PostponedBeforeIff(attempt, settle, a.cookie, schedule[1..], ctx1, n - 1);
      assert AttemptAt(attempt, settle, cell, schedule, ctx, 0) == a;
      forall j | 0 <= j < n - 1
        ensures AttemptAt(attempt, settle, cell, schedule, ctx, j + 1)
                == AttemptAt(attempt, settle, a.cookie, schedule[1..], ctx1, j)
      {
        AttemptShift(attempt, settle, cell, schedule, ctx, j);
      }
      if forall j :: 0 <= j < n ==> AttemptAt(attempt, settle, cell, schedule, ctx, j).outcome.Postponed? {
        forall j | 0 <= j < n - 1
          ensures AttemptAt(attempt, settle, a.cookie, schedule[1..], ctx1, j).outcome.Postponed?
        {
          assert AttemptAt(attempt, settle, cell, schedule, ctx, j + 1).outcome.Postponed?;
        }
      }
      if PostponedBefore(attempt, settle, cell, schedule, ctx, n) {
        forall j | 0 <= j < n
          ensures AttemptAt(attempt, settle, cell, schedule, ctx, j).outcome.Postponed?
        {
          if j > 0 {
            assert AttemptAt(attempt, settle, a.cookie, schedule[1..], ctx1, j - 1).outcome.Postponed?;
          }
        }
      }
    }
  }

  /** The run ends with the first attempt that completes: if attempt `k` completes and every
      earlier one postponed, the run makes `k + 1` attempts, ends with attempt `k`'s record,
      and leaves the cookie and context attempt `k` left. */
  lemma FirstCompletionEndsRun<C>(attempt: Attempt<C>, settle: (C, Option<SessionState>) -> C,
                                  cell: Cookie, schedule: seq<AttemptEnv>, ctx: C, k: nat)
    requires k < |schedule|
    requires forall j :: 0 <= j < k ==> AttemptAt(attempt, settle, cell, schedule, ctx, j).outcome.Postponed?
    requires AttemptAt(attempt, settle, cell, schedule, ctx, k).outcome.Completed?
    ensures
      var r := RunAttempts(attempt, settle, cell, schedule, ctx);
      && r.attempts == k + 1
      && r.final == Some(AttemptAt(attempt, settle, cell, schedule, ctx, k).outcome.final)
      && RunState(r.cookie, r.ctx) == StateBefore(attempt, settle, cell, schedule, ctx, k + 1)
  {
    var r := RunAttempts(attempt, settle, cell, schedule, ctx);
    PostponedBeforeIff(attempt, settle, cell, schedule, ctx, |schedule|);
    assert r.final.Some?;
    PostponedBeforeIff(attempt, settle, cell, schedule, ctx, r.attempts - 1);
    assert r.attempts - 1 == k;
  }

  /** A run ends with a record exactly when one of its attempts completes. */
  lemma RunCompletesIff<C>(attempt: Attempt<C>, settle: (C, Option<SessionState>) -> C,
                           cell: Cookie, schedule: seq<AttemptEnv>, ctx: C)
    ensures RunAttempts(attempt, settle, cell, schedule, ctx).final.Some? <==>
      exists k :: 0 <= k < |schedule| && AttemptAt(attempt, settle, cell, schedule, ctx, k).outcome.Completed?
  {
    var r := RunAttempts(attempt, settle, cell, schedule, ctx);
    if r.final.Some? {
      assert AttemptAt(attempt, settle, cell, schedule, ctx, r.attempts - 1).outcome.Completed?;
    } else {
      PostponedBeforeIff(attempt, settle, cell, schedule, ctx, |schedule|);
    }
  }


  /** A run whose first attempt completes stops there, settled once. */
  lemma CompletedFirstAttempt<C>(lockEnabled: bool, cell: Cookie, schedule: seq<AttemptEnv>,
                                 process: Process<C>, after: After<C>,
                                 settle: (C, Option<SessionState>) -> C, ctx: C)
    requires |schedule| > 0
    requires TryAccess(lockEnabled, cell, schedule[0], process, after, ctx).outcome.Completed?
    ensures
      var a := TryAccess(lockEnabled, cell, schedule[0], process, after, ctx);
      WithCookieLockAccess(lockEnabled, cell, schedule, process, after, settle, ctx)
        == LockRun(settle(a.ctx, a.processed), a.cookie, Some(a.outcome.final), 1)
  {
  }

  lemma LockKeyIsKey()
    ensures IsKey(LockKey)
  {
    assert forall i :: 0 <= i < |LockKey| ==> IsLowerLetter(LockKey[i]);
  }

  /** With the lock off there is one read and no retry: `process` sees the record read, and
      the outcome follows its answer (`undefined`: the cookie is untouched and `after` gets
      the record read; `{}`: the cookie is cleared and `after` gets `{}`; anything else is
      persisted with a fresh expiry and handed to `after`). */
  lemma UnlockedAccess<C>(cell: Cookie, env: AttemptEnv, process: Process<C>, after: After<C>, ctx: C)
    ensures
      var r := TryAccess(false, cell, env, process, after, ctx);
      var read := Decode(Seen(cell, env.peers.initial));
      var answer := process(ctx, env.entropy, read);
      && r.processInput == Some(read)
      && r.outcome.Completed?
      && r.ctx == after(answer.0, env.entropy, r.outcome.final)
      && (answer.1.None? ==> r.cookie == Left(cell, env.peers.initial) && r.outcome.final == read)
      && (answer.1.Some? && IsEmpty(answer.1.value) ==> r.cookie == Cleared && r.outcome.final == [])
      && (answer.1.Some? && !IsEmpty(answer.1.value) ==>
            && Get(r.outcome.final, ExpireKey) == Some(NatToString(env.entropy.now + SessionExpirationDelay))
            && (forall k :: k != ExpireKey ==> Get(r.outcome.final, k) == Get(answer.1.value, k))
            && (WireSafe(answer.1.value) ==> Decode(r.cookie) == r.outcome.final))
  {
  }

  /** With the lock off, an attempt whose `process` answers with a record persists it and
      hands the stamped record to `after`. */
  lemma UnlockedPersists<C>(cell: Cookie, env: AttemptEnv, process: Process<C>, after: After<C>, ctx: C,
                            answer: SessionState)
    requires process(ctx, env.entropy, Decode(Seen(cell, env.peers.initial))).1 == Some(answer)
    ensures
      var read := Decode(Seen(cell, env.peers.initial));
      var ctx1 := process(ctx, env.entropy, read).0;
      var p := PersistSession(answer, env.entropy.now);
      TryAccess(false, cell, env, process, after, ctx)
        == AttemptResult(after(ctx1, env.entropy, p.session), p.cookie, Completed(p.session), Some(read), Some(p.session))
  {
  }

  /** With the lock on, a record that already carries a lock is left alone: nothing is
      processed or written, and the attempt postpones. */
  lemma HeldLockPostpones<C>(cell: Cookie, env: AttemptEnv, process: Process<C>, after: After<C>, ctx: C)
    requires Truthy(Get(Decode(Seen(cell, env.peers.initial)), LockKey))
    ensures
      var r := TryAccess(true, cell, env, process, after, ctx);
      && r.outcome == Postponed(InitialCheck)
      && r.processInput.None?
      && r.ctx == ctx
      && r.cookie == Left(cell, env.peers.initial)
  {
  }

  /** With the lock on, `process` only ever sees a record whose lock is this attempt's
      freshly minted token. */
  lemma ProcessOnlyUnderOwnLock<C>(cell: Cookie, env: AttemptEnv, process: Process<C>, after: After<C>, ctx: C)
    ensures
      var r := TryAccess(true, cell, env, process, after, ctx);
      r.processInput.Some? ==> Get(r.processInput.value, LockKey) == Some(env.entropy.lockToken)
  {
  }

  /** Conversely, when the lock is free and nobody writes during acquisition, the token
      written is the token read back and `process` runs on the record read plus the lock.
      (A decoded value is never empty, so a decoded lock is free exactly when it is absent.) */
  lemma QuietAcquisitionRunsProcess<C>(cell: Cookie, env: AttemptEnv, process: Process<C>, after: After<C>, ctx: C)
    requires Get(Decode(Seen(cell, env.peers.initial)), LockKey).None?
    requires env.peers.acquired.Quiet?
    requires IsValue(env.entropy.lockToken)
    ensures
      var r := TryAccess(true, cell, env, process, after, ctx);
      r.processInput == Some(Set(Decode(Seen(cell, env.peers.initial)), LockKey, env.entropy.lockToken))
  {
    var read := Decode(Seen(cell, env.peers.initial));
    LockKeyIsKey();
    SetWireSafe(read, LockKey, env.entropy.lockToken);
    RoundTrip(Set(read, LockKey, env.entropy.lockToken));
  }

  /** `after` runs exactly when the attempt completes, on the completed record; a postponed
      attempt keeps whatever `process` did to the context and nothing more. */
  lemma AfterOnlyOnCompletion<C>(lockEnabled: bool, cell: Cookie, env: AttemptEnv,
                                 process: Process<C>, after: After<C>, ctx: C)
    ensures
      var r := TryAccess(lockEnabled, cell, env, process, after, ctx);
      var processedCtx := if r.processInput.Some? then process(ctx, env.entropy, r.processInput.value).0 else ctx;
      && (r.outcome.Postponed? ==> r.ctx == processedCtx)
      && (r.outcome.Completed? ==> r.processInput.Some? && r.ctx == after(processedCtx, env.entropy, r.outcome.final))
  {
    var r := TryAccess(lockEnabled, cell, env, process, after, ctx);
    var e := env.entropy;
    var current0 := Decode(Seen(cell, env.peers.initial));
    if !lockEnabled {
      var answer := process(ctx, e, current0);
      assert r.processInput == Some(current0) && r.outcome.Completed?;
      assert r.ctx == after(answer.0, e, r.outcome.final);
    } else if Truthy(Get(current0, LockKey)) {
      assert r.ctx == ctx && r.outcome.Postponed?;
    } else {
      var written := SetSession(Set(current0, LockKey, e.lockToken));
      var current1 := Decode(Seen(written, env.peers.acquired));
      var cell1 := Left(written, env.peers.acquired);
      if Get(current1, LockKey) != Some(e.lockToken) {
        assert r.ctx == ctx && r.outcome.Postponed?;
      } else {
        var answer := process(ctx, e, current1);
        assert r.processInput == Some(current1);
        var current2 := Decode(Seen(cell1, env.peers.postProcess));
        if Get(current2, LockKey) != Some(e.lockToken) {
          assert r.ctx == answer.0 && r.outcome.Postponed?;
        } else if answer.1.Some? && IsEmpty(answer.1.value) {
          assert r.ctx == after(answer.0, e, r.outcome.final);
        } else {
          assert r.outcome.Postponed? ==> r.ctx == answer.0;
          assert r.outcome.Completed? ==> r.ctx == after(answer.0, e, r.outcome.final);
        }
      }
    }
  }

  /** With the lock on, a completed attempt leaves no lock behind: the record handed to
      `after` has no lock field and is exactly what the cookie now holds. */
  lemma LockedCompletionReleases<C>(cell: Cookie, env: AttemptEnv, process: Process<C>, after: After<C>, ctx: C)
    ensures
      var r := TryAccess(true, cell, env, process, after, ctx);
      r.outcome.Completed? ==> Get(r.outcome.final, LockKey).None? && Decode(r.cookie) == r.outcome.final
  {
    var r := TryAccess(true, cell, env, process, after, ctx);
    if r.outcome.Completed? && !IsEmpty(r.outcome.final) {
      var final := r.outcome.final;
      assert r.cookie == SetSession(final);
      assert exists s :: WireSafe(s) && final == Remove(s, LockKey);
      var s :| WireSafe(s) && final == Remove(s, LockKey);
      RemoveWireSafe(s, LockKey);
      RoundTrip(final);
    }
  }

  /** With the lock on, once the lock is acquired (the cookie is read free, and the record
      read back holds this attempt's token), a non-empty processed record that drops the lock
      field always postpones when the cookie is read back after persisting, and `after` is
      not called. */
  lemma DroppedLockPostpones<C>(cell: Cookie, env: AttemptEnv, process: Process<C>, after: After<C>, ctx: C)
    requires Get(Decode(Seen(cell, env.peers.initial)), LockKey).None?
    requires
      var written := SetSession(Set(Decode(Seen(cell, env.peers.initial)), LockKey, env.entropy.lockToken));
      var input := Decode(Seen(written, env.peers.acquired));
      var answer := process(ctx, env.entropy, input).1;
      && Get(input, LockKey) == Some(env.entropy.lockToken)
      && answer.Some? && !IsEmpty(answer.value) && WireSafe(answer.value) && Get(answer.value, LockKey).None?
    requires env.peers.postPersist.Quiet?
    ensures
      var r := TryAccess(true, cell, env, process, after, ctx);
      && r.outcome.Postponed?
      && r.ctx == process(ctx, env.entropy, r.processInput.value).0
  {
    var r := TryAccess(true, cell, env, process, after, ctx);
    var e := env.entropy;
    var current0 := Decode(Seen(cell, env.peers.initial));
    var written := SetSession(Set(current0, LockKey, e.lockToken));
    var current1 := Decode(Seen(written, env.peers.acquired));
    assert Get(current1, LockKey) == Some(e.lockToken);
    assert r.processInput == Some(current1);
    var answer := process(ctx, e, current1);
    var current2 := Decode(Seen(Left(written, env.peers.acquired), env.peers.postProcess));
    if Get(current2, LockKey) == Some(e.lockToken) {
      var p := PersistSession(answer.1.value, e.now);
      assert Get(p.session, LockKey).None?;
      assert Decode(Seen(p.cookie, env.peers.postPersist)) == p.session;
      assert r.outcome == Postponed(PostPersistCheck);
    }
  }

  /** An undisturbed locked attempt on a free cookie, whose `process` carries the lock forward
      as given, completes: the record read reaches `process` with the lock added, and the
      cookie and `after` end up with the processed record, stamped with a fresh expiry and
      without the lock. */
  lemma QuietLockedAccess<C>(cell: Cookie, entropy: Entropy, process: Process<C>, after: After<C>, ctx: C)
    requires Get(Decode(cell), LockKey).None?
    requires IsValue(entropy.lockToken)
    requires
      var answer := process(ctx, entropy, Set(Decode(cell), LockKey, entropy.lockToken)).1;
      answer.Some? ==> WireSafe(answer.value) && (!IsEmpty(answer.value) ==> Get(answer.value, LockKey) == Some(entropy.lockToken))
    ensures
      var r := TryAccess(true, cell, AttemptEnv(entropy, NoInterference), process, after, ctx);
      var input := Set(Decode(cell), LockKey, entropy.lockToken);
      var answer := process(ctx, entropy, input).1;
      && r.processInput == Some(input)
      && r.outcome.Completed?
      && Decode(r.cookie) == r.outcome.final
      && Get(r.outcome.final, LockKey).None?
      && (answer.None? ==> r.outcome.final == Decode(cell))
      && (answer.Some? && IsEmpty(answer.value) ==> r.cookie == Cleared && r.outcome.final == [])
      && (answer.Some? && !IsEmpty(answer.value) ==>
            && Get(r.outcome.final, ExpireKey) == Some(NatToString(entropy.now + SessionExpirationDelay))
            && (forall k :: k != ExpireKey && k != LockKey ==> Get(r.outcome.final, k) == Get(answer.value, k)))
  {
    var env := AttemptEnv(entropy, NoInterference);
    var read := Decode(cell);
    var input := Set(read, LockKey, entropy.lockToken);
    LockKeyIsKey();
    SetWireSafe(read, LockKey, entropy.lockToken);
    RoundTrip(input);
    QuietAcquisitionRunsProcess(cell, env, process, after, ctx);
    LockedCompletionReleases(cell, env, process, after, ctx);
    var answer := process(ctx, entropy, input).1;
    if answer.None? {
      RemoveAfterSet(read, LockKey, entropy.lockToken);
    } else if !IsEmpty(answer.value) {
      var p := PersistSession(answer.value, entropy.now);
      assert Decode(p.cookie) == p.session;
    }
  }

  /** The `process` of the retry scenario: the record it is given plus a `processed` entry. */
  function MarkProcessed<C>(ctx: C, e: Entropy, s: SessionState): (C, Option<SessionState>) {
    (ctx, Some(Set(s, "processed", "processed")))
  }

  /** Interference at one checkpoint only. */
  function ConflictAt(c: Checkpoint, w: PeerWrite): Interference {
    match c
    case InitialCheck => NoInterference.(initial := w)
    case AcquiredCheck => NoInterference.(acquired := w)
    case PostProcessCheck => NoInterference.(postProcess := w)
    case PostPersistCheck => NoInterference.(postPersist := w)
  }

  lemma LiteralsAreWireSafe()
    ensures IsKey(LockKey)
    ensures IsValue("locked")
    ensures IsKey("processed") && IsValue("processed")
  {
    LockKeyIsKey();
    assert forall i :: 0 <= i < |"locked"| ==> IsLowerLetter("locked"[i]);
    assert forall i :: 0 <= i < |"processed"| ==> IsLowerLetter("processed"[i]);
  }

  /** The facts every conflict case shares: the peer's "locked" record reads back with the
      foreign lock, and this tab's lock write reads back with its own token. */
  lemma ConflictFacts(cell: Cookie, locked: SessionState, entropy: Entropy)
    requires IsValue(entropy.lockToken)
    requires WireSafe(locked)
    ensures Get(Decode(LockedByPeer(locked)), LockKey) == Some("locked")
    ensures Decode(SetSession(Set(Decode(cell), LockKey, entropy.lockToken)))
            == Set(Decode(cell), LockKey, entropy.lockToken)
    ensures WireSafe(Set(Set(Decode(cell), LockKey, entropy.lockToken), "processed", "processed"))
  {
    LiteralsAreWireSafe();
    SetWireSafe(locked, LockKey, "locked");
    RoundTrip(Set(locked, LockKey, "locked"));
    var input := Set(Decode(cell), LockKey, entropy.lockToken);
    SetWireSafe(Decode(cell), LockKey, entropy.lockToken);
    RoundTrip(input);
    SetWireSafe(input, "processed", "processed");
  }

  /** The record a conflicting peer shows: the given one, held under the peer's lock. */
  function LockedByPeer(locked: SessionState): Cookie {
    SetSession(Set(locked, LockKey, "locked"))
  }

  lemma ConflictAtInitial<C>(cell: Cookie, locked: SessionState, peer: SessionState,
                             entropy: Entropy, after: After<C>, ctx: C)
    requires IsValue(entropy.lockToken) && WireSafe(locked)
    ensures
      var env := AttemptEnv(entropy, ConflictAt(InitialCheck, Overwrite(LockedByPeer(locked), SetSession(peer))));
      var r := TryAccess(true, cell, env, MarkProcessed<C>, after, ctx);
      r.outcome == Postponed(InitialCheck) && r.cookie == SetSession(peer)
  {
    ConflictFacts(cell, locked, entropy);
  }

  lemma ConflictAtAcquired<C>(cell: Cookie, locked: SessionState, peer: SessionState,
                              entropy: Entropy, after: After<C>, ctx: C)
    requires Get(Decode(cell), LockKey).None?
    requires IsValue(entropy.lockToken) && entropy.lockToken != "locked" && WireSafe(locked)
    ensures
      var env := AttemptEnv(entropy, ConflictAt(AcquiredCheck, Overwrite(LockedByPeer(locked), SetSession(peer))));
      var r := TryAccess(true, cell, env, MarkProcessed<C>, after, ctx);
      r.outcome == Postponed(AcquiredCheck) && r.cookie == SetSession(peer)
  {
    ConflictFacts(cell, locked, entropy);
  }

  lemma ConflictAtPostProcess<C>(cell: Cookie, locked: SessionState, peer: SessionState,
                                 entropy: Entropy, after: After<C>, ctx: C)
    requires Get(Decode(cell), LockKey).None?
    requires IsValue(entropy.lockToken) && entropy.lockToken != "locked" && WireSafe(locked)
    ensures
      var env := AttemptEnv(entropy, ConflictAt(PostProcessCheck, Overwrite(LockedByPeer(locked), SetSession(peer))));
      var r := TryAccess(true, cell, env, MarkProcessed<C>, after, ctx);
      r.outcome == Postponed(PostProcessCheck) && r.cookie == SetSession(peer)
  {
    ConflictFacts(cell, locked, entropy);
    var w := Overwrite(LockedByPeer(locked), SetSession(peer));
    var env := AttemptEnv(entropy, ConflictAt(PostProcessCheck, w));
    assert ConflictAt(PostProcessCheck, w) == NoInterference.(postProcess := w);
    var input := Set(Decode(cell), LockKey, entropy.lockToken);
    assert Seen(SetSession(input), w) == LockedByPeer(locked);
    LockLostAfterProcess(cell, env, MarkProcessed<C>, after, ctx, input);
  }

  /** A locked attempt undisturbed until it holds the lock, that reads back someone else's
      lock after processing, postpones at the post-process check. */
  lemma LockLostAfterProcess<C>(cell: Cookie, env: AttemptEnv, process: Process<C>, after: After<C>, ctx: C,
                                input: SessionState)
    requires env.peers.initial.Quiet? && env.peers.acquired.Quiet?
    requires Get(Decode(cell), LockKey).None?
    requires input == Set(Decode(cell), LockKey, env.entropy.lockToken)
    requires Decode(SetSession(input)) == input
    requires Get(Decode(Seen(SetSession(input), env.peers.postProcess)), LockKey) != Some(env.entropy.lockToken)
    ensures
      var r := TryAccess(true, cell, env, process, after, ctx);
      && r.outcome == Postponed(PostProcessCheck)
      && r.cookie == Left(SetSession(input), env.peers.postProcess)
      && r.processInput == Some(input)
  {
    var r := TryAccess(true, cell, env, process, after, ctx);
    assert Get(input, LockKey) == Some(env.entropy.lockToken);
    assert r.processInput == Some(input);
  }

  /** A locked attempt undisturbed up to the post-process check, with a record to persist,
      that then reads back someone else's lock postpones at the post-persist check. */
  lemma LockLostAfterPersist<C>(cell: Cookie, env: AttemptEnv, process: Process<C>, after: After<C>, ctx: C,
                                 input: SessionState, answer: SessionState)
    requires env.peers.initial.Quiet? && env.peers.acquired.Quiet? && env.peers.postProcess.Quiet?
    requires Get(Decode(cell), LockKey).None?
    requires input == Set(Decode(cell), LockKey, env.entropy.lockToken)
    requires Decode(SetSession(input)) == input
    requires process(ctx, env.entropy, input).1 == Some(answer) && !IsEmpty(answer)
    requires
      var p := PersistSession(answer, env.entropy.now);
      Get(Decode(Seen(p.cookie, env.peers.postPersist)), LockKey) != Some(env.entropy.lockToken)
    ensures
      var r := TryAccess(true, cell, env, process, after, ctx);
      var p := PersistSession(answer, env.entropy.now);
      && r.outcome == Postponed(PostPersistCheck) && r.cookie == Left(p.cookie, env.peers.postPersist)
      && r.ctx == process(ctx, env.entropy, input).0
  {
    var r := TryAccess(true, cell, env, process, after, ctx);
    assert Get(input, LockKey) == Some(env.entropy.lockToken);
    assert r.processInput == Some(input);
  }

  lemma ConflictAtPostPersist<C>(cell: Cookie, locked: SessionState, peer: SessionState,
                                 entropy: Entropy, after: After<C>, ctx: C)
    requires Get(Decode(cell), LockKey).None?
    requires IsValue(entropy.lockToken) && entropy.lockToken != "locked" && WireSafe(locked)
    ensures
      var env := AttemptEnv(entropy, ConflictAt(PostPersistCheck, Overwrite(LockedByPeer(locked), SetSession(peer))));
      var r := TryAccess(true, cell, env, MarkProcessed<C>, after, ctx);
      r.outcome == Postponed(PostPersistCheck) && r.cookie == SetSession(peer)
  {
    ConflictFacts(cell, locked, entropy);
    var w := Overwrite(LockedByPeer(locked), SetSession(peer));
    var env := AttemptEnv(entropy, NoInterference.(postPersist := w));
    assert ConflictAt(PostPersistCheck, w) == NoInterference.(postPersist := w);
    var input := Set(Decode(cell), LockKey, entropy.lockToken);
    var processed := Set(input, "processed", "processed");
    assert MarkProcessed(ctx, entropy, input).1 == Some(processed);
    assert Get(processed, LockKey).Some?;
    var p := PersistSession(processed, entropy.now);
    assert Seen(p.cookie, w) == LockedByPeer(locked) && Left(p.cookie, w) == SetSession(peer);
    LockLostAfterPersist(cell, env, MarkProcessed<C>, after, ctx, input, processed);
  }

  /** The peer's write at any of the four checkpoints makes the first attempt postpone at
      that checkpoint, leaving the peer's record in the cookie. */
  lemma ConflictPostpones<C>(c: Checkpoint, cell: Cookie, locked: SessionState, peer: SessionState,
                             entropy: Entropy, after: After<C>, ctx: C)
    requires Get(Decode(cell), LockKey).None?
    requires IsValue(entropy.lockToken) && entropy.lockToken != "locked"
    requires WireSafe(locked)
    ensures
      var env := AttemptEnv(entropy, ConflictAt(c, Overwrite(LockedByPeer(locked), SetSession(peer))));
      var r := TryAccess(true, cell, env, MarkProcessed<C>, after, ctx);
      r.outcome == Postponed(c) && r.cookie == SetSession(peer)
  {
    match c
    case InitialCheck => ConflictAtInitial(cell, locked, peer, entropy, after, ctx);
    case AcquiredCheck => ConflictAtAcquired(cell, locked, peer, entropy, after, ctx);
    case PostProcessCheck => ConflictAtPostProcess(cell, locked, peer, entropy, after, ctx);
    case PostPersistCheck => ConflictAtPostPersist(cell, locked, peer, entropy, after, ctx);
  }

  /** The retry after a conflict: an undisturbed locked attempt on the peer's unlocked record
      processes it under this tab's lock and completes with the peer's fields, the `processed`
      entry and a fresh expiry, and no lock. */
  lemma RetryCompletes<C>(peer: SessionState, second: Entropy, after: After<C>, ctx: C)
    requires IsValue(second.lockToken) && WireSafe(peer) && Get(peer, LockKey).None?
    ensures
      var a := TryAccess(true, SetSession(peer), AttemptEnv(second, NoInterference), MarkProcessed<C>, after, ctx);
      && a.processInput == Some(Set(peer, LockKey, second.lockToken))
      && a.outcome.Completed?
      && Decode(a.cookie) == a.outcome.final
      && Get(a.outcome.final, LockKey).None?
      && Get(a.outcome.final, "processed") == Some("processed")
      && Get(a.outcome.final, ExpireKey) == Some(NatToString(second.now + SessionExpirationDelay))
      && (forall k :: k != LockKey && k != ExpireKey && k != "processed" ==> Get(a.outcome.final, k) == Get(peer, k))
  {
    RoundTrip(peer);
    var input := Set(peer, LockKey, second.lockToken);
    LiteralsAreWireSafe();
    SetWireSafe(peer, LockKey, second.lockToken);
    SetWireSafe(input, "processed", "processed");
    QuietLockedAccess(SetSession(peer), second, MarkProcessed<C>, after, ctx);
  }

  /** The lock-conflict scenarios: whichever checkpoint a peer disturbs, the retry's `process`
      sees the peer's record, and the run completes with both the peer's fields and the
      processed one, unlocked, in the cookie and in the record handed to `after`. */
  lemma ConflictThenRetry<C>(c: Checkpoint, cell: Cookie, locked: SessionState, peer: SessionState,
                             first: Entropy, second: Entropy, after: After<C>,
                             settle: (C, Option<SessionState>) -> C, ctx: C)
    requires Get(Decode(cell), LockKey).None?
    requires IsValue(first.lockToken) && first.lockToken != "locked" && IsValue(second.lockToken)
    requires WireSafe(locked) && WireSafe(peer) && Get(peer, LockKey).None?
    ensures
      var w := Overwrite(LockedByPeer(locked), SetSession(peer));
      var schedule := [AttemptEnv(first, ConflictAt(c, w)), AttemptEnv(second, NoInterference)];
      var r := WithCookieLockAccess(true, cell, schedule, MarkProcessed<C>, after, settle, ctx);
      && r.attempts == 2
      && r.final.Some?
      && Decode(r.cookie) == r.final.value
      && Get(r.final.value, LockKey).None?
      && Get(r.final.value, "processed") == Some("processed")
      && Get(r.final.value, ExpireKey) == Some(NatToString(second.now + SessionExpirationDelay))
      && (forall k :: k != LockKey && k != ExpireKey && k != "processed" ==> Get(r.final.value, k) == Get(peer, k))
    ensures
      var retry := TryAccess(true, SetSession(peer), AttemptEnv(second, NoInterference), MarkProcessed<C>, after, ctx);
      retry.processInput == Some(Set(peer, LockKey, second.lockToken))
  {
    var w := Overwrite(LockedByPeer(locked), SetSession(peer));
    var schedule := [AttemptEnv(first, ConflictAt(c, w)), AttemptEnv(second, NoInterference)];
    ConflictPostpones(c, cell, locked, peer, first, after, ctx);
    var a := TryAccess(true, cell, schedule[0], MarkProcessed<C>, after, ctx);
    var ctx1 := settle(a.ctx, a.processed);
    RetryCompletes(peer, second, after, ctx1);
    RetryCompletes(peer, second, after, ctx);
    assert schedule[1..] == [AttemptEnv(second, NoInterference)];
    CompletedFirstAttempt(true, SetSession(peer), schedule[1..], MarkProcessed<C>, after, settle, ctx1);
  }
}
