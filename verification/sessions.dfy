/** The session record shared by all tabs: a flat string-keyed object whose entries keep their
    insertion order (the order in which they are written to the cookie), together with the
    session lifetime constants and the activity test. */
module Sessions {
  import opened Text

  /** One `key`/`value` entry of a session record. */
  type Entry = (string, string)

  /** A session record, entries in insertion order. The empty record means "no session". */
  type SessionState = seq<Entry>

  /** A session expires this long after its last persisted touch (15 minutes, in ms). */
  const SessionExpirationDelay: nat := 15 * 60 * 1000

  /** A session ends this long after its creation, whatever the activity (4 hours, in ms). */
  const SessionTimeOutDelay: nat := 4 * 60 * 60 * 1000

  /** Property read `s[k]`: the value of the first entry with key `k`. */
  function Get(s: SessionState, k: string): Option<string>
  {
    if |s| == 0 then None
    else if s[0].0 == k then Some(s[0].1)
    else Get(s[1..], k)
  }

  /** A key `Get` does not find sits at no index of the record. */
  lemma {:induction false} GetNoneAbsent(s: SessionState, k: string)
    ensures Get(s, k).None? ==> forall i :: 0 <= i < |s| ==> s[i].0 != k
  {
    if |s| > 0 && s[0].0 != k {
      GetNoneAbsent(s[1..], k);
      assert forall i :: 1 <= i < |s| ==> s[i] == s[1..][i - 1];
    }
  }

  /** No key appears twice. */
  predicate UniqueKeys(s: SessionState)
  {
    |s| == 0 || (Get(s[1..], s[0].0).None? && UniqueKeys(s[1..]))
  }

  predicate IsEmpty(s: SessionState) {
    |s| == 0
  }

  /** Property write `s[k] = v`: an existing key keeps its place, a new key goes last. */
  function Set(s: SessionState, k: string, v: string): (r: SessionState)
    ensures Get(r, k) == Some(v)
    ensures forall j :: j != k ==> Get(r, j) == Get(s, j)
    ensures UniqueKeys(s) ==> UniqueKeys(r)
    ensures Get(s, k).None? ==> r == s + [(k, v)]
    ensures Get(s, k).Some? ==> |r| == |s|
    ensures forall i :: 0 <= i < |r| ==> r[i] == (k, v) || r[i] in s
    ensures UniqueKeys(s) && Get(s, k).Some? ==>
      forall i :: 0 <= i < |s| ==> r[i] == (if s[i].0 == k then (k, v) else s[i])
  {
    if |s| == 0 then [(k, v)]
    else if s[0].0 == k then
      GetNoneAbsent(s[1..], k);
      [(k, v)] + s[1..]
    else
      var rest := Set(s[1..], k, v);
      assert forall i :: 0 <= i < |rest| ==> rest[i] == (k, v) || rest[i] in s;
      [s[0]] + rest
  }

  /** `delete s[k]`. */
  function Remove(s: SessionState, k: string): (r: SessionState)
    ensures Get(r, k).None?
    ensures forall j :: j != k ==> Get(r, j) == Get(s, j)
    ensures UniqueKeys(s) ==> UniqueKeys(r)
    ensures forall i :: 0 <= i < |r| ==> r[i] in s
  {
    if |s| == 0 then []
    else
      var rest := Remove(s[1..], k);
      assert forall i :: 0 <= i < |rest| ==> rest[i] in s;
      if s[0].0 == k then rest else [s[0]] + rest
  }

  lemma {:induction false} GetAppend(a: SessionState, b: SessionState, k: string)
    ensures Get(a + b, k) == if Get(a, k).Some? then Get(a, k) else Get(b, k)
    decreases |a|
  {
    if |a| > 0 {
      assert (a + b)[1..] == a[1..] + b;
      GetAppend(a[1..], b, k);
    } else {
      assert a + b == b;
    }
  }

  /** In a record with unique keys, an entry's key appears nowhere before it. */
  lemma {:induction false} UniqueKeysAppend(a: SessionState, b: SessionState)
    requires UniqueKeys(a + b)
    ensures UniqueKeys(a)
    ensures |b| > 0 ==> Get(a, b[0].0).None?
    decreases |a|
  {
    if |a| > 0 {
      assert (a + b)[1..] == a[1..] + b;
      UniqueKeysAppend(a[1..], b);
      GetAppend(a[1..], b, a[0].0);
      if |b| > 0 {
        assert Get(b, b[0].0).Some?;
      }
    }
  }

  lemma {:induction false} RemoveAbsent(s: SessionState, k: string)
    requires Get(s, k).None?
    ensures Remove(s, k) == s
    decreases |s|
  {
    if |s| > 0 {
      RemoveAbsent(s[1..], k);
      assert [s[0]] + s[1..] == s;
    }
  }

  /** Writing a new key and deleting it again gives the record back. */
  lemma {:induction false} RemoveAfterSet(s: SessionState, k: string, v: string)
    requires Get(s, k).None?
    ensures Remove(Set(s, k, v), k) == s
    decreases |s|
  {
    if |s| > 0 {
      RemoveAfterSet(s[1..], k, v);
      assert [s[0]] + s[1..] == s;
    }
  }

  /** `isActiveSession`: a recorded creation time at least four hours ago, or a recorded
      expiry time already reached, ends the session; a timestamp that does not read as a
      number (NaN) fails its comparison and ends it too; a missing timestamp never does. */
  predicate IsActiveSession(s: SessionState, now: int)
  {
    && (Get(s, "created").None? || (var c := ParseNumber(Get(s, "created").value);
                                      c.Some? && now - c.value < SessionTimeOutDelay))
    && (Get(s, "expire").None? || (var e := ParseNumber(Get(s, "expire").value);
                                     e.Some? && now < e.value))
  }

  /** Once inactive, a session stays inactive as time goes on. */
  lemma InactiveStaysInactive(s: SessionState, now: int, later: int)
    requires now <= later
    requires !IsActiveSession(s, now)
    ensures !IsActiveSession(s, later)
  {
  }

  /** A session created at `created` and last stamped to expire at `expire` is active exactly
      while it is under four hours old and its expiry has not been reached. */
  lemma ActiveWindow(s: SessionState, created: nat, expire: nat, now: int)
    requires Get(s, "created") == Some(NatToString(created))
    requires Get(s, "expire") == Some(NatToString(expire))
    ensures IsActiveSession(s, now) <==> now < created + SessionTimeOutDelay && now < expire
  {
    ParseNatToString(created);
    ParseNatToString(expire);
  }

  /** A session missing both timestamps is never found inactive. */
  lemma MissingTimestampsStayActive(s: SessionState, now: int)
    requires Get(s, "created").None? && Get(s, "expire").None?
    ensures IsActiveSession(s, now)
  {
  }
}
