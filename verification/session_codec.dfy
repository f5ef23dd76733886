/** The cookie wire format of a session record: `key=value` entries joined by `&`, keys of
    lower-case letters, values of lower-case letters, digits and hyphens. Decoding is
    permissive: anything that does not look like an entry is dropped, never an error. */
module SessionCodec {
  import opened Text
  import opened Sessions

  const EntrySeparator: char := '&'

  /** A key the entry pattern `^([a-z]+)=([a-z0-9-]+)$` accepts. */
  predicate IsKey(k: string) {
    |k| > 0 && forall i :: 0 <= i < |k| ==> IsLowerLetter(k[i])
  }

  /** A value the entry pattern accepts. */
  predicate IsValue(v: string) {
    |v| > 0 && forall i :: 0 <= i < |v| ==> IsLowerLetter(v[i]) || IsDigit(v[i]) || v[i] == '-'
  }

  /** A record the wire format can carry unchanged. */
  predicate WireSafe(s: SessionState) {
    && UniqueKeys(s)
    && forall i :: 0 <= i < |s| ==> IsKey(s[i].0) && IsValue(s[i].1)
  }

  /** The text of one entry. */
  function EntryText(e: Entry): string {
    e.0 + "=" + e.1
  }

  /** The entries' texts, in order. */
  function EntryTexts(s: SessionState): (texts: seq<string>)
    ensures |texts| == |s|
    ensures forall i :: 0 <= i < |s| ==> texts[i] == EntryText(s[i])
  {
    seq(|s|, i requires 0 <= i < |s| => EntryText(s[i]))
  }

  /** `toSessionString`: every entry as `key=value`, in order, joined by `&`. */
  function Encode(s: SessionState): (text: string)
    ensures text == "" <==> IsEmpty(s)
  {
    Join(EntryTexts(s), EntrySeparator)
  }

  /** Matches one segment against `^([a-z]+)=([a-z0-9-]+)$`; the key cannot contain `=`, so
      the match, when there is one, splits at the first `=`. */
  function ParseEntry(segment: string): (r: Option<Entry>)
    ensures r.Some? ==> IsKey(r.value.0) && IsValue(r.value.1) && segment == EntryText(r.value)
  {
    match IndexOf(segment, '=')
    case None => None
    case Some(i) =>
      var key := segment[..i];
      var value := segment[i + 1..];
      if IsKey(key) && IsValue(value) then
        assert segment == key + "=" + value;
        Some((key, value))
      else None
  }

  /** `isValidSessionString`: a defined string that holds a separator or is a single entry. */
  predicate IsValidSessionString(text: Option<string>) {
    text.Some? && (EntrySeparator in text.value || ParseEntry(text.value).Some?)
  }

  /** The `forEach` over the segments: each matching segment writes its entry, in order. */
  function DecodeSegments(segments: seq<string>): (s: SessionState)
    ensures WireSafe(s)
    decreases |segments|
  {
    if |segments| == 0 then []
    else
      var before := DecodeSegments(segments[..|segments| - 1]);
      match ParseEntry(segments[|segments| - 1])
      case None => before
      case Some(e) => Set(before, e.0, e.1)
  }

  /** `retrieveSession` on the cookie's content (`None` when there is no cookie). */
  function Decode(cookie: Option<string>): (s: SessionState)
    ensures WireSafe(s)
  {
    if IsValidSessionString(cookie) then DecodeSegments(Split(cookie.value, EntrySeparator))
    else []
  }

  /** The value of the last segment that matches the entry pattern with key `k`. */
  function LastMatch(segments: seq<string>, k: string): Option<string>
    decreases |segments|
  {
    if |segments| == 0 then None
    else
      var e := ParseEntry(segments[|segments| - 1]);
      if e.Some? && e.value.0 == k then Some(e.value.1)
      else LastMatch(segments[..|segments| - 1], k)
  }

  // ----- properties -----

  /** Writing a well-formed entry keeps a record wire-safe. */
  lemma SetWireSafe(s: SessionState, k: string, v: string)
    requires WireSafe(s) && IsKey(k) && IsValue(v)
    ensures WireSafe(Set(s, k, v))
  {
    var r := Set(s, k, v);
    forall i | 0 <= i < |r|
      ensures IsKey(r[i].0) && IsValue(r[i].1)
    {
      if r[i] != (k, v) {
        var j :| 0 <= j < |s| && s[j] == r[i];
      }
    }
  }

  /** Deleting a key keeps a record wire-safe. */
  lemma RemoveWireSafe(s: SessionState, k: string)
    requires WireSafe(s)
    ensures WireSafe(Remove(s, k))
  {
    var r := Remove(s, k);
    forall i | 0 <= i < |r|
      ensures IsKey(r[i].0) && IsValue(r[i].1)
    {
      var j :| 0 <= j < |s| && s[j] == r[i];
    }
  }

  /** A decoded key holds the value of the last matching segment for that key: earlier
      duplicates are overwritten and non-matching segments contribute nothing. */
  lemma {:induction false} DecodeLastMatchWins(segments: seq<string>, k: string)
    ensures Get(DecodeSegments(segments), k) == LastMatch(segments, k)
    decreases |segments|
  {
    if |segments| > 0 {
      DecodeLastMatchWins(segments[..|segments| - 1], k);
    }
  }

  /** On a defined string the `isValidSessionString` gate changes nothing: whatever it turns
      away would have decoded to the empty record anyway. */
  lemma GateIsRedundant(text: string)
    ensures Decode(Some(text)) == DecodeSegments(Split(text, EntrySeparator))
  {
    if !IsValidSessionString(Some(text)) {
      SplitWithoutSeparator(text, EntrySeparator);
      var segments := Split(text, EntrySeparator);
      assert segments[..0] == [];
    }
  }

  lemma EntryTextHasNoSeparator(e: Entry)
    requires IsKey(e.0) && IsValue(e.1)
    ensures EntrySeparator !in EntryText(e)
  {
    var t := EntryText(e);
    forall i | 0 <= i < |t|
      ensures t[i] != EntrySeparator
    {
      if i < |e.0| {
        assert t[i] == e.0[i];
      } else if i > |e.0| {
        assert t[i] == e.1[i - |e.0| - 1];
      }
    }
  }

  lemma ParseEntryOfEntryText(e: Entry)
    requires IsKey(e.0) && IsValue(e.1)
    ensures ParseEntry(EntryText(e)) == Some(e)
  {
    var t := EntryText(e);
    assert t[|e.0|] == '=';
    assert t[..|e.0|] == e.0;
    assert t[|e.0| + 1..] == e.1;
    assert '=' !in e.0 by {
      forall i | 0 <= i < |e.0| ensures e.0[i] != '=' {
        assert IsLowerLetter(e.0[i]);
      }
    }
  }

  /** The entry pattern accepts exactly the `key=value` texts of well-formed entries. */
  lemma ParseEntryIff(segment: string, e: Entry)
    ensures ParseEntry(segment) == Some(e) <==> IsKey(e.0) && IsValue(e.1) && segment == EntryText(e)
  {
    if IsKey(e.0) && IsValue(e.1) && segment == EntryText(e) {
      ParseEntryOfEntryText(e);
    }
  }

  /** Encoding emits one `key=value` segment per entry, in order, separated by `&`. */
  lemma EncodeSegments(s: SessionState)
    requires WireSafe(s)
    requires !IsEmpty(s)
    ensures Split(Encode(s), EntrySeparator) == EntryTexts(s)
  {
    var texts := EntryTexts(s);
    forall i | 0 <= i < |texts|
      ensures EntrySeparator !in texts[i]
    {
      EntryTextHasNoSeparator(s[i]);
    }
    SplitJoin(texts, EntrySeparator);
  }

  lemma {:induction false} DecodeEntryTexts(s: SessionState)
    requires WireSafe(s)
    ensures DecodeSegments(EntryTexts(s)) == s
    decreases |s|
  {
    if |s| > 0 {
      var n := |s| - 1;
      var init := s[..n];
      assert s == init + [s[n]];
      UniqueKeysAppend(init, [s[n]]);
      assert WireSafe(init);
      assert EntryTexts(s)[..n] == EntryTexts(init);
      DecodeEntryTexts(init);
      ParseEntryOfEntryText(s[n]);
    }
  }

  /** Round trip: decoding the encoding of a wire-safe record gives the record back, entries
      and order included. */
  lemma RoundTrip(s: SessionState)
    requires WireSafe(s)
    ensures Decode(Some(Encode(s))) == s
  {
    if IsEmpty(s) {
      assert Encode(s) == "";
    } else {
      EncodeSegments(s);
      DecodeEntryTexts(s);
      if |s| == 1 {
        ParseEntryOfEntryText(s[0]);
        assert Encode(s) == EntryText(s[0]);
      } else {
        assert Encode(s) == EntryText(s[0]) + [EntrySeparator] + Join(EntryTexts(s)[1..], EntrySeparator);
      }
    }
  }

  /** A timestamp written with `String(n)` is a value the entry pattern accepts. */
  lemma NumberIsValue(n: nat)
    ensures IsValue(NatToString(n))
  {
    var t := NatToString(n);
    assert forall i :: 0 <= i < |t| ==> IsDigit(t[i]);
  }

  /** Garbage never fails: content that is not an entry, or no cookie at all, decodes to the
      empty record. */
  lemma GarbageDecodesEmpty(text: string)
    requires EntrySeparator !in text
    requires forall e: Entry :: text != EntryText(e) || !IsKey(e.0) || !IsValue(e.1)
    ensures Decode(Some(text)) == []
    ensures Decode(None) == []
  {
  }
}
