/** The reply cleaner of the historical-data fetcher. The model's reply is
    stripped of surrounding whitespace; a reply that then opens with a
    ```json fence loses its first 7 and last 3 characters, one that opens
    with a bare ``` fence its first 3 and last 3, and the remainder is
    stripped again. The last three characters are dropped whatever they are. */
module Fences {

  /** Python's `str.isspace` on one character: the characters `str.strip()`
      removes (tab to carriage return, the four information separators,
      space, NEL, no-break space and the Unicode space separators). */
  predicate IsSpace(c: char)
  {
    || ('\t' <= c <= '\r')
    || ('\U{1C}' <= c <= ' ')
    || c == '\U{85}'
    || c == '\U{A0}'
    || c == '\U{1680}'
    || ('\U{2000}' <= c <= '\U{200A}')
    || c == '\U{2028}'
    || c == '\U{2029}'
    || c == '\U{202F}'
    || c == '\U{205F}'
    || c == '\U{3000}'
  }

  predicate AllSpace(s: string)
  {
    forall k :: 0 <= k < |s| ==> IsSpace(s[k])
  }

  /** No whitespace at either end: the shape `str.strip()` leaves. */
  predicate Trimmed(s: string)
  {
    s == [] || (!IsSpace(s[0]) && !IsSpace(s[|s| - 1]))
  }

  /** Python's `s.startswith(p)`. */
  predicate StartsWith(s: string, p: string)
  {
    |p| <= |s| && s[..|p|] == p
  }

  /** Length of the longest all-whitespace prefix. */
  function LeadingSpaces(s: string): (n: nat)
    ensures n <= |s|
    ensures AllSpace(s[..n])
    ensures n < |s| ==> !IsSpace(s[n])
  {
    if |s| > 0 && IsSpace(s[0]) then 1 + LeadingSpaces(s[1..]) else 0
  }

  /** Length of the longest all-whitespace suffix. */
  function TrailingSpaces(s: string): (n: nat)
    ensures n <= |s|
    ensures AllSpace(s[|s| - n..])
    ensures n < |s| ==> !IsSpace(s[|s| - n - 1])
  {
    if |s| > 0 && IsSpace(s[|s| - 1]) then 1 + TrailingSpaces(s[..|s| - 1]) else 0
  }

  /** Python's `str.strip()` with no argument. */
  function Strip(s: string): (r: string)
    ensures |r| <= |s|
    ensures Trimmed(r)
    ensures r == [] <==> AllSpace(s)
  {
    var lead := LeadingSpaces(s);
    var rest := s[lead..];
    assert s == s[..lead] + rest;
    rest[..|rest| - TrailingSpaces(rest)]
  }

  /** A whitespace run of length `i` followed by a non-space character. */
  lemma {:induction false} LeadingSpacesExact(s: string, i: nat)
    requires i < |s| && AllSpace(s[..i]) && !IsSpace(s[i])
    ensures LeadingSpaces(s) == i
  {
    if i > 0 {
      assert s[0] == s[..i][0];
      assert s[1..][..i - 1] == s[..i][1..];
      LeadingSpacesExact(s[1..], i - 1);
    }
  }

  /** A non-space character followed by a whitespace run of length `n`. */
  lemma {:induction false} TrailingSpacesExact(s: string, n: nat)
    requires n < |s| && AllSpace(s[|s| - n..]) && !IsSpace(s[|s| - n - 1])
    ensures TrailingSpaces(s) == n
  {
    if n > 0 {
      assert s[|s| - 1] == s[|s| - n..][n - 1];
      var init := s[..|s| - 1];
      assert init[|init| - (n - 1)..] == s[|s| - n..][..n - 1];
      TrailingSpacesExact(init, n - 1);
    }
  }

  /** A whitespace prefix followed by a whitespace suffix is all whitespace. */
  lemma {:induction false} AllSpaceJoin(s: string, i: nat)
    requires i <= |s| && AllSpace(s[..i]) && AllSpace(s[i..])
    ensures AllSpace(s)
  {
    forall k | 0 <= k < |s| ensures IsSpace(s[k]) {
      if k < i { assert s[k] == s[..i][k]; } else { assert s[k] == s[i..][k - i]; }
    }
  }

  /** Strip removes exactly a whitespace prefix and a whitespace suffix:
      any split of `s` into whitespace, a trimmed middle and whitespace
      has that middle as its stripped form. */
  lemma {:induction false} StripExact(s: string, i: nat, j: nat)
    requires i <= j <= |s|
    requires AllSpace(s[..i]) && AllSpace(s[j..])
    requires Trimmed(s[i..j])
    ensures Strip(s) == s[i..j]
  {
    if i == j {
      AllSpaceJoin(s, i);
    } else {
      assert s[i] == s[i..j][0] && s[j - 1] == s[i..j][j - i - 1];
      StripNonEmpty(s, i, j);
    }
  }

  /** The case of StripExact with a non-empty middle. */
  lemma {:induction false} StripNonEmpty(s: string, i: nat, j: nat)
    requires i < j <= |s|
    requires AllSpace(s[..i]) && AllSpace(s[j..])
    requires !IsSpace(s[i]) && !IsSpace(s[j - 1])
    ensures Strip(s) == s[i..j]
  {
    LeadingSpacesExact(s, i);
    var rest := s[i..];
    assert rest[j - i - 1] == s[j - 1];
    assert rest[|rest| - (|s| - j)..] == s[j..];
    TrailingSpacesExact(rest, |s| - j);
    assert rest[..j - i] == s[i..j];
  }

  /** Stripping twice is stripping once. */
  lemma {:induction false} StripIdempotent(s: string)
    ensures Strip(Strip(s)) == Strip(s)
  {
    var r := Strip(s);
    assert r[..0] == [] && r[|r|..] == [];
    assert r[0..|r|] == r;
    StripExact(r, 0, |r|);
  }

  /** Python's clamping of one slice bound against a string of length `n`. */
  function SliceBound(i: int, n: nat): (b: nat)
    ensures b <= n
    ensures 0 <= i <= n ==> b == i
    ensures i < 0 <= n + i ==> b == n + i
    ensures n + i < 0 ==> b == 0
    ensures n < i ==> b == n
  {
    if i < 0 then (if i + n < 0 then 0 else i + n) else if i > n then n else i
  }

  /** Python's `s[start:stop]` with step 1: the characters from the
      clamped start bound up to the clamped stop bound, none when the stop
      bound does not lie past the start bound. */
  function Slice(s: string, start: int, stop: int): (r: string)
    ensures SliceBound(start, |s|) + |r| <= |s|
    ensures var lo, hi := SliceBound(start, |s|), SliceBound(stop, |s|);
      |r| == if hi < lo then 0 else hi - lo
    ensures forall k :: 0 <= k < |r| ==> r[k] == s[SliceBound(start, |s|) + k]
  {
    var lo, hi := SliceBound(start, |s|), SliceBound(stop, |s|);
    if lo < hi then s[lo..hi] else []
  }

  /** `s[front:-back]` drops exactly `front` leading and `back` trailing
      characters, and is empty once they overlap. */
  lemma {:induction false} SliceDropsEnds(s: string, front: nat, back: int)
    requires front <= |s| && 0 < back
    ensures Slice(s, front, -back) == s[front..if |s| - back < front then front else |s| - back]
  {
  }

  const JsonFence: string := "```json"
  const Fence: string := "```"

  /** The cleaning at the start of the fetcher's reply handling. */
  function Clean(reply: string): (r: string)
    ensures |r| <= |reply|
    ensures Trimmed(r)
  {
    var t := Strip(reply);
    if StartsWith(t, JsonFence) then Strip(Slice(t, 7, -3))
    else if StartsWith(t, Fence) then Strip(Slice(t, 3, -3))
    else t
  }

  /** Every text opening with ```json also opens with a bare fence. */
  lemma {:induction false} JsonFenceIsFence(t: string)
    ensures StartsWith(t, JsonFence) ==> StartsWith(t, Fence)
  {
    if StartsWith(t, JsonFence) {
      assert t[..3] == t[..7][..3];
    }
  }

  /** A reply that opens with no fence is only stripped. */
  lemma {:induction false} CleanUnfenced(reply: string)
    requires !StartsWith(Strip(reply), Fence)
    ensures Clean(reply) == Strip(reply)
  {
    JsonFenceIsFence(Strip(reply));
  }

  /** A ```json reply loses exactly 7 leading and 3 trailing characters of
      its stripped form; this branch is taken even though the text also
      opens with a bare fence. */
  lemma {:induction false} CleanJsonFence(reply: string)
    requires StartsWith(Strip(reply), JsonFence)
    ensures StartsWith(Strip(reply), Fence)
    ensures var t := Strip(reply);
      Clean(reply) == Strip(t[7..if |t| - 3 < 7 then 7 else |t| - 3])
  {
    var t := Strip(reply);
    JsonFenceIsFence(t);
    SliceDropsEnds(t, 7, 3);
  }

  /** A reply that opens with a bare fence but not with ```json loses exactly
      3 leading and 3 trailing characters of its stripped form. */
  lemma {:induction false} CleanBareFence(reply: string)
    requires StartsWith(Strip(reply), Fence) && !StartsWith(Strip(reply), JsonFence)
    ensures var t := Strip(reply);
      Clean(reply) == Strip(t[3..if |t| - 3 < 3 then 3 else |t| - 3])
  {
    var t := Strip(reply);
    SliceDropsEnds(t, 3, 3);
  }

  /** Text that starts and ends with a non-space character is its own strip. */
  lemma {:induction false} StripTrimmed(s: string)
    requires Trimmed(s)
    ensures Strip(s) == s
  {
    assert s[..0] == [] && s[|s|..] == [] && s[0..|s|] == s;
    StripExact(s, 0, |s|);
  }

  /** After a ```json fence the last three characters are dropped without
      looking at them: any three-character tail ending in a non-space
      character goes, fence or not. */
  lemma {:induction false} CleanJsonDropsAnyTail(body: string, tail: string)
    requires |tail| == 3 && !IsSpace(tail[2])
    ensures Clean(JsonFence + body + tail) == Strip(body)
  {
    var t := JsonFence + body + tail;
    assert !IsSpace(t[0]) && t[|t| - 1] == tail[2];
    StripTrimmed(t);
    assert t[..7] == JsonFence;
    CleanJsonFence(t);
    assert t[7..|t| - 3] == body;
  }

  /** After a bare fence the last three characters are dropped likewise. */
  lemma {:induction false} CleanBareDropsAnyTail(body: string, tail: string)
    requires |tail| == 3 && !IsSpace(tail[2])
    requires !StartsWith(Fence + body + tail, JsonFence)
    ensures Clean(Fence + body + tail) == Strip(body)
  {
    var t := Fence + body + tail;
    assert !IsSpace(t[0]) && t[|t| - 1] == tail[2];
    StripTrimmed(t);
    assert t[..3] == Fence;
    CleanBareFence(t);
    assert t[3..|t| - 3] == body;
  }

  /** Round trip: a body wrapped in ```json and ``` cleans to the stripped body. */
  lemma {:induction false} CleanJsonRoundTrip(body: string)
    ensures Clean(JsonFence + body + Fence) == Strip(body)
  {
    CleanJsonDropsAnyTail(body, Fence);
  }

  /** A body wrapped in bare fences reads as ```json only if it starts with `json`. */
  lemma {:induction false} BareFenceNotJson(body: string)
    ensures StartsWith(Fence + body + Fence, JsonFence) ==> StartsWith(body, "json")
  {
    var t := Fence + body + Fence;
    if StartsWith(t, JsonFence) && 4 <= |body| {
      assert body[..4] == t[..7][3..];
    }
    if |body| < 4 && 7 <= |t| {
      assert t[3 + |body|] == '`' && "json"[|body|] != '`';
      assert t[..7][3 + |body|] == t[3 + |body|];
    }
  }

  /** Round trip: a body wrapped in bare fences cleans to the stripped body,
      unless the body itself starts with `json`, which the cleaner then
      takes for the language tag. */
  lemma {:induction false} CleanBareRoundTrip(body: string)
    requires !StartsWith(body, "json")
    ensures Clean(Fence + body + Fence) == Strip(body)
  {
    BareFenceNotJson(body);
    CleanBareDropsAnyTail(body, Fence);
  }
}
