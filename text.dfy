/** String helpers standing for the Python built-ins the digest generator
    relies on: `str.find`, `str.rfind`, `str.startswith`, `str.strip` and
    the decimal rendering of integers. */
module Text {

  datatype Option<T> = None | Some(value: T)

  /** `pat` occurs in `s` starting at index `k`, compared character by
      character (`OccursAtSlice` states it as an equality of slices). */
  predicate OccursAt(s: string, pat: string, k: nat)
    decreases |pat|
  {
    k + |pat| <= |s| && (pat == [] || (s[k] == pat[0] && OccursAt(s, pat[1..], k + 1)))
  }

  lemma {:induction false} OccursAtSlice(s: string, pat: string, k: nat)
    ensures OccursAt(s, pat, k) <==> k + |pat| <= |s| && s[k..k + |pat|] == pat
    decreases |pat|
  {
    if pat != [] && k + |pat| <= |s| {
      OccursAtSlice(s, pat[1..], k + 1);
      assert s[k..k + |pat|] == [s[k]] + s[k + 1..k + 1 + |pat[1..]|];
      assert pat == [pat[0]] + pat[1..];
    }
  }

  /** Where `pat` occurs, each of its characters is in `s` at its offset. */
  lemma {:induction false} OccursAtChar(s: string, pat: string, k: nat, m: nat)
    requires OccursAt(s, pat, k) && m < |pat|
    ensures s[k + m] == pat[m]
    decreases m
  {
    if m > 0 {
      OccursAtChar(s, pat[1..], k + 1, m - 1);
    }
  }

  /** No occurrence of `pat` in `s` starts at an index in [lo, hi). */
  predicate NoneStartsIn(s: string, pat: string, lo: nat, hi: nat) {
    forall k :: lo <= k < hi ==> !OccursAt(s, pat, k)
  }

  predicate StartsWith(s: string, prefix: string) {
    OccursAt(s, prefix, 0)
  }

  /** `s.find(pat, from)`: the leftmost occurrence of `pat` at or after
      `from`; `IndexOfSpec` states that it is one. */
  function IndexOf(s: string, pat: string, from: nat): (r: Option<nat>)
    ensures r.Some? ==> from <= r.value && r.value + |pat| <= |s|
    decreases |s| - from
  {
    if |s| < from + |pat| then None
    else if OccursAt(s, pat, from) then Some(from)
    else IndexOf(s, pat, from + 1)
  }

  /** `IndexOf` finds an occurrence with none before it, and finds nothing
      only when there is no occurrence at or after `from`. */
  lemma {:induction false} IndexOfSpec(s: string, pat: string, from: nat)
    ensures IndexOf(s, pat, from).Some? ==> OccursAt(s, pat, IndexOf(s, pat, from).value)
    ensures IndexOf(s, pat, from).Some? ==> NoneStartsIn(s, pat, from, IndexOf(s, pat, from).value)
    ensures IndexOf(s, pat, from).None? ==> forall k :: from <= k ==> !OccursAt(s, pat, k)
    decreases |s| - from
  {
    if from + |pat| <= |s| && !OccursAt(s, pat, from) {
      IndexOfSpec(s, pat, from + 1);
    }
  }

  /** The rightmost occurrence of `pat` that starts below `end`. */
  function LastIndexBelow(s: string, pat: string, end: nat): (r: Option<nat>)
    ensures r.Some? ==> r.value < end && OccursAt(s, pat, r.value)
    ensures r.Some? ==> NoneStartsIn(s, pat, r.value + 1, end)
    ensures r.None? ==> NoneStartsIn(s, pat, 0, end)
  {
    if end == 0 then None
    else if OccursAt(s, pat, end - 1) then Some(end - 1)
    else LastIndexBelow(s, pat, end - 1)
  }

  /** `s.rfind(pat)`: the rightmost occurrence of `pat`, which is where
      `s.rsplit(pat, 1)` cuts. */
  function LastIndexOf(s: string, pat: string): (r: Option<nat>)
    ensures r.Some? ==> OccursAt(s, pat, r.value)
    ensures r.Some? ==> forall k :: r.value < k ==> !OccursAt(s, pat, k)
    ensures r.None? ==> forall k :: !OccursAt(s, pat, k)
  {
    LastIndexBelow(s, pat, |s| + 1)
  }

  /** Occurrences in `s[n..]` are the occurrences in `s` shifted by `n`. */
  lemma {:induction false} OccursDropped(s: string, n: nat, pat: string, k: nat)
    requires n <= |s|
    ensures OccursAt(s, pat, n + k) <==> OccursAt(s[n..], pat, k)
  {
    OccursAtSlice(s, pat, n + k);
    OccursAtSlice(s[n..], pat, k);
    if n + k + |pat| <= |s| {
      assert s[n..][k..k + |pat|] == s[n + k..n + k + |pat|];
    }
  }

  /** A search that starts where nothing occurs for a while finds what the
      search from the end of that stretch finds. */
  lemma {:induction false} IndexOfSkip(s: string, pat: string, from: nat, to: nat)
    requires from <= to && NoneStartsIn(s, pat, from, to)
    ensures IndexOf(s, pat, from) == IndexOf(s, pat, to)
    decreases (to as int) - (from as int)
  {
    if from < to && from + |pat| <= |s| {
      IndexOfSkip(s, pat, from + 1, to);
    }
  }

  /** An index found in `s[n..]`, as an index into `s`. */
  function Shifted(o: Option<nat>, n: nat): Option<nat> {
    match o
    case None => None
    case Some(k) => Some(n + k)
  }

  /** Searching `s` from `n + from` is searching `s[n..]` from `from`. */
  lemma {:induction false} IndexOfDropped(s: string, n: nat, pat: string, from: nat)
    requires n <= |s|
    ensures IndexOf(s, pat, n + from) == Shifted(IndexOf(s[n..], pat, from), n)
    decreases |s| - n - from
  {
    OccursDropped(s, n, pat, from);
    if from + |pat| <= |s| - n && !OccursAt(s[n..], pat, from) {
      IndexOfDropped(s, n, pat, from + 1);
    }
  }

  /** With no `pat` in front of index `n`, searching `s` from its start is
      searching `s[n..]`. */
  lemma {:induction false} IndexOfFromStart(s: string, n: nat, pat: string)
    requires n <= |s| && NoneStartsIn(s, pat, 0, n)
    ensures IndexOf(s, pat, 0) == Shifted(IndexOf(s[n..], pat, 0), n)
  {
    IndexOfSkip(s, pat, 0, n);
    IndexOfDropped(s, n, pat, 0);
    assert n + 0 == n;
  }

  /** Slices of `s[n..]` as slices of `s`. */
  lemma {:induction false} DroppedSlices(s: string, n: nat, i: nat, k: nat)
    requires i <= k && n + k <= |s|
    ensures s[..n + i] == s[..n] + s[n..][..i]
    ensures s[n + i..n + k] == s[n..][i..k]
    ensures s[n..][k..] == s[n + k..]
  {
  }

  /** The four parts of a four-part text, cut out again. */
  lemma {:induction false} PartsOf(t: string, u: string, v: string, w: string)
    ensures (t + u + v + w)[..|t|] == t
    ensures (t + u + v + w)[|t|..|t| + |u|] == u
    ensures (t + u + v + w)[|t| + |u|..|t| + |u| + |v|] == v
    ensures (t + u + v + w)[|t| + |u| + |v|..] == w
  {
    var s := t + u + v + w;
    assert s == t + (u + (v + w));
    assert s[|t|..] == u + (v + w);
    assert s[|t| + |u|..] == v + w;
  }

  /** A pattern that starts with `[` cannot start where there is no `[`. */
  lemma {:induction false} NoBracketNoToken(s: string, pat: string, lo: nat, hi: nat)
    requires |pat| > 0 && pat[0] == '['
    requires forall k :: lo <= k < hi && k < |s| ==> s[k] != '['
    ensures NoneStartsIn(s, pat, lo, hi)
  {
  }

  /** A callout token: a `[` followed by at least one character, none of
      them a `[`. */
  predicate Token(tok: string) {
    |tok| > 1 && tok[0] == '[' && forall i :: 0 < i < |tok| ==> tok[i] != '['
  }

  /** If `s[k+m]` differs from `pat[m]`, `pat` does not start at `k`. */
  lemma {:induction false} Mismatch(s: string, pat: string, k: nat, m: nat)
    requires m < |pat| && k + m < |s| && s[k + m] != pat[m]
    ensures !OccursAt(s, pat, k)
  {
    if OccursAt(s, pat, k) {
      OccursAtChar(s, pat, k, m);
    }
  }

  /** No token starts inside text without `[` that stands in front. */
  lemma {:induction false} PlainPrefix(p: string, r: string, pat: string)
    requires '[' !in p && Token(pat)
    ensures NoneStartsIn(p + r, pat, 0, |p|)
  {
    forall k | 0 <= k < |p|
      ensures !OccursAt(p + r, pat, k)
    {
      assert (p + r)[k] == p[k];
      Mismatch(p + r, pat, k, 0);
    }
  }

  /** No token `pat` starts inside a different token `tok` that stands in
      front: not at its `[`, since the two differ at offset `m`, and not
      after it, where there is no `[`. */
  lemma {:induction false} TokenPrefix(tok: string, r: string, pat: string, m: nat)
    requires Token(tok) && Token(pat) && m < |tok| && m < |pat| && tok[m] != pat[m]
    ensures NoneStartsIn(tok + r, pat, 0, |tok|)
  {
    forall k | 0 <= k < |tok|
      ensures !OccursAt(tok + r, pat, k)
    {
      if k == 0 {
        assert (tok + r)[m] == tok[m];
        Mismatch(tok + r, pat, 0, m);
      } else {
        assert (tok + r)[k] == tok[k];
        Mismatch(tok + r, pat, k, 0);
      }
    }
  }

  /** What holds of the text behind `p` holds of `p + r`, shifted by `|p|`. */
  lemma {:induction false} ShiftNone(p: string, r: string, pat: string, lo: nat, hi: nat)
    requires NoneStartsIn(r, pat, lo, hi)
    ensures NoneStartsIn(p + r, pat, |p| + lo, |p| + hi)
  {
    assert (p + r)[|p|..] == r;
    forall k | |p| + lo <= k < |p| + hi
      ensures !OccursAt(p + r, pat, k)
    {
      OccursDropped(p + r, |p|, pat, k - |p|);
    }
  }

  /** No `pat` starts in `p`, nor in the first `n` characters after it. */
  lemma {:induction false} Layer(p: string, r: string, pat: string, n: nat)
    requires NoneStartsIn(p + r, pat, 0, |p|) && NoneStartsIn(r, pat, 0, n)
    ensures NoneStartsIn(p + r, pat, 0, |p| + n)
  {
    ShiftNone(p, r, pat, 0, n);
  }

  // ---------------------------------------------------------------------
  // Python's str.strip()

  /** The characters for which Python's `str.isspace()` holds, and which
      `str.strip()` with no argument removes. */
  predicate IsSpace(c: char) {
    c == ' ' || '\t' <= c <= '\r' || '\U{1C}' <= c <= '\U{1F}'
    || c == '\U{85}' || c == '\U{A0}' || c == '\U{1680}'
    || '\U{2000}' <= c <= '\U{200A}' || c == '\U{2028}' || c == '\U{2029}'
    || c == '\U{202F}' || c == '\U{205F}' || c == '\U{3000}'
  }

  predicate AllSpace(s: string) {
    forall i :: 0 <= i < |s| ==> IsSpace(s[i])
  }

  lemma {:induction false} SpaceCons(c: char, t: string)
    requires IsSpace(c) && AllSpace(t)
    ensures AllSpace([c] + t)
  {
  }

  lemma {:induction false} SpaceSnoc(t: string, c: char)
    requires AllSpace(t) && IsSpace(c)
    ensures AllSpace(t + [c])
  {
  }

  /** How many white-space characters `s` starts with. */
  function LeadingSpaces(s: string): (n: nat)
    ensures n <= |s| && AllSpace(s[..n])
    ensures n < |s| ==> !IsSpace(s[n])
  {
    if s != [] && IsSpace(s[0]) then
      var n := LeadingSpaces(s[1..]);
      assert s[..n + 1] == [s[0]] + s[1..][..n];
      SpaceCons(s[0], s[1..][..n]);
      n + 1
    else 0
  }

  lemma {:induction false} SuffixSnoc(s: string, n: nat)
    requires n < |s|
    ensures s[|s| - (n + 1)..] == s[..|s| - 1][|s| - 1 - n..] + [s[|s| - 1]]
    ensures n + 1 < |s| ==> s[|s| - (n + 1) - 1] == s[..|s| - 1][|s| - 1 - n - 1]
  {
  }

  /** How many white-space characters `s` ends with. */
  function TrailingSpaces(s: string): (n: nat)
    ensures n <= |s| && AllSpace(s[|s| - n..])
    ensures n < |s| ==> !IsSpace(s[|s| - n - 1])
  {
    if s != [] && IsSpace(s[|s| - 1]) then
      var n := TrailingSpaces(s[..|s| - 1]);
      SuffixSnoc(s, n);
      SpaceSnoc(s[..|s| - 1][|s| - 1 - n..], s[|s| - 1]);
      n + 1
    else 0
  }

  /** `s.lstrip()`: what remains of `s` after its leading white space. */
  function StripLeading(s: string): (r: string)
    ensures |r| <= |s| && r == s[|s| - |r|..]
    ensures AllSpace(s[..|s| - |r|])
    ensures r == [] || !IsSpace(r[0])
  {
    s[LeadingSpaces(s)..]
  }

  /** `s.rstrip()`: what remains of `s` before its trailing white space. */
  function StripTrailing(s: string): (r: string)
    ensures |r| <= |s| && r == s[..|r|]
    ensures AllSpace(s[|r|..])
    ensures r == [] || !IsSpace(r[|r| - 1])
  {
    s[..|s| - TrailingSpaces(s)]
  }

  /** `s.strip()`. */
  function Strip(s: string): string {
    StripTrailing(StripLeading(s))
  }

  /** Leading white space in front of a non-space character is exactly
      what `lstrip` removes. */
  lemma {:induction false} StripLeadingPadded(lead: string, rest: string)
    requires AllSpace(lead)
    requires rest != [] && !IsSpace(rest[0])
    ensures StripLeading(lead + rest) == rest
  {
    var s := lead + rest;
    var l := StripLeading(s);
    var cut := |s| - |l|;
    assert forall c :: 0 <= c < |lead| ==> IsSpace(s[c]);
    assert l != [] ==> l[0] == s[cut];
    assert forall i :: 0 <= i < cut ==> IsSpace(s[..cut][i]);
    assert forall i :: 0 <= i < cut ==> IsSpace(s[i]);
    assert !IsSpace(s[|lead|]);
    assert |l| == |rest|;
    assert s[|lead|..] == rest;
  }

  /** Trailing white space after a non-space character is exactly what
      `rstrip` removes. */
  lemma {:induction false} StripTrailingPadded(rest: string, trail: string)
    requires AllSpace(trail)
    requires rest != [] && !IsSpace(rest[|rest| - 1])
    ensures StripTrailing(rest + trail) == rest
  {
    var s := rest + trail;
    var t := StripTrailing(s);
    assert !IsSpace(s[|rest| - 1]);
    assert forall i :: |rest| <= i < |s| ==> IsSpace(s[i]);
    assert |t| == |rest|;
    assert s[..|rest|] == rest;
  }

  /** Stripping white space, a core that neither starts nor ends with white
      space, and white space gives back exactly the core. */
  lemma {:induction false} StripPadded(lead: string, core: string, trail: string)
    requires AllSpace(lead) && AllSpace(trail)
    requires core != [] && !IsSpace(core[0]) && !IsSpace(core[|core| - 1])
    ensures Strip(lead + core + trail) == core
  {
    assert lead + core + trail == lead + (core + trail);
    StripLeadingPadded(lead, core + trail);
    StripTrailingPadded(core, trail);
  }

  // ---------------------------------------------------------------------
  // Decimal digits

  predicate IsDigit(c: char) {
    '0' <= c <= '9'
  }

  predicate AllDigits(s: string) {
    forall i :: 0 <= i < |s| ==> IsDigit(s[i])
  }

  function DigitChar(d: nat): char
    requires d < 10
  {
    ['0', '1', '2', '3', '4', '5', '6', '7', '8', '9'][d]
  }

  function DigitValue(c: char): nat
    requires IsDigit(c)
  {
    (c as int - '0' as int) as nat
  }

  /** Each digit character reads back as its digit. */
  lemma {:induction false} DigitRoundTrip(d: nat)
    requires d < 10
    ensures IsDigit(DigitChar(d)) && DigitValue(DigitChar(d)) == d
  {
  }

  /** `str(n)` for a non-negative integer: its decimal digits, without
      leading zeros. */
  function Decimal(n: nat): (r: string)
    ensures |r| >= 1 && AllDigits(r)
    ensures r[0] == '0' ==> n == 0
  {
    if n < 10 then [DigitChar(n)] else Decimal(n / 10) + [DigitChar(n % 10)]
  }

  /** The number a string of decimal digits denotes (leading zeros allowed). */
  function DigitsValue(s: string): nat
    requires AllDigits(s)
  {
    if s == [] then 0 else DigitsValue(s[..|s| - 1]) * 10 + DigitValue(s[|s| - 1])
  }

  /** Reading back the digits `Decimal` writes gives the number. */
  lemma {:induction false} DecimalRoundTrip(n: nat)
    ensures DigitsValue(Decimal(n)) == n
  {
    var r := Decimal(n);
    DigitRoundTrip(n % 10);
    if n >= 10 {
      DecimalRoundTrip(n / 10);
      assert r[..|r| - 1] == Decimal(n / 10);
      assert r[|r| - 1] == DigitChar(n % 10);
    }
  }

  function Pow10(k: nat): nat {
    if k == 0 then 1 else 10 * Pow10(k - 1)
  }

  /** A number below 10^w has at most w digits. */
  lemma {:induction false} DecimalWidth(n: nat, w: nat)
    requires n < Pow10(w)
    ensures |Decimal(n)| <= if w == 0 then 1 else w
  {
    if n >= 10 {
      DecimalWidth(n / 10, w - 1);
    }
  }

  function Zeros(k: nat): (r: string)
    ensures |r| == k && AllDigits(r)
  {
    if k == 0 then [] else Zeros(k - 1) + ['0']
  }

  /** The digits of `s` padded on the left with zeros to `width` characters,
      as `%0Nd` formatting does. */
  function ZeroPad(s: string, width: nat): (r: string)
    ensures |s| <= width ==> r == Zeros(width - |s|) + s
    ensures width < |s| ==> r == s
  {
    if width <= |s| then s else Zeros(width - |s|) + s
  }

  /** Leading zeros do not change the value of a digit string. */
  lemma {:induction false} ZerosValue(k: nat, s: string)
    requires AllDigits(s)
    ensures DigitsValue(Zeros(k) + s) == DigitsValue(s)
  {
    if s == [] {
      assert Zeros(k) + s == Zeros(k);
      if k > 0 {
        ZerosValue(k - 1, []);
        assert Zeros(k)[..k - 1] == Zeros(k - 1);
        assert Zeros(k - 1) + [] == Zeros(k - 1);
      }
    } else {
      var init := s[..|s| - 1];
      ZerosValue(k, init);
      assert (Zeros(k) + s)[..|Zeros(k) + s| - 1] == Zeros(k) + init;
    }
  }
}
