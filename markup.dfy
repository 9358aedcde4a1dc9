/** The inline callouts of a story body (`render_story_body`): every
    `[HONEST]…[/HONEST]` becomes a known-facts box, then every
    `[OPENQ]…[/OPENQ]` becomes an open-question note. Each pass is Python's
    `re.sub` with the pattern `open(.*?)close` and `re.DOTALL`, written here
    as the left-to-right scanner such a substitution amounts to: find the
    first opening token, then the first closing token after it, replace,
    and continue after the closing token. */
module Markup {
  import opened Text

  /** One kind of callout: the tokens that delimit it in a story body and
      the markup that takes their place. */
  datatype Callout = Callout(open: string, close: string, before: string, after: string)

  const Honest := Callout("[HONEST]", "[/HONEST]", "<div class=\"honest-line\">", "</div>")
  const OpenQ := Callout("[OPENQ]", "[/OPENQ]", "<div class=\"open-q\">", "</div>")

  predicate WellFormed(c: Callout) {
    |c.open| > 0 && |c.close| > 0
  }

  /** The replacement is longer than the two tokens it replaces, so a
      substitution that replaces anything changes the length. */
  predicate Grows(c: Callout) {
    |c.before| + |c.after| > |c.open| + |c.close|
  }

  /** The regular expression matches `s` from the opening token at `i` to
      the closing token at `j`: `.*?` takes the shortest inner text, so no
      closing token starts between the two. */
  predicate IsMatch(s: string, c: Callout, i: nat, j: nat) {
    OccursAt(s, c.open, i) && i + |c.open| <= j && OccursAt(s, c.close, j)
    && NoneStartsIn(s, c.close, i + |c.open|, j)
  }

  /** Some opening token in `s` is later followed by a closing token. */
  ghost predicate HasSpan(s: string, c: Callout) {
    exists i: nat, j: nat :: OccursAt(s, c.open, i) && i + |c.open| <= j && OccursAt(s, c.close, j)
  }

  /** The scanner's step: the first opening token, then the first closing
      token after it. */
  function NextMatch(s: string, c: Callout): (r: Option<(nat, nat)>)
    ensures r.Some? ==> r.value.0 + |c.open| <= r.value.1 && r.value.1 + |c.close| <= |s|
  {
    match IndexOf(s, c.open, 0)
    case None => None
    case Some(i) =>
      match IndexOf(s, c.close, i + |c.open|)
      case None => None
      case Some(j) => Some((i, j))
  }

  /** The scanner's step is a match of the regular expression: no closing
      token starts inside the inner text. */
  lemma {:induction false} NextMatchIsMatch(s: string, c: Callout)
    requires NextMatch(s, c).Some?
    ensures IsMatch(s, c, NextMatch(s, c).value.0, NextMatch(s, c).value.1)
  {
    IndexOfSpec(s, c.open, 0);
    IndexOfSpec(s, c.close, NextMatch(s, c).value.0 + |c.open|);
  }

  /** The scanner's step is the regular expression's leftmost match: every
      other match starts further right. */
  lemma {:induction false} NextMatchIsLeftmost(s: string, c: Callout, i: nat, j: nat)
    requires NextMatch(s, c).Some? && IsMatch(s, c, i, j)
    ensures NextMatch(s, c).value.0 < i || NextMatch(s, c).value == (i, j)
  {
    var i0 := NextMatch(s, c).value.0;
    IndexOfSpec(s, c.open, 0);
    IndexOfSpec(s, c.close, i0 + |c.open|);
  }

  /** The scanner finds nothing exactly when no opening token is later
      followed by a closing token. */
  lemma {:induction false} NextMatchNoneIff(s: string, c: Callout)
    ensures NextMatch(s, c).None? <==> !HasSpan(s, c)
  {
    IndexOfSpec(s, c.open, 0);
    match IndexOf(s, c.open, 0)
    case None =>
    case Some(i) =>
      IndexOfSpec(s, c.close, i + |c.open|);
      if NextMatch(s, c).Some? {
        var j := NextMatch(s, c).value.1;
        assert OccursAt(s, c.open, i) && i + |c.open| <= j && OccursAt(s, c.close, j);
      }
  }

  /** One substitution pass: each match is replaced by `before`, the inner
      text and `after`; the text around the matches is copied. */
  function Substitute(s: string, c: Callout): string
    requires WellFormed(c)
    decreases |s|
  {
    match NextMatch(s, c)
    case None => s
    case Some((i, j)) =>
      s[..i] + c.before + s[i + |c.open|..j] + c.after + Substitute(s[j + |c.close|..], c)
  }

  /** One step of a pass: the first match is replaced and the pass goes on
      after its closing token. */
  lemma {:induction false} SubstituteAt(s: string, c: Callout, i: nat, j: nat)
    requires WellFormed(c) && NextMatch(s, c) == Some((i, j))
    ensures i + |c.open| <= j && j + |c.close| <= |s|
    ensures Substitute(s, c) == s[..i] + c.before + s[i + |c.open|..j] + c.after + Substitute(s[j + |c.close|..], c)
  {
  }

  /** `render_story_body`: the HONEST pass, then the OPENQ pass on its
      output. */
  function RenderStoryBody(body: string): string {
    Substitute(Substitute(body, Honest), OpenQ)
  }

  // ---------------------------------------------------------------------
  // What one pass does

  /** A pass never shortens the text, and when it replaces something it
      lengthens it. */
  lemma {:induction false} SubstituteLength(s: string, c: Callout)
    requires WellFormed(c) && Grows(c)
    ensures |Substitute(s, c)| >= |s|
    ensures NextMatch(s, c).Some? ==> |Substitute(s, c)| > |s|
    decreases |s|
  {
    match NextMatch(s, c)
    case None =>
    case Some((i, j)) =>
      SubstituteAt(s, c, i, j);
      var tail := s[j + |c.close|..];
      SubstituteLength(tail, c);
      assert |Substitute(s, c)| == i + |c.before| + (j - i - |c.open|) + |c.after| + |Substitute(tail, c)|;
  }

  /** A pass leaves the text unchanged exactly when no opening token is
      later followed by a closing token; in particular an opening token
      with no closing token after it is left as it is. */
  lemma {:induction false} SubstituteUnchangedIff(s: string, c: Callout)
    requires WellFormed(c) && Grows(c)
    ensures Substitute(s, c) == s <==> !HasSpan(s, c)
  {
    SubstituteLength(s, c);
    NextMatchNoneIff(s, c);
  }

  /** With no opening token in front of index `n`, the scanner's step on
      `s` is its step on `s[n..]`, shifted by `n`. */
  lemma {:induction false} NextMatchDropped(s: string, n: nat, c: Callout)
    requires n <= |s| && NoneStartsIn(s, c.open, 0, n)
    ensures NextMatch(s[n..], c).None? ==> NextMatch(s, c).None?
    ensures NextMatch(s[n..], c).Some? ==>
              NextMatch(s, c) == Some((n + NextMatch(s[n..], c).value.0, n + NextMatch(s[n..], c).value.1))
  {
    var rest := s[n..];
    IndexOfFromStart(s, n, c.open);
    match IndexOf(rest, c.open, 0)
    case None =>
    case Some(i) =>
      IndexOfDropped(s, n, c.close, i + |c.open|);
      assert n + (i + |c.open|) == (n + i) + |c.open|;
      match IndexOf(rest, c.close, i + |c.open|)
      case None =>
      case Some(j) =>
        var i', j': nat := n + i, n + j;
        assert NextMatch(s, c) == Some((i', j'));
  }

  /** The pieces a step cuts `s` into, for a match in `s[n..]` shifted by
      `n` to `i'` and `j'`, are `s[..n]` followed by the pieces of `s[n..]`. */
  lemma {:induction false} SplitDropped(s: string, n: nat, i: nat, j: nat, i': nat, j': nat, c: Callout, t: string)
    requires i' == n + i && j' == n + j
    requires i + |c.open| <= j && n + j + |c.close| <= |s|
    ensures s[n..][j + |c.close|..] == s[j' + |c.close|..]
    ensures s[..i'] + c.before + s[i' + |c.open|..j'] + c.after + t
         == s[..n] + (s[n..][..i] + c.before + s[n..][i + |c.open|..j] + c.after + t)
  {
    DroppedSlices(s, n, i, j + |c.close|);
    DroppedSlices(s, n, i + |c.open|, j);
    AppendAssoc6(s[..n], s[n..][..i], c.before, s[n..][i + |c.open|..j], c.after, t);
  }

  /** Concatenation is associative. */
  lemma {:induction false} AppendAssoc6(p: string, a: string, b: string, m: string, e: string, t: string)
    ensures (p + a) + b + m + e + t == p + (a + b + m + e + t)
  {
  }

  /** Text in front of the first opening token is copied, and the rest is
      processed as if it stood alone. */
  lemma {:induction false} SkipPrefix(s: string, n: nat, c: Callout)
    requires WellFormed(c)
    requires n <= |s| && NoneStartsIn(s, c.open, 0, n)
    ensures Substitute(s, c) == s[..n] + Substitute(s[n..], c)
  {
    match NextMatch(s[n..], c)
    case None =>
      NextMatchDropped(s, n, c);
      assert s == s[..n] + s[n..];
    case Some((i, j)) =>
      NextMatchDropped(s, n, c);
      var i', j': nat := n + i, n + j;
      assert NextMatch(s, c) == Some((i', j'));
      SubstituteAt(s[n..], c, i, j);
      SubstituteAt(s, c, i', j');
      SplitDropped(s, n, i, j, i', j', c, Substitute(s[n..][j + |c.close|..], c));
  }

  /** `SkipPrefix` for a text written as the prefix followed by the rest. */
  lemma {:induction false} SkipPrefixConcat(p: string, rest: string, c: Callout)
    requires WellFormed(c)
    requires NoneStartsIn(p + rest, c.open, 0, |p|)
    ensures Substitute(p + rest, c) == p + Substitute(rest, c)
  {
    SkipPrefix(p + rest, |p|, c);
    assert (p + rest)[..|p|] == p;
    assert (p + rest)[|p|..] == rest;
  }

  /** A match that starts at the very beginning is the scanner's step. */
  lemma {:induction false} MatchAtStart(s: string, c: Callout, j: nat)
    requires WellFormed(c) && IsMatch(s, c, 0, j)
    ensures NextMatch(s, c) == Some((0 as nat, j))
  {
    NextMatchNoneIff(s, c);
    NextMatchIsMatch(s, c);
    NextMatchIsLeftmost(s, c, 0, j);
  }

  /** A text that starts with an opening token whose inner text holds no
      closing token: the scanner's step is that first span. */
  lemma {:induction false} SpanAtStart(x: string, rest: string, c: Callout)
    requires WellFormed(c)
    requires NoneStartsIn(c.open + x + c.close + rest, c.close, |c.open|, |c.open| + |x|)
    ensures NextMatch(c.open + x + c.close + rest, c) == Some((0 as nat, |c.open| + |x|))
  {
    var s := c.open + x + c.close + rest;
    var j: nat := |c.open| + |x|;
    PartsOf(c.open, x, c.close, rest);
    OccursAtSlice(s, c.open, 0);
    OccursAtSlice(s, c.close, j);
    MatchAtStart(s, c, j);
  }

  /** The pieces a step cuts such a text into. */
  lemma {:induction false} SpanPieces(x: string, rest: string, c: Callout, t: string)
    ensures (c.open + x + c.close + rest)[|c.open| + |x| + |c.close|..] == rest
    ensures (c.open + x + c.close + rest)[..0] + c.before + (c.open + x + c.close + rest)[|c.open|..|c.open| + |x|]
            + c.after + t == c.before + x + c.after + t
  {
    PartsOf(c.open, x, c.close, rest);
    assert (c.open + x + c.close + rest)[..0] == [];
  }

  /** Such a first span is replaced and the pass continues after its
      closing token. */
  lemma {:induction false} TakeSpan(x: string, rest: string, c: Callout)
    requires WellFormed(c)
    requires NoneStartsIn(c.open + x + c.close + rest, c.close, |c.open|, |c.open| + |x|)
    ensures Substitute(c.open + x + c.close + rest, c) == c.before + x + c.after + Substitute(rest, c)
  {
    var s := c.open + x + c.close + rest;
    var j: nat := |c.open| + |x|;
    SpanAtStart(x, rest, c);
    SubstituteAt(s, c, 0, j);
    SpanPieces(x, rest, c, Substitute(rest, c));
  }

  /** The leftmost opening token and the first closing token after it form
      one callout (non-greedy): text without brackets around and inside it
      is carried over verbatim, inner line breaks included. */
  lemma {:induction false} SubstituteFirstSpan(a: string, x: string, b: string, c: Callout)
    requires WellFormed(c) && c.open[0] == '[' && c.close[0] == '['
    requires '[' !in a && '[' !in x
    ensures Substitute(a + c.open + x + c.close + b, c) == a + c.before + x + c.after + Substitute(b, c)
  {
    var rest := c.open + x + c.close + b;
    assert a + c.open + x + c.close + b == a + rest;
    NoBracketNoToken(a + rest, c.open, 0, |a|);
    SkipPrefixConcat(a, rest, c);
    NoBracketNoToken(rest, c.close, |c.open|, |c.open| + |x|);
    TakeSpan(x, b, c);
  }

  /** Two separate spans give two separate callouts, each holding only its
      own inner text; a greedy match would have merged them into one. */
  lemma {:induction false} TwoSpans(a: string, x: string, m: string, y: string, b: string, c: Callout)
    requires WellFormed(c) && c.open[0] == '[' && c.close[0] == '['
    requires '[' !in a && '[' !in x && '[' !in m && '[' !in y
    ensures Substitute(a + c.open + x + c.close + (m + c.open + y + c.close + b), c)
         == (a + c.before + x + c.after) + (m + c.before + y + c.after) + Substitute(b, c)
  {
    SubstituteFirstSpan(a, x, m + c.open + y + c.close + b, c);
    SubstituteFirstSpan(m, y, b, c);
    AppendAssoc(a + c.before + x + c.after, m + c.before + y + c.after, Substitute(b, c));
  }

  /** Concatenation is associative. */
  lemma {:induction false} AppendAssoc(p: string, q: string, r: string)
    ensures p + (q + r) == p + q + r
  {
  }

  /** Text that holds no `[` is returned as it is. */
  lemma {:induction false} NoBracketUnchanged(s: string, c: Callout)
    requires WellFormed(c) && c.open[0] == '['
    requires '[' !in s
    ensures Substitute(s, c) == s
  {
    NoBracketNoToken(s, c.open, 0, |s| + 1);
    assert !HasSpan(s, c);
    NextMatchNoneIff(s, c);
  }

  // ---------------------------------------------------------------------
  // Whole story bodies

  /** A story body as its writer means it: plain text, known-fact spans and
      open-question spans, in order. */
  datatype Piece = Plain(text: string) | Fact(inner: string) | Question(inner: string)

  /** The body as it arrives, with the callout tokens. */
  function Marked(ps: seq<Piece>): string {
    if ps == [] then ""
    else
      match ps[0]
      case Plain(t) => t + Marked(ps[1..])
      case Fact(x) => Honest.open + x + Honest.close + Marked(ps[1..])
      case Question(y) => OpenQ.open + y + OpenQ.close + Marked(ps[1..])
  }

  /** The body after the HONEST pass alone. */
  function HalfRendered(ps: seq<Piece>): string {
    if ps == [] then ""
    else
      match ps[0]
      case Plain(t) => t + HalfRendered(ps[1..])
      case Fact(x) => Honest.before + x + Honest.after + HalfRendered(ps[1..])
      case Question(y) => OpenQ.open + y + OpenQ.close + HalfRendered(ps[1..])
  }

  /** The body as the page shows it, with both kinds of callout boxes. */
  function Rendered(ps: seq<Piece>): string {
    if ps == [] then ""
    else
      match ps[0]
      case Plain(t) => t + Rendered(ps[1..])
      case Fact(x) => Honest.before + x + Honest.after + Rendered(ps[1..])
      case Question(y) => OpenQ.before + y + OpenQ.after + Rendered(ps[1..])
  }

  /** No piece holds a `[` of its own: the callouts are not nested and every
      token in the body is one of the delimiters. */
  predicate BracketFree(ps: seq<Piece>) {
    forall k :: 0 <= k < |ps| ==>
      match ps[k]
      case Plain(t) => '[' !in t
      case Fact(x) => '[' !in x
      case Question(y) => '[' !in y
  }

  /** The four callout tokens, and where they differ from each other. */
  lemma {:induction false} Tokens()
    ensures Token(Honest.open) && Token(Honest.close) && Token(OpenQ.open) && Token(OpenQ.close)
    ensures OpenQ.open[1] != Honest.open[1] && OpenQ.close[1] != Honest.open[1]
    ensures OpenQ.open[1] != Honest.close[1] && OpenQ.close[2] != Honest.close[2]
  {
  }

  /** Four texts joined from the left, regrouped from the right. */
  lemma {:induction false} Nest4(t: string, u: string, v: string, w: string)
    ensures t + u + v + w == t + (u + (v + w))
  {
  }

  /** The HONEST opening token starts inside no OPENQ span. */
  lemma {:induction false} QuestionHidesHonest(y: string, rest: string)
    requires '[' !in y
    ensures NoneStartsIn(OpenQ.open + y + OpenQ.close + rest, Honest.open, 0, |OpenQ.open + y + OpenQ.close|)
  {
    var r := y + (OpenQ.close + rest);
    Tokens();
    TokenPrefix(OpenQ.close, rest, Honest.open, 1);
    PlainPrefix(y, OpenQ.close + rest, Honest.open);
    Layer(y, OpenQ.close + rest, Honest.open, |OpenQ.close|);
    TokenPrefix(OpenQ.open, r, Honest.open, 1);
    Layer(OpenQ.open, r, Honest.open, |y| + |OpenQ.close|);
    Nest4(OpenQ.open, y, OpenQ.close, rest);
  }

  /** The HONEST pass turns every known-fact span into its box and leaves
      the OPENQ spans, tokens included, exactly as they were. */
  lemma {:induction false} HonestPassKeepsQuestions(ps: seq<Piece>)
    requires BracketFree(ps)
    ensures Substitute(Marked(ps), Honest) == HalfRendered(ps)
  {
    if ps == [] {
      NoBracketUnchanged("", Honest);
    } else {
      var rest := Marked(ps[1..]);
      assert BracketFree(ps[1..]) by {
        forall k | 0 <= k < |ps| - 1 ensures ps[1..][k] == ps[k + 1] { }
      }
      HonestPassKeepsQuestions(ps[1..]);
      assert ps[0] == ps[0 + 0];
      match ps[0]
      case Plain(t) =>
        NoBracketNoToken(t + rest, Honest.open, 0, |t|);
        SkipPrefixConcat(t, rest, Honest);
      case Fact(x) =>
        NoBracketNoToken(Honest.open + x + Honest.close + rest, Honest.close,
                         |Honest.open|, |Honest.open| + |x|);
        TakeSpan(x, rest, Honest);
      case Question(y) =>
        var p := OpenQ.open + y + OpenQ.close;
        QuestionHidesHonest(y, rest);
        SkipPrefixConcat(p, rest, Honest);
    }
  }

  /** The wrappers hold no `[`. */
  lemma {:induction false} WrappersBracketFree()
    ensures '[' !in Honest.before && '[' !in Honest.after
    ensures '[' !in OpenQ.before && '[' !in OpenQ.after
  {
  }

  /** The OPENQ pass over the HONEST pass's output turns the open-question
      spans into their notes. */
  lemma {:induction false} OpenQPassFinishes(ps: seq<Piece>)
    requires BracketFree(ps)
    ensures Substitute(HalfRendered(ps), OpenQ) == Rendered(ps)
  {
    if ps == [] {
      NoBracketUnchanged("", OpenQ);
    } else {
      var rest := HalfRendered(ps[1..]);
      assert BracketFree(ps[1..]) by {
        forall k | 0 <= k < |ps| - 1 ensures ps[1..][k] == ps[k + 1] { }
      }
      OpenQPassFinishes(ps[1..]);
      assert ps[0] == ps[0 + 0];
      match ps[0]
      case Plain(t) =>
        NoBracketNoToken(t + rest, OpenQ.open, 0, |t|);
        SkipPrefixConcat(t, rest, OpenQ);
      case Fact(x) =>
        var p := Honest.before + x + Honest.after;
        WrappersBracketFree();
        assert '[' !in p;
        NoBracketNoToken(p + rest, OpenQ.open, 0, |p|);
        SkipPrefixConcat(p, rest, OpenQ);
      case Question(y) =>
        NoBracketNoToken(OpenQ.open + y + OpenQ.close + rest, OpenQ.close,
                         |OpenQ.open|, |OpenQ.open| + |y|);
        TakeSpan(y, rest, OpenQ);
    }
  }

  /** The rendered body holds no `[` at all when its pieces hold none. */
  lemma {:induction false} RenderedBracketFree(ps: seq<Piece>)
    requires BracketFree(ps)
    ensures '[' !in Rendered(ps)
  {
    if ps != [] {
      assert BracketFree(ps[1..]) by {
        forall k | 0 <= k < |ps| - 1 ensures ps[1..][k] == ps[k + 1] { }
      }
      RenderedBracketFree(ps[1..]);
      WrappersBracketFree();
      assert ps[0] == ps[0 + 0];
    }
  }

  /** `s` contains `tok` somewhere. */
  ghost predicate Contains(s: string, tok: string) {
    exists k: nat :: OccursAt(s, tok, k)
  }

  /** For a body whose callouts are balanced and not nested,
      `render_story_body` produces the boxes in order, keeps all other text,
      and leaves none of the four tokens behind. */
  lemma {:induction false} RenderStoryBodyOfPieces(ps: seq<Piece>)
    requires BracketFree(ps)
    ensures RenderStoryBody(Marked(ps)) == Rendered(ps)
    ensures !Contains(Rendered(ps), Honest.open) && !Contains(Rendered(ps), Honest.close)
    ensures !Contains(Rendered(ps), OpenQ.open) && !Contains(Rendered(ps), OpenQ.close)
  {
    HonestPassKeepsQuestions(ps);
    OpenQPassFinishes(ps);
    var out := Rendered(ps);
    RenderedBracketFree(ps);
    NoBracketNoToken(out, Honest.open, 0, |out| + 1);
    NoBracketNoToken(out, Honest.close, 0, |out| + 1);
    NoBracketNoToken(out, OpenQ.open, 0, |out| + 1);
    NoBracketNoToken(out, OpenQ.close, 0, |out| + 1);
  }

  /** The HONEST closing token starts inside no OPENQ span, so an
      open question inside a known-facts span does not end that span. */
  lemma {:induction false} QuestionInsideFact(x: string, y: string, z: string, b: string)
    requires '[' !in x && '[' !in y && '[' !in z
    ensures NoneStartsIn(Honest.open + (x + OpenQ.open + y + OpenQ.close + z) + Honest.close + b, Honest.close,
                         |Honest.open|, |Honest.open| + |x + OpenQ.open + y + OpenQ.close + z|)
  {
    var hc := Honest.close;
    Tokens();
    var r5 := z + (hc + b);
    PlainPrefix(z, hc + b, hc);
    var r4 := OpenQ.close + r5;
    TokenPrefix(OpenQ.close, r5, hc, 2);
    Layer(OpenQ.close, r5, hc, |z|);
    var r3 := y + r4;
    PlainPrefix(y, r4, hc);
    Layer(y, r4, hc, |OpenQ.close| + |z|);
    var r2 := OpenQ.open + r3;
    TokenPrefix(OpenQ.open, r3, hc, 1);
    Layer(OpenQ.open, r3, hc, |y| + (|OpenQ.close| + |z|));
    var r1 := x + r2;
    PlainPrefix(x, r2, hc);
    Layer(x, r2, hc, |OpenQ.open| + (|y| + (|OpenQ.close| + |z|)));
    ShiftNone(Honest.open, r1, hc, 0, |x| + (|OpenQ.open| + (|y| + (|OpenQ.close| + |z|))));
    NestInner(Honest.open, x, OpenQ.open, y, OpenQ.close, z, hc, b);
  }

  lemma {:induction false} NestInner(h: string, x: string, o: string, y: string, c: string, z: string, e: string, b: string)
    ensures h + (x + o + y + c + z) + e + b == h + (x + (o + (y + (c + (z + (e + b))))))
  {
  }

  lemma {:induction false} RegroupHalf(a: string, h: string, x: string, o: string, y: string, c: string, z: string, e: string, b: string)
    ensures a + (h + (x + o + y + c + z) + e + b) == (a + h + x) + o + y + c + (z + e + b)
  {
  }

  /** An open question written inside a known-facts span is still turned
      into its note, inside the known-facts box. */
  lemma {:induction false} OpenQInsideHonest(a: string, x: string, y: string, z: string, b: string)
    requires '[' !in a && '[' !in x && '[' !in y && '[' !in z && '[' !in b
    ensures RenderStoryBody(a + (Honest.open + (x + OpenQ.open + y + OpenQ.close + z) + Honest.close + b))
         == (a + Honest.before + x) + OpenQ.before + y + OpenQ.after + (z + Honest.after + b)
  {
    var inner := x + OpenQ.open + y + OpenQ.close + z;
    var rest := Honest.open + inner + Honest.close + b;
    Tokens();
    PlainPrefix(a, rest, Honest.open);
    SkipPrefixConcat(a, rest, Honest);
    QuestionInsideFact(x, y, z, b);
    TakeSpan(inner, b, Honest);
    NoBracketUnchanged(b, Honest);
    var mid := a + Honest.before + x;
    var tail := z + Honest.after + b;
    WrappersBracketFree();
    RegroupHalf(a, Honest.before, x, OpenQ.open, y, OpenQ.close, z, Honest.after, b);
    SubstituteFirstSpan(mid, y, tail, OpenQ);
    NoBracketUnchanged(tail, OpenQ);
  }

  /** A Hebrew sentence with one known fact in it. */
  lemma {:induction false} ExampleBody()
    ensures RenderStoryBody("שלום " + "[HONEST]" + "עובדה" + "[/HONEST]" + " עולם")
         == "שלום " + "<div class=\"honest-line\">" + "עובדה" + "</div>" + " עולם"
  {
    var a, x, b := "שלום ", "עובדה", " עולם";
    SubstituteFirstSpan(a, x, b, Honest);
    NoBracketUnchanged(b, Honest);
    var out := a + Honest.before + x + Honest.after + b;
    WrappersBracketFree();
    NoBracketUnchanged(out, OpenQ);
  }
}
