/** The part of `call_claude` that turns the API response into the text
    handed to `json.loads`: the text of the `text` content blocks, in order,
    trimmed, and with a Markdown code fence around it removed. */
module Response {
  import opened Json
  import opened Text

  /** A Markdown code fence. */
  const Fence := "```"

  /** `block.get("type") == "text"`. */
  predicate IsTextBlock(block: Value) {
    block.Obj? && "type" in block.fields && block.fields["type"] == Str("text")
  }

  /** What one block adds to `text`: its `text` field when it is a text
      block, nothing otherwise. A block that is not a dictionary has no
      `get`; adding a non-string to a string raises `TypeError`. */
  function BlockText(block: Value): Result<string> {
    var kind :- GetOr(block, "type", Null);
    if kind == Str("text") then
      var text :- Lookup(block, "text");
      AsStr(text)
    else Ok("")
  }

  /** `result.get("content", [])` as the loop visits it. The keys of a
      dictionary and the characters of a string are strings, which have no
      `get`. */
  function ContentItems(result: Value): Result<seq<Value>> {
    var content :- GetOr(result, "content", Arr([]));
    Elements(content, AttributeError)
  }

  /** `text` after the loop over the content blocks. */
  function ResponseText(result: Value): Result<string> {
    var blocks :- ContentItems(result);
    var texts :- MapResult(blocks, BlockText);
    Ok(Concat(texts))
  }

  /** The fence handling: trim; then, for a text that starts with a fence,
      drop its first line (`split("\n", 1)[1]`, an `IndexError` when there
      is no line break) and everything from the last remaining fence on
      (`rsplit("```", 1)[0]`). */
  function Unfence(text: string): Result<string> {
    var t := Strip(text);
    if StartsWith(t, Fence) then
      match IndexOf(t, "\n", 0)
      case None => Err(IndexError)
      case Some(i) =>
        Ok(BeforeLastFence(t[i + 1..]))
    else Ok(t)
  }

  /** `rest.rsplit("```", 1)[0]`: everything in front of the last fence,
      or all of `rest` when it holds none. */
  function BeforeLastFence(rest: string): string {
    match LastIndexOf(rest, Fence)
    case None => rest
    case Some(k) => rest[..k]
  }

  /** The text `call_claude` passes to `json.loads`. */
  function CleanResponse(result: Value): Result<string> {
    var text :- ResponseText(result);
    Unfence(text)
  }

  // ---------------------------------------------------------------------
  // The loop and the reassignments of `text`, as the program runs them

  method ResponseBody(result: Value) returns (r: Result<string>)
    ensures r == CleanResponse(result)
  {
    var blocks := ContentItems(result);
    if blocks.Err? {
      return Err(blocks.error);
    }
    var items := blocks.value;
    var text := "";
    ghost var texts: seq<string> := [];
    for j := 0 to |items|
      invariant MapResult(items[..j], BlockText) == Ok(texts)
      invariant text == Concat(texts)
    {
      var piece := BlockText(items[j]);
      if piece.Err? {
        MapResultStops(items, j, BlockText);
        return Err(piece.error);
      }
      text := text + piece.value;
      MapResultExtend(items, j, BlockText, texts);
      assert (texts + [piece.value])[..|texts|] == texts;
      texts := texts + [piece.value];
    }
    assert items[..|items|] == items;
    text := Strip(text);
    if StartsWith(text, Fence) {
      var newline := IndexOf(text, "\n", 0);
      if newline.None? {
        return Err(IndexError);
      }
      text := text[newline.value + 1..];
      var last := LastIndexOf(text, Fence);
      if last.Some? {
        text := text[..last.value];
      }
    }
    r := Ok(text);
  }

  // ---------------------------------------------------------------------
  // The text blocks and nothing else

  /** A block the loop gets past: a dictionary, whose `text` field is a
      string when it is a text block. */
  predicate BlockOk(block: Value) {
    block.Obj? && (IsTextBlock(block) ==> "text" in block.fields && block.fields["text"].Str?)
  }

  /** The `text` fields of the text blocks, in order; other blocks
      contribute nothing. */
  function TextOf(blocks: seq<Value>): string {
    if blocks == [] then ""
    else
      var b := blocks[|blocks| - 1];
      TextOf(blocks[..|blocks| - 1])
      + if IsTextBlock(b) && "text" in b.fields && b.fields["text"].Str? then b.fields["text"].s else ""
  }

  lemma {:induction false} BlockTextOk(block: Value)
    ensures BlockText(block).Ok? <==> BlockOk(block)
    ensures BlockOk(block) ==> BlockText(block).value == if IsTextBlock(block) then block.fields["text"].s else ""
  {
  }

  lemma {:induction false} TextsOf(blocks: seq<Value>)
    requires MapResult(blocks, BlockText).Ok?
    ensures Concat(MapResult(blocks, BlockText).value) == TextOf(blocks)
  {
    if blocks != [] {
      var init, last := blocks[..|blocks| - 1], blocks[|blocks| - 1];
      TextsOf(init);
      BlockTextOk(last);
      var a, b := MapResult(init, BlockText).value, BlockText(last).value;
      assert MapResult(blocks, BlockText).value == a + [b];
      assert (a + [b])[..|a|] == a;
    }
  }

  /** The response text exists exactly when every content block is one the
      loop gets past, and it is then the concatenation of the text blocks'
      `text` fields, in order. */
  lemma {:induction false} ResponseTextOfTextBlocks(result: Value)
    ensures ResponseText(result).Ok? <==>
              ContentItems(result).Ok? &&
              forall i :: 0 <= i < |ContentItems(result).value| ==> BlockOk(ContentItems(result).value[i])
    ensures ResponseText(result).Ok? ==> ResponseText(result).value == TextOf(ContentItems(result).value)
  {
    if ContentItems(result).Ok? {
      var blocks := ContentItems(result).value;
      MapResultOk(blocks, BlockText);
      forall i | 0 <= i < |blocks|
        ensures BlockText(blocks[i]).Ok? <==> BlockOk(blocks[i])
      {
        BlockTextOk(blocks[i]);
      }
      if MapResult(blocks, BlockText).Ok? {
        TextsOf(blocks);
      }
    }
  }

  /** Appending a block that is not a text block changes nothing. */
  lemma {:induction false} OtherBlockIgnored(blocks: seq<Value>, b: Value)
    requires !IsTextBlock(b)
    ensures TextOf(blocks + [b]) == TextOf(blocks)
  {
    assert (blocks + [b])[..|blocks|] == blocks;
  }

  // ---------------------------------------------------------------------
  // The fence

  /** A trimmed text that does not start with a fence comes back as it
      is, whatever white space surrounded it. */
  lemma {:induction false} UnfencePlain(lead: string, core: string, trail: string)
    requires AllSpace(lead) && AllSpace(trail)
    requires core != [] && !IsSpace(core[0]) && !IsSpace(core[|core| - 1])
    requires !StartsWith(core, Fence)
    ensures Unfence(lead + core + trail) == Ok(core)
  {
    StripPadded(lead, core, trail);
  }

  /** A fenced text without a line break raises `IndexError`, and nothing
      else does. */
  lemma {:induction false} UnfenceIndexError(text: string)
    ensures Unfence(text) == Err(IndexError) <==> StartsWith(Strip(text), Fence) && '\n' !in Strip(text)
  {
    var t := Strip(text);
    IndexOfSpec(t, "\n", 0);
    if '\n' in t {
      var k :| 0 <= k < |t| && t[k] == '\n';
      OccursAtSlice(t, "\n", k);
    }
    if IndexOf(t, "\n", 0).Some? {
      OccursAtChar(t, "\n", IndexOf(t, "\n", 0).value, 0);
    }
  }

  /** A fence line starts with a fence, and its first line break is the one
      that ends it. */
  lemma {:induction false} FirstLine(lang: string, rest: string)
    requires '\n' !in lang
    ensures var s, n := Fence + lang + "\n" + rest, |Fence + lang|;
            StartsWith(s, Fence) && n < |s| && s[n] == '\n' && '\n' !in s[..n] && s[n + 1..] == rest
  {
    var s, n := Fence + lang + "\n" + rest, |Fence + lang|;
    assert s[..3] == Fence;
    OccursAtSlice(s, Fence, 0);
    assert s[..n] == Fence + lang;
  }

  /** In `body + Fence + tail`, with no backquote in the tail, a fence
      starts right after `body` and none starts later. */
  lemma {:induction false} NoLaterFence(body: string, tail: string)
    requires '`' !in tail
    ensures OccursAt(body + Fence + tail, Fence, |body|)
    ensures forall k :: |body| < k ==> !OccursAt(body + Fence + tail, Fence, k)
    ensures (body + Fence + tail)[..|body|] == body
  {
    var s := body + Fence + tail;
    assert s[|body|..|body| + 3] == Fence;
    OccursAtSlice(s, Fence, |body|);
    forall k | |body| < k
      ensures !OccursAt(s, Fence, k)
    {
      if OccursAt(s, Fence, k) {
        OccursAtChar(s, Fence, k, 2);
      }
    }
  }

  /** The first line break of `t` is the one at `i` when none comes before. */
  lemma {:induction false} FirstBreak(t: string, i: nat)
    requires i < |t| && t[i] == '\n' && '\n' !in t[..i]
    ensures IndexOf(t, "\n", 0) == Some(i)
  {
    forall k | 0 <= k < i
      ensures !OccursAt(t, "\n", k)
    {
      assert t[k] == t[..i][k];
      Mismatch(t, "\n", k, 0);
    }
    IndexOfSkip(t, "\n", 0, i);
    assert t[i..i + 1] == "\n";
    OccursAtSlice(t, "\n", i);
  }

  /** What comes before the last fence is a prefix of the text: all of it
      exactly when no fence occurs, and otherwise it ends where the last
      fence starts. */
  lemma {:induction false} BeforeLastFenceSpec(rest: string)
    ensures var r := BeforeLastFence(rest);
            |r| <= |rest| && r == rest[..|r|] &&
            (|r| == |rest| <==> forall k :: !OccursAt(rest, Fence, k)) &&
            (|r| < |rest| ==> OccursAt(rest, Fence, |r|) && forall k :: |r| < k ==> !OccursAt(rest, Fence, k))
  {
    match LastIndexOf(rest, Fence)
    case None =>
    case Some(k) =>
      assert OccursAt(rest, Fence, k);
      OccursAtSlice(rest, Fence, k);
  }

  /** A trimmed text `t` that starts with a fence and has its first line
      break at `i` loses that first line and then everything from the last
      fence of what remains on: the answer is a prefix of the remainder,
      all of it exactly when no fence occurs there, and otherwise it ends
      where the last fence starts. */
  lemma {:induction false} UnfenceFenced(text: string, t: string, i: nat)
    requires Strip(text) == t && StartsWith(t, Fence)
    requires i < |t| && t[i] == '\n' && '\n' !in t[..i]
    ensures Unfence(text).Ok?
    ensures var r, rest := Unfence(text).value, t[i + 1..];
            |r| <= |rest| && r == rest[..|r|] &&
            (|r| == |rest| <==> forall k :: !OccursAt(rest, Fence, k)) &&
            (|r| < |rest| ==> OccursAt(rest, Fence, |r|) && forall k :: |r| < k ==> !OccursAt(rest, Fence, k))
  {
    FirstBreak(t, i);
    assert Unfence(text) == Ok(BeforeLastFence(t[i + 1..]));
    BeforeLastFenceSpec(t[i + 1..]);
  }

  /** A fenced text whose remainder after the first line is `body`, a
      fence and a tail without backquotes comes back as `body`. */
  lemma {:induction false} ClosedAnswer(text: string, t: string, i: nat, rest: string, body: string, tail: string)
    requires Strip(text) == t && StartsWith(t, Fence)
    requires i < |t| && t[i] == '\n' && '\n' !in t[..i]
    requires rest == t[i + 1..] && rest == body + Fence + tail && '`' !in tail
    ensures Unfence(text) == Ok(body)
  {
    UnfenceFenced(text, t, i);
    NoLaterFence(body, tail);
    var r := Unfence(text).value;
    assert (|r| == |rest| <==> forall k :: !OccursAt(rest, Fence, k));
    assert OccursAt(rest, Fence, |body|);
    assert |r| < |rest|;
    assert OccursAt(rest, Fence, |r|) && forall k :: |r| < k ==> !OccursAt(rest, Fence, k);
    assert |r| == |body|;
    assert r == rest[..|body|] == body;
  }

  /** A fenced text with no fence after its first line comes back as that
      remainder. */
  lemma {:induction false} OpenAnswer(text: string, t: string, i: nat, rest: string)
    requires Strip(text) == t && StartsWith(t, Fence)
    requires i < |t| && t[i] == '\n' && '\n' !in t[..i]
    requires rest == t[i + 1..] && forall k :: !OccursAt(rest, Fence, k)
    ensures Unfence(text) == Ok(rest)
  {
    UnfenceFenced(text, t, i);
    var r := Unfence(text).value;
    assert |r| == |rest|;
    assert rest[..|rest|] == rest;
  }

  /** White space around a fenced text is what trimming removes. */
  lemma {:induction false} StripFenced(lead: string, lang: string, rest: string, trail: string)
    requires AllSpace(lead) && AllSpace(trail)
    requires rest != [] && !IsSpace(rest[|rest| - 1])
    ensures Strip(lead + (Fence + lang + "\n" + rest) + trail) == Fence + lang + "\n" + rest
  {
    var core := Fence + lang + "\n" + rest;
    assert core[0] == '`';
    assert core[|core| - 1] == rest[|rest| - 1];
    StripPadded(lead, core, trail);
  }

  /** A closing fence and a tail that ends in a non-space character end in
      a non-space character. */
  lemma {:induction false} ClosedEnd(body: string, tail: string)
    requires tail == [] || !IsSpace(tail[|tail| - 1])
    ensures body + Fence + tail != [] && !IsSpace((body + Fence + tail)[|body + Fence + tail| - 1])
  {
    var rest := body + Fence + tail;
    assert rest[|rest| - 1] == if tail == [] then '`' else tail[|tail| - 1];
  }

  /** A fenced block round-trips: wrapping `body` in an opening fence line
      and a closing fence, with white space around, gives `body` back. The
      body may itself hold fences; the language tag has no line break and
      what follows the closing fence has no backquote. */
  lemma {:induction false} UnfenceRoundTrip(lead: string, lang: string, body: string, tail: string, trail: string)
    requires AllSpace(lead) && AllSpace(trail)
    requires '\n' !in lang && '`' !in tail
    requires tail == [] || !IsSpace(tail[|tail| - 1])
    ensures Unfence(lead + (Fence + lang + "\n" + (body + Fence + tail)) + trail) == Ok(body)
  {
    var rest := body + Fence + tail;
    var core := Fence + lang + "\n" + rest;
    ClosedEnd(body, tail);
    StripFenced(lead, lang, rest, trail);
    FirstLine(lang, rest);
    ClosedAnswer(lead + core + trail, core, |Fence + lang|, rest, body, tail);
  }

  /** A fenced text with no closing fence loses only its first line. */
  lemma {:induction false} UnfenceUnclosed(lead: string, lang: string, body: string, trail: string)
    requires AllSpace(lead) && AllSpace(trail)
    requires '\n' !in lang && forall k :: !OccursAt(body, Fence, k)
    requires body != [] && !IsSpace(body[|body| - 1])
    ensures Unfence(lead + (Fence + lang + "\n" + body) + trail) == Ok(body)
  {
    var core := Fence + lang + "\n" + body;
    StripFenced(lead, lang, body, trail);
    FirstLine(lang, body);
    OpenAnswer(lead + core + trail, core, |Fence + lang|, body);
  }
}
