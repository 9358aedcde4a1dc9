/** The headlines `main` collects from the document after rendering it, and
    the preview `send_whatsapp` puts in its message: the first three
    headlines joined by " · ". */
module Digest {
  import opened Json
  import opened Text
  import Page

  // ---------------------------------------------------------------------
  // Collecting the headlines

  /** `story["headline"]`, whatever it holds: the list keeps the value. */
  function HeadlineOf(story: Value): Result<Value> {
    Lookup(story, "headline")
  }

  /** `section["stories"]` as the inner loop visits it. The characters of
      a string and the keys of a dictionary are strings, and indexing a
      string with `"headline"` raises `TypeError`. */
  function StoryList(section: Value): Result<seq<Value>> {
    var stories :- Lookup(section, "stories");
    Elements(stories, TypeError)
  }

  /** `data["sections"]` as the outer loop visits it. */
  function SectionList(data: Value): Result<seq<Value>> {
    var sections :- Lookup(data, "sections");
    Elements(sections, TypeError)
  }

  /** The headlines of one section, in story order. */
  function SectionHeadlines(section: Value): Result<seq<Value>> {
    var stories :- StoryList(section);
    MapResult(stories, HeadlineOf)
  }

  /** The lists of `xss` one after the other. */
  function Flatten<T>(xss: seq<seq<T>>): seq<T> {
    if xss == [] then [] else Flatten(xss[..|xss| - 1]) + xss[|xss| - 1]
  }

  /** `headlines` after `main`'s nested loop: section by section, story by
      story. */
  function Headlines(data: Value): Result<seq<Value>> {
    var sections :- SectionList(data);
    var perSection :- MapResult(sections, SectionHeadlines);
    Ok(Flatten(perSection))
  }

  /** `main`'s nested loop, appending each headline to one list. */
  method CollectHeadlines(data: Value) returns (r: Result<seq<Value>>)
    ensures r == Headlines(data)
  {
    var sections := SectionList(data);
    if sections.Err? {
      return Err(sections.error);
    }
    var items := sections.value;
    var headlines: seq<Value> := [];
    ghost var done: seq<seq<Value>> := [];
    for i := 0 to |items|
      invariant MapResult(items[..i], SectionHeadlines) == Ok(done)
      invariant headlines == Flatten(done)
    {
      var stories := StoryList(items[i]);
      if stories.Err? {
        MapResultStops(items, i, SectionHeadlines);
        return Err(stories.error);
      }
      var list := stories.value;
      ghost var mine: seq<Value> := [];
      for j := 0 to |list|
        invariant MapResult(list[..j], HeadlineOf) == Ok(mine)
        invariant headlines == Flatten(done) + mine
      {
        var h := HeadlineOf(list[j]);
        if h.Err? {
          MapResultStops(list, j, HeadlineOf);
          MapResultStops(items, i, SectionHeadlines);
          return Err(h.error);
        }
        headlines := headlines + [h.value];
        MapResultExtend(list, j, HeadlineOf, mine);
        assert (mine + [h.value])[..|mine|] == mine;
        mine := mine + [h.value];
      }
      assert list[..|list|] == list;
      MapResultExtend(items, i, SectionHeadlines, done);
      assert (done + [mine])[..|done|] == done;
      done := done + [mine];
    }
    assert items[..|items|] == items;
    r := Ok(headlines);
  }

  // ---------------------------------------------------------------------
  // The headlines are the page's stories, in the page's order

  /** Lists related element by element flatten to lists related element by
      element. */
  lemma {:induction false} FlattenRelated<A, B>(xss: seq<seq<A>>, yss: seq<seq<B>>, rel: (A, B) -> bool)
    requires |xss| == |yss|
    requires forall i :: 0 <= i < |xss| ==> |xss[i]| == |yss[i]|
    requires forall i, j :: 0 <= i < |xss| && 0 <= j < |xss[i]| && j < |yss[i]| ==> rel(xss[i][j], yss[i][j])
    ensures |Flatten(xss)| == |Flatten(yss)|
    ensures forall k :: 0 <= k < |Flatten(xss)| && k < |Flatten(yss)| ==> rel(Flatten(xss)[k], Flatten(yss)[k])
  {
    if xss != [] {
      var n := |xss| - 1;
      FlattenRelated(xss[..n], yss[..n], rel);
      var a, b := Flatten(xss[..n]), Flatten(yss[..n]);
      assert Flatten(xss) == a + xss[n];
      assert Flatten(yss) == b + yss[n];
      forall k | 0 <= k < |Flatten(xss)| && k < |Flatten(yss)|
        ensures rel(Flatten(xss)[k], Flatten(yss)[k])
      {
        if k >= |a| {
          assert rel(xss[n][k - |a|], yss[n][k - |a|]);
        }
      }
    }
  }

  /** Every story of the page, section by section. */
  function AllStories(ss: seq<Page.SectionView>): seq<Page.StoryView> {
    Flatten(seq(|ss|, i requires 0 <= i < |ss| => ss[i].stories))
  }

  /** The headline value `h` shows as the text `v` shows. */
  predicate ShowsAs(h: Value, v: Page.StoryView) {
    Show(h) == Ok(v.headline)
  }

  /** A story the page renders has a headline, which shows as the
      story's headline. */
  lemma {:induction false} StoryHeadline(story: Value)
    requires Page.LayoutStory(story).Ok?
    ensures HeadlineOf(story).Ok? && ShowsAs(HeadlineOf(story).value, Page.LayoutStory(story).value)
  {
  }

  /** Both loops visit the same stories of a section the page renders. */
  lemma {:induction false} SameStories(section: Value)
    requires Page.StoryItems(section).Ok?
    ensures StoryList(section) == Page.StoryItems(section)
  {
  }

  /** Both loops visit the same sections of a document the page renders. */
  lemma {:induction false} SameSections(data: Value)
    requires Page.SectionItems(data).Ok?
    ensures SectionList(data) == Page.SectionItems(data)
  {
  }

  /** For a section the page renders, the section's headlines are its
      stories' headlines, in order. */
  lemma {:induction false} SectionHeadlinesOfPage(section: Value)
    requires Page.LayoutSection(section).Ok?
    ensures SectionHeadlines(section).Ok?
    ensures |SectionHeadlines(section).value| == |Page.LayoutSection(section).value.stories|
    ensures forall j :: 0 <= j < |SectionHeadlines(section).value| ==>
              ShowsAs(SectionHeadlines(section).value[j], Page.LayoutSection(section).value.stories[j])
  {
    var items := Page.StoryItems(section).value;
    SameStories(section);
    var v := Page.LayoutSection(section).value;
    Page.StoriesOf(section);
    forall j | 0 <= j < |items|
      ensures HeadlineOf(items[j]).Ok? && ShowsAs(HeadlineOf(items[j]).value, v.stories[j])
    {
      StoryHeadline(items[j]);
    }
    MapResultOk(items, HeadlineOf);
  }

  /** For a document the page lays out, the headline list has one entry per
      story of the page, section by section and story by story, each
      showing as that story's headline. */
  lemma {:induction false} HeadlinesOfPage(data: Value)
    requires Page.Layout(data).Ok?
    ensures Headlines(data).Ok?
    ensures |Headlines(data).value| == |AllStories(Page.Layout(data).value.sections)|
    ensures forall k :: 0 <= k < |Headlines(data).value| ==>
              ShowsAs(Headlines(data).value[k], AllStories(Page.Layout(data).value.sections)[k])
  {
    var items := Page.SectionItems(data).value;
    SameSections(data);
    var ss := Page.Layout(data).value.sections;
    Page.SectionsOf(data);
    forall i | 0 <= i < |items|
      ensures SectionHeadlines(items[i]).Ok?
      ensures |SectionHeadlines(items[i]).value| == |ss[i].stories|
      ensures forall j :: 0 <= j < |ss[i].stories| ==> ShowsAs(SectionHeadlines(items[i]).value[j], ss[i].stories[j])
    {
      SectionHeadlinesOfPage(items[i]);
    }
    MapResultOk(items, SectionHeadlines);
    var per := MapResult(items, SectionHeadlines).value;
    var stories := seq(|ss|, i requires 0 <= i < |ss| => ss[i].stories);
    FlattenRelated(per, stories, ShowsAs);
  }

  // ---------------------------------------------------------------------
  // The preview

  const Separator := " · "

  /** `sep.join(xs)`. */
  function Join(xs: seq<string>): string {
    if xs == [] then ""
    else if |xs| == 1 then xs[0]
    else xs[0] + Separator + Join(xs[1..])
  }

  /** `s.split(" · ")`: the pieces between the separators. */
  function Split(s: string): (r: seq<string>)
    ensures |r| >= 1
    decreases |s|
  {
    match IndexOf(s, Separator, 0)
    case None => [s]
    case Some(i) => [s[..i]] + Split(s[i + |Separator|..])
  }

  /** `" · ".join(headlines[:3])`: joining raises `TypeError` on an item
      that is not a string. */
  function Preview(headlines: seq<Value>): Result<string> {
    var first := headlines[..if |headlines| < 3 then |headlines| else 3];
    var texts :- MapResult(first, AsStr);
    Ok(Join(texts))
  }

  /** A text without the middle dot holds no separator. */
  lemma {:induction false} NoSeparator(s: string)
    requires '·' !in s
    ensures IndexOf(s, Separator, 0).None?
  {
    IndexOfSpec(s, Separator, 0);
    if IndexOf(s, Separator, 0).Some? {
      OccursAtChar(s, Separator, IndexOf(s, Separator, 0).value, 1);
    }
  }

  /** The first separator of `x + " · " + rest` is the one after `x`. */
  lemma {:induction false} FirstSeparator(x: string, rest: string)
    requires '·' !in x
    ensures IndexOf(x + Separator + rest, Separator, 0) == Some(|x|)
    ensures (x + Separator + rest)[..|x|] == x && (x + Separator + rest)[|x| + |Separator|..] == rest
  {
    var s := x + Separator + rest;
    forall k | 0 <= k < |x|
      ensures !OccursAt(s, Separator, k)
    {
      assert s[k + 1] != '·';
      Mismatch(s, Separator, k, 1);
    }
    assert s[|x|..] == Separator + rest;
    IndexOfFromStart(s, |x|, Separator);
    assert (Separator + rest)[..3] == Separator;
    OccursAtSlice(Separator + rest, Separator, 0);
  }

  /** Splitting the joined headlines gives them back, when none holds the
      middle dot. */
  lemma {:induction false} SplitJoin(xs: seq<string>)
    requires xs != []
    requires forall i :: 0 <= i < |xs| ==> '·' !in xs[i]
    ensures Split(Join(xs)) == xs
  {
    if |xs| == 1 {
      NoSeparator(xs[0]);
    } else {
      FirstSeparator(xs[0], Join(xs[1..]));
      SplitJoin(xs[1..]);
    }
  }

  /** With no headlines the preview is empty. */
  lemma {:induction false} PreviewEmpty()
    ensures Preview([]) == Ok("")
  {
  }

  /** The preview shows exactly the first three headlines (or all of them
      when there are fewer), in order: splitting it at the separators gives
      them back. */
  lemma {:induction false} PreviewRoundTrip(headlines: seq<Value>)
    requires headlines != []
    requires forall i :: 0 <= i < |headlines| && i < 3 ==> headlines[i].Str? && '·' !in headlines[i].s
    ensures Preview(headlines).Ok?
    ensures var n := if |headlines| < 3 then |headlines| else 3;
            Split(Preview(headlines).value) == seq(n, i requires 0 <= i < n => headlines[i].s)
  {
    var n := if |headlines| < 3 then |headlines| else 3;
    var first := headlines[..n];
    MapResultOk(first, AsStr);
    var texts := MapResult(first, AsStr).value;
    assert texts == seq(n, i requires 0 <= i < n => headlines[i].s);
    SplitJoin(texts);
  }

  /** A non-string among the first three headlines makes the preview fail
      with `TypeError`; later ones are never looked at. */
  lemma {:induction false} PreviewTypeError(headlines: seq<Value>, k: nat)
    requires k < |headlines| && k < 3 && !headlines[k].Str?
    ensures Preview(headlines) == Err(TypeError)
  {
    var n := if |headlines| < 3 then |headlines| else 3;
    var first := headlines[..n];
    assert first[k] == headlines[k];
    MapResultOk(first, AsStr);
    MapResultFirstError(first, AsStr);
  }
}
