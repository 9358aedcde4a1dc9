/** The digest page (`render_html`): one block per section in input order,
    inside it one block per story in input order, then the word of the day
    and the question to think about. Field values are interpolated verbatim,
    with no HTML escaping. */
module Page {
  import opened Json
  import Markup

  /** A story as its block shows it: the tag class suffix, the tag, the
      headline and the rendered body. */
  datatype StoryView = StoryView(tagType: string, tag: string, headline: string, body: string)

  /** The fields a section block shows around its stories. */
  datatype Header = Header(id: string, color: string, icon: string, sectionLabel: string)

  datatype SectionView = SectionView(header: Header, stories: seq<StoryView>)

  /** The word of the day, its definition and the question to think about. */
  datatype Extras = Extras(word: string, definition: string, think: string)

  /** What the page shows besides the fixed text. */
  datatype DigestView = DigestView(sections: seq<SectionView>, extras: Extras)

  // ---------------------------------------------------------------------
  // Reading the document, in the order Python evaluates it

  /** One story: `story.get("tag_type", "world")`, then `story["body"]`
      through `render_story_body` (which needs a `str`), then the f-string's
      fields from left to right. */
  function LayoutStory(story: Value): Result<StoryView> {
    var tagType :- GetOr(story, "tag_type", Str("world"));
    var bodyValue :- Lookup(story, "body");
    var bodyText :- AsStr(bodyValue);
    var body := Markup.RenderStoryBody(bodyText);
    var tagClass :- Show(tagType);
    var tagValue :- Lookup(story, "tag");
    var tag :- Show(tagValue);
    var headlineValue :- Lookup(story, "headline");
    var headline :- Show(headlineValue);
    Ok(StoryView(tagClass, tag, headline, body))
  }

  /** The stories of a section as the inner loop visits them: iterating a
      dictionary yields its keys, on which `.get` raises `AttributeError`. */
  function StoryItems(section: Value): Result<seq<Value>> {
    var stories :- Lookup(section, "stories");
    Elements(stories, AttributeError)
  }

  /** The section's own fields, read by the f-string after its stories. */
  function SectionHeader(section: Value): Result<Header> {
    var id :- Lookup(section, "id");
    var idText :- Show(id);
    var color :- Lookup(section, "color");
    var colorText :- Show(color);
    var icon :- Lookup(section, "icon");
    var iconText :- Show(icon);
    var labelValue :- Lookup(section, "label");
    var labelText :- Show(labelValue);
    Ok(Header(idText, colorText, iconText, labelText))
  }

  /** One section: its stories first, then its own fields. */
  function LayoutSection(section: Value): Result<SectionView> {
    var items :- StoryItems(section);
    var stories :- MapResult(items, LayoutStory);
    var header :- SectionHeader(section);
    Ok(SectionView(header, stories))
  }

  /** The sections as the outer loop visits them: a key of a dictionary is
      a string, and indexing a string with `"stories"` raises `TypeError`. */
  function SectionItems(data: Value): Result<seq<Value>> {
    var sections :- Lookup(data, "sections");
    Elements(sections, TypeError)
  }

  /** `data["word_of_day"]` and `data["think_question"]`, then the page's
      fields from top to bottom. */
  function PageExtras(data: Value): Result<Extras> {
    var word :- Lookup(data, "word_of_day");
    var think :- Lookup(data, "think_question");
    var wordValue :- Lookup(word, "word");
    var wordText :- Show(wordValue);
    var definition :- Lookup(word, "definition");
    var definitionText :- Show(definition);
    var thinkText :- Show(think);
    Ok(Extras(wordText, definitionText, thinkText))
  }

  /** The whole document: the sections, then the extras. */
  function Layout(data: Value): Result<DigestView> {
    var items :- SectionItems(data);
    var sections :- MapResult(items, LayoutSection);
    var extras :- PageExtras(data);
    Ok(DigestView(sections, extras))
  }

  // ---------------------------------------------------------------------
  // The text of the page

  /** One star of the rating widget, with its line break. */
  const StarLine := "          <span class=\"star\" onclick=\"rate(this)\">★</span>\n"

  function Stars(n: nat): string {
    if n == 0 then "" else Stars(n - 1) + StarLine
  }

  /** The rating widget every story carries: a label and five stars. */
  const RatingOpen := "        <div class=\"rating\">\n          <span class=\"rating-label\">דרגי</span>\n"
  const RatingClose := "        </div>\n"
  const RatingWidget := RatingOpen + Stars(5) + RatingClose

  function StoryBlock(v: StoryView): string {
    "\n      <div class=\"story\">\n        <span class=\"tag tag-" + v.tagType + "\">" + v.tag
    + "</span>\n        <div class=\"story-headline\">" + v.headline
    + "</div>\n        <div class=\"story-body\">" + v.body + "</div>\n"
    + RatingWidget + "      </div>"
  }

  /** `stories_html` after the inner loop: the story blocks in order. */
  function StoriesHtml(vs: seq<StoryView>): string {
    if vs == [] then "" else StoriesHtml(vs[..|vs| - 1]) + StoryBlock(vs[|vs| - 1])
  }

  /** A section block around the stories' text. */
  function SectionFrame(h: Header, storiesHtml: string): string {
    "\n  <div class=\"section s-" + h.id + "\" style=\"--section-color:" + h.color
    + "\">\n    <div class=\"section-header\">\n      <span class=\"section-icon\">" + h.icon
    + "</span>\n      <span class=\"section-label\">" + h.sectionLabel
    + "</span>\n    </div>\n    <div class=\"section-body\">" + storiesHtml
    + "\n    </div>\n  </div>"
  }

  function SectionBlock(s: SectionView): string {
    SectionFrame(s.header, StoriesHtml(s.stories))
  }

  /** `sections_html` after the outer loop: the section blocks in order. */
  function SectionsHtml(ss: seq<SectionView>): string {
    if ss == [] then "" else SectionsHtml(ss[..|ss| - 1]) + SectionBlock(ss[|ss| - 1])
  }

  // The fixed text between the interpolated fields of the page template.
  // None of it depends on the input, so each piece is an opaque constant.

  /** From the doctype to the `<title>` text before the date. */
  const PageStart: string
  /** From `</title>` through the font link to `<style>`. */
  const StyleOpen: string
  /** The stylesheet between `<style>` and `</style>`. */
  const Stylesheet: string
  /** From `</style>` to the masthead's date line, before the day name. */
  const MastheadOpen: string
  /** The rest of the masthead and the opening of the container. */
  const MastheadClose: string
  /** The word-and-question box up to the word itself. */
  const WordOpen: string
  /** Between the word and its definition. */
  const DefinitionOpen: string
  /** Between the definition and the question. */
  const ThinkOpen: string
  /** From the end of the question to the footer's day name. */
  const FooterOpen: string
  /** The rest of the footer, up to `<script>`. */
  const FooterClose: string
  /** The rating script between `<script>` and `</script>`. */
  const Script: string
  /** From `</script>` to the end of the document. */
  const PageEnd: string

  /** The head of the page up to the date in the masthead. */
  function Head(date: string, day: string): string {
    PageStart + date + StyleOpen + Stylesheet + MastheadOpen + day + ", " + date + MastheadClose
  }

  /** The word-and-question box and the footer. */
  function Tail(e: Extras, date: string, day: string): string {
    WordOpen + e.word + DefinitionOpen + e.definition + ThinkOpen + e.think
    + FooterOpen + day + ", " + date + FooterClose + Script + PageEnd
  }

  function PageText(d: DigestView, date: string, day: string): string {
    Head(date, day) + SectionsHtml(d.sections) + Tail(d.extras, date, day)
  }

  /** `render_html(data, date_str, day_name)`: the page, or the exception
      Python raises. */
  function Render(data: Value, date: string, day: string): Result<string> {
    var d :- Layout(data);
    Ok(PageText(d, date, day))
  }

  // ---------------------------------------------------------------------
  // What the page promises

  /** The text a field shows in the page: a string as it is, a number,
      boolean or `None` as printed. */
  function Shown(v: Value): string
    requires Showable(v)
  {
    if v.Str? then v.s else v.text
  }

  /** The tag type of a story, `"world"` when the story has none. */
  function TagTypeOf(story: Value): Value
    requires story.Obj?
  {
    if "tag_type" in story.fields then story.fields["tag_type"] else Str("world")
  }

  /** A story the inner loop renders: a dictionary whose body is a string
      and whose tag type, tag and headline can be shown. */
  predicate StoryOk(story: Value) {
    && story.Obj?
    && "body" in story.fields && story.fields["body"].Str?
    && Showable(TagTypeOf(story))
    && "tag" in story.fields && Showable(story.fields["tag"])
    && "headline" in story.fields && Showable(story.fields["headline"])
  }

  /** A story is laid out exactly when it has the fields its block needs,
      and then its block shows those fields, its body through the callout
      passes. */
  lemma {:induction false} LayoutStoryOk(story: Value)
    ensures LayoutStory(story).Ok? <==> StoryOk(story)
    ensures StoryOk(story) ==>
              LayoutStory(story).value ==
              StoryView(Shown(TagTypeOf(story)), Shown(story.fields["tag"]), Shown(story.fields["headline"]),
                        Markup.RenderStoryBody(story.fields["body"].s))
  {
  }

  /** The tag class is `tag-` followed by the story's `tag_type`, or by
      `world` when it has none. */
  lemma {:induction false} TagClassDefault(story: Value)
    requires LayoutStory(story).Ok?
    ensures story.Obj?
    ensures "tag_type" !in story.fields ==> LayoutStory(story).value.tagType == "world"
    ensures "tag_type" in story.fields ==> Show(story.fields["tag_type"]) == Ok(LayoutStory(story).value.tagType)
  {
  }

  /** A story that is not a dictionary, or lacks its body, tag or headline,
      is an exception and never a default. */
  lemma {:induction false} StoryMissingKeys(story: Value)
    ensures !story.Obj? ==> LayoutStory(story) == Err(AttributeError)
    ensures story.Obj? && "body" !in story.fields ==> LayoutStory(story) == Err(KeyError("body"))
    ensures story.Obj? && ("tag" !in story.fields || "headline" !in story.fields) ==> LayoutStory(story).Err?
  {
  }

  /** A section lacking its stories, id, colour, icon or label is an
      exception. */
  lemma {:induction false} SectionMissingKeys(section: Value)
    ensures !section.Obj? ==> LayoutSection(section) == Err(TypeError)
    ensures section.Obj? && "stories" !in section.fields ==> LayoutSection(section) == Err(KeyError("stories"))
    ensures section.Obj? && !("id" in section.fields && "color" in section.fields &&
                              "icon" in section.fields && "label" in section.fields) ==>
              LayoutSection(section).Err?
  {
  }

  /** A document lacking its sections, word of the day or question is an
      exception. */
  lemma {:induction false} DocumentMissingKeys(data: Value, date: string, day: string)
    ensures !data.Obj? ==> Render(data, date, day) == Err(TypeError)
    ensures data.Obj? && "sections" !in data.fields ==> Render(data, date, day) == Err(KeyError("sections"))
    ensures data.Obj? && !("word_of_day" in data.fields && "think_question" in data.fields) ==>
              Render(data, date, day).Err?
  {
  }

  /** The page renders exactly when the sections can be iterated, every
      section renders and the word of the day and question can be shown. */
  lemma {:induction false} RenderOk(data: Value, date: string, day: string)
    ensures Render(data, date, day).Ok? <==>
              && SectionItems(data).Ok?
              && (forall i :: 0 <= i < |SectionItems(data).value| ==> LayoutSection(SectionItems(data).value[i]).Ok?)
              && PageExtras(data).Ok?
  {
    if SectionItems(data).Ok? {
      MapResultOk(SectionItems(data).value, LayoutSection);
    }
  }

  /** A section renders exactly when its stories can be iterated, every
      story renders and its header fields can be shown. */
  lemma {:induction false} LayoutSectionOk(section: Value)
    ensures LayoutSection(section).Ok? <==>
              && StoryItems(section).Ok?
              && (forall j :: 0 <= j < |StoryItems(section).value| ==> StoryOk(StoryItems(section).value[j]))
              && SectionHeader(section).Ok?
  {
    if StoryItems(section).Ok? {
      var items := StoryItems(section).value;
      MapResultOk(items, LayoutStory);
      forall j | 0 <= j < |items|
        ensures LayoutStory(items[j]).Ok? <==> StoryOk(items[j])
      {
        LayoutStoryOk(items[j]);
      }
    }
  }

  /** The block of each element of `xs`, in order. */
  function Blocks<T>(xs: seq<T>, block: T -> string): (r: seq<string>)
    ensures |r| == |xs|
  {
    seq(|xs|, i requires 0 <= i < |xs| => block(xs[i]))
  }

  /** One more element adds its block at the end. */
  lemma {:induction false} BlocksExtend<T>(xs: seq<T>, block: T -> string)
    requires xs != []
    ensures Concat(Blocks(xs, block)) == Concat(Blocks(xs[..|xs| - 1], block)) + block(xs[|xs| - 1])
  {
    assert Blocks(xs, block)[..|xs| - 1] == Blocks(xs[..|xs| - 1], block);
  }

  /** The stories' text is one story block per story, in order. */
  lemma {:induction false} StoriesInOrder(vs: seq<StoryView>)
    ensures StoriesHtml(vs) == Concat(Blocks(vs, StoryBlock))
  {
    if vs != [] {
      StoriesInOrder(vs[..|vs| - 1]);
      BlocksExtend(vs, StoryBlock);
    }
  }

  /** The sections' text is one section block per section, in order. */
  lemma {:induction false} SectionsInOrder(ss: seq<SectionView>)
    ensures SectionsHtml(ss) == Concat(Blocks(ss, SectionBlock))
  {
    if ss != [] {
      SectionsInOrder(ss[..|ss| - 1]);
      BlocksExtend(ss, SectionBlock);
    }
  }

  /** A laid-out document holds one view per section of the input, each
      laid out from its own element, in order. */
  lemma {:induction false} SectionsOf(data: Value)
    requires Layout(data).Ok?
    ensures var items, d := SectionItems(data).value, Layout(data).value;
            && |d.sections| == |items|
            && forall i :: 0 <= i < |items| ==> LayoutSection(items[i]) == Ok(d.sections[i])
  {
    MapResultOk(SectionItems(data).value, LayoutSection);
  }

  /** A laid-out section holds one view per story of the input, each laid
      out from its own element, in order. */
  lemma {:induction false} StoriesOf(section: Value)
    requires LayoutSection(section).Ok?
    ensures var items, v := StoryItems(section).value, LayoutSection(section).value;
            && |v.stories| == |items|
            && forall j :: 0 <= j < |items| ==> LayoutStory(items[j]) == Ok(v.stories[j])
  {
    MapResultOk(StoryItems(section).value, LayoutStory);
  }

  /** The text of a rendered page is the head, the section blocks in the
      order of the sections, and the tail. */
  lemma {:induction false} PageInOrder(data: Value, date: string, day: string)
    requires Render(data, date, day).Ok?
    ensures var d := Layout(data).value;
            Render(data, date, day).value
            == Head(date, day) + Concat(Blocks(d.sections, SectionBlock)) + Tail(d.extras, date, day)
  {
    SectionsInOrder(Layout(data).value.sections);
  }

  /** `n` stars are the star line `n` times over. */
  lemma {:induction false} StarsRepeat(n: nat)
    ensures Stars(n) == Concat(seq(n, i => StarLine))
  {
    if n > 0 {
      StarsRepeat(n - 1);
      assert seq(n, i => StarLine)[..n - 1] == seq(n - 1, i => StarLine);
    }
  }

  /** The rating widget holds exactly five star lines between its label
      and its closing tag. */
  lemma {:induction false} FiveStars()
    ensures RatingWidget == RatingOpen + Concat(seq(5, i => StarLine)) + RatingClose
  {
    StarsRepeat(5);
  }

  // ---------------------------------------------------------------------
  // The renderer as the program runs it

  /** A section that fails fails the page, after the sections before it. */
  lemma {:induction false} SectionFails(data: Value, items: seq<Value>, i: nat, date: string, day: string)
    requires SectionItems(data) == Ok(items) && i < |items|
    requires MapResult(items[..i], LayoutSection).Ok? && LayoutSection(items[i]).Err?
    ensures Render(data, date, day) == Err(LayoutSection(items[i]).error)
  {
    MapResultStops(items, i, LayoutSection);
  }

  /** The inner loop of `render_html`: one story block per story appended
      to `stories_html`, until the first exception. */
  method RenderStories(stories: seq<Value>) returns (r: Result<string>)
    ensures r == MapResult(stories, LayoutStory).Map(StoriesHtml)
  {
    var storiesHtml := "";
    ghost var views: seq<StoryView> := [];
    for j := 0 to |stories|
      invariant MapResult(stories[..j], LayoutStory) == Ok(views)
      invariant storiesHtml == StoriesHtml(views)
    {
      var story := LayoutStory(stories[j]);
      if story.Err? {
        MapResultStops(stories, j, LayoutStory);
        return Err(story.error);
      }
      storiesHtml := storiesHtml + StoryBlock(story.value);
      MapResultExtend(stories, j, LayoutStory, views);
      assert (views + [story.value])[..|views|] == views;
      views := views + [story.value];
    }
    assert stories[..|stories|] == stories;
    r := Ok(storiesHtml);
  }

  /** One pass of the outer loop: the section's stories, then its block. */
  method RenderSection(section: Value) returns (r: Result<string>)
    ensures r == LayoutSection(section).Map(SectionBlock)
  {
    var items := StoryItems(section);
    if items.Err? {
      return Err(items.error);
    }
    var storiesHtml := RenderStories(items.value);
    if storiesHtml.Err? {
      return Err(storiesHtml.error);
    }
    var header := SectionHeader(section);
    if header.Err? {
      return Err(header.error);
    }
    r := Ok(SectionFrame(header.value, storiesHtml.value));
  }

  /** `render_html`: the outer loop appends one section block per section to
      `sections_html`; the first exception ends the call. */
  method RenderHtml(data: Value, date: string, day: string) returns (r: Result<string>)
    ensures r == Render(data, date, day)
  {
    var items := SectionItems(data);
    if items.Err? {
      return Err(items.error);
    }
    var sections := items.value;
    var sectionsHtml := "";
    ghost var views: seq<SectionView> := [];
    for i := 0 to |sections|
      invariant MapResult(sections[..i], LayoutSection) == Ok(views)
      invariant sectionsHtml == SectionsHtml(views)
    {
      var block := RenderSection(sections[i]);
      if block.Err? {
        SectionFails(data, sections, i, date, day);
        return Err(block.error);
      }
      ghost var view := LayoutSection(sections[i]).value;
      sectionsHtml := sectionsHtml + block.value;
      MapResultExtend(sections, i, LayoutSection, views);
      assert (views + [view])[..|views|] == views;
      views := views + [view];
    }
    assert sections[..|sections|] == sections;
    var extras := PageExtras(data);
    if extras.Err? {
      return Err(extras.error);
    }
    r := Ok(Head(date, day) + sectionsHtml + Tail(extras.value, date, day));
  }
}
