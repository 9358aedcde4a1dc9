# Ema's news digest, modelled in Dafny

`generate_digest.py` builds a daily Hebrew news page for a ten-year-old reader. It asks a language model for the day's digest as JSON, renders the page, saves it, and sends a WhatsApp message with the first headlines. This project models the text-processing part of that script and proves what it does:

- **`render_story_body`** (module `Markup`). The two regular-expression passes turn `[HONEST]…[/HONEST]` into an honest-line box and `[OPENQ]…[/OPENQ]` into an open-question box. Each pass is modelled as a left-to-right scanner: find the first opening token, then the first closing token after it. If there is one, emit the prefix, the wrapper and the inner text, and continue after the closing token. If there is none, emit the rest unchanged. This is what Python's `re.sub` does with a non-greedy, `DOTALL` pattern between literal delimiters.
- **`render_html`** (module `Page`). The document is a parsed JSON value (module `Json`). It is laid out into sections of stories in input order, with the tag type defaulting to `world`. Its fields are interpolated verbatim into the fixed template. Every missing key, and every type Python rejects, ends the call with the exception Python raises. A list or dictionary in a shown field is the one exception: the model fails where Python would print its repr (see `Page.Render` under "## Left out"). The function `Render` states the page; the methods `RenderStories`, `RenderSection` and `RenderHtml` run the program's nested loops and are proved to compute it.
- **The response cleanup in `call_claude`** (module `Response`):
  - the `text` fields of the blocks whose `type` is `"text"` are concatenated in order;
  - the result is trimmed;
  - a leading code-fence line and everything from the last fence on are removed.
- **The dates in `main`** (module `Dates`): the weekday name, the display string `D בMONTH YYYY` and the `YYYY-MM-DD` slug.
- **The headlines** (module `Digest`): the nested loop in `main` that collects the headlines, and the preview in `send_whatsapp` that joins the first three with `" · "`.

Module `Text` holds the string operations these rely on, each with its specification: substring search (`str.find`, `str.rfind`), `str.strip`, decimal digits and zero padding.

## Model

The table lists the members whose contracts state what the source does. Each source operation is defined by one function, and the contracts below are about these functions:
- `render_story_body` is `Markup.RenderStoryBody`, built from the pass `Markup.Substitute` and its scanner step `Markup.NextMatch`;
- `render_html` is `Page.Render`, over the layouts `Page.Layout`, `Page.LayoutSection` and `Page.LayoutStory`;
- the cleanup in `call_claude` is `Response.CleanResponse`, made of `Response.BlockText`, `Response.ResponseText` and `Response.Unfence`;
- the date texts in `main` are `Dates.DayName`, `Dates.DateString` and `Dates.Slug`;
- the headline collection is `Digest.Headlines`, and the preview is `Digest.Preview`.

| member | source | states |
|---|---|---|
| `Markup.NextMatchIsMatch` | generate_digest.py:129-133 | The scanner step's result is a match: an opening token, then a closing token after it, and no closing token starts in between (non-greedy `.*?`). |
| `Markup.NextMatchIsLeftmost` | generate_digest.py:129-133 | No match starts before the one the scanner finds. A match at the same start is exactly the one found, so its closing token is the first one after the opening token. |
| `Markup.NextMatchNoneIff` | generate_digest.py:129-133 | The scanner finds nothing exactly when no opening token is followed anywhere later by a closing token. |
| `Markup.SubstituteUnchangedIff` | generate_digest.py:126-139 | A pass returns its input unchanged exactly when no opening token is later followed by a closing token. So an opening token with no closing token after it is left as it is. |
| `Markup.SubstituteLength` | generate_digest.py:129-138 | A pass never shortens the body, and it lengthens it whenever it replaces a span. |
| `Markup.NoBracketUnchanged` | generate_digest.py:126-139 | A body without `[` passes through both passes unchanged. |
| `Markup.SkipPrefix` | generate_digest.py:129-133 | Text before the first opening token is copied through as it is. |
| `Markup.SubstituteFirstSpan` | generate_digest.py:129-133 | One span in plain text becomes the wrapper around the same inner text, with the text before it kept. |
| `Markup.TwoSpans` | generate_digest.py:129-133 | Two separate spans become two separate boxes (matching is non-greedy), and the text between them is kept. |
| `Markup.HonestPassKeepsQuestions` | generate_digest.py:129-133 | On a bracket-free body of plain text, facts and questions, the HONEST pass converts every fact and leaves every `[OPENQ]` span untouched. |
| `Markup.OpenQPassFinishes` | generate_digest.py:134-138 | For a bracket-free body, the OPENQ pass, run on the HONEST pass's output, converts every question. |
| `Markup.RenderStoryBodyOfPieces` | generate_digest.py:126-139 | For a bracket-free body with balanced, non-nested callouts, `render_story_body` gives the boxes in order and keeps the text between them. None of the four tokens is left in the output. |
| `Markup.RenderedBracketFree` | generate_digest.py:126-139 | The rendered body of a bracket-free document holds no `[` at all. |
| `Markup.OpenQInsideHonest` | generate_digest.py:126-139 | An OPENQ span inside an honest callout is still converted, inside the honest-line box. |
| `Markup.ExampleBody` | generate_digest.py:129-133 | A concrete Hebrew body with one HONEST span renders to the honest-line box around its inner text. |
| `Page.LayoutStoryOk` | generate_digest.py:146-153 | A story is rendered exactly when it is a dictionary with a string `body` and showable `tag`, `headline` and tag type. Its block then shows those fields, with the body passed through `render_story_body`. |
| `Page.TagClassDefault` | generate_digest.py:147 | The tag class is the story's `tag_type` when present and `world` otherwise. |
| `Page.StoryMissingKeys` | generate_digest.py:147-152 | A story that is not a dictionary raises `AttributeError`, a missing `body` raises `KeyError('body')`, and a missing `tag` or `headline` is an error, never a default. |
| `Page.SectionMissingKeys` | generate_digest.py:146-168 | A section that is not a dictionary raises `TypeError`, and a missing `stories` raises `KeyError('stories')`. A missing `id`, `color`, `icon` or `label` is an error. |
| `Page.DocumentMissingKeys` | generate_digest.py:144-175 | A document that is not a dictionary raises `TypeError`, and a missing `sections` raises `KeyError('sections')`. A missing `word_of_day` or `think_question` is an error. |
| `Page.RenderOk` | generate_digest.py:142-175 | The page renders exactly when three things hold: the sections can be iterated, every section renders, and the word of the day and the question can be shown. |
| `Page.LayoutSectionOk` | generate_digest.py:144-172 | A section renders exactly when three things hold: its stories can be iterated, every story renders, and its header fields can be shown. |
| `Page.SectionFails` | generate_digest.py:144-172 | The first section that fails makes the whole page fail, with that section's exception. |
| `Page.SectionsOf` | generate_digest.py:144 | A laid-out document has exactly one section view per input section, each laid out from that section, in order. |
| `Page.StoriesOf` | generate_digest.py:146 | A laid-out section has exactly one story view per input story, each laid out from that story, in order. |
| `Page.StoriesInOrder` | generate_digest.py:145-162 | `stories_html` is the story blocks of the section's stories, one per story, concatenated in order. |
| `Page.SectionsInOrder` | generate_digest.py:143-172 | `sections_html` is the section blocks, one per section, concatenated in order. |
| `Page.PageInOrder` | generate_digest.py:142-300 | The page is the template head, the section blocks in order, and the word-and-question box with the footer. |
| `Page.StarsRepeat` | generate_digest.py:156-160 | `n` stars are the star line repeated `n` times. |
| `Page.FiveStars` | generate_digest.py:154-161 | The rating widget every story block carries holds exactly five star lines between its label and its closing tag. |
| `Page.RenderStories` | generate_digest.py:145-162 | The inner loop's `stories_html`, or the first story's exception, equals the specification of the section's stories. |
| `Page.RenderSection` | generate_digest.py:144-172 | One pass of the outer loop gives the section block of the laid-out section, or its exception. |
| `Page.RenderHtml` | generate_digest.py:142-300 | `render_html` returns exactly the page `Render` specifies, or the exception it specifies. |
| `Response.ResponseBody` | generate_digest.py:325-334 | The loop and the reassignments of `text` compute exactly the specified cleaned response, or its exception. |
| `Response.ResponseTextOfTextBlocks` | generate_digest.py:325-328 | The response text exists exactly when every content block is a dictionary whose `text`, for a text block, is a string. It is then the `text` fields of exactly the text blocks, concatenated in order. |
| `Response.BlockTextOk` | generate_digest.py:327-328 | A block contributes its `text` when its `type` is `"text"`, nothing otherwise, and fails when it is not a dictionary or its text is not a string. |
| `Response.OtherBlockIgnored` | generate_digest.py:326-328 | A block that is not a text block adds nothing to the text. |
| `Response.UnfencePlain` | generate_digest.py:331-334 | A text that does not start with a fence is returned trimmed and otherwise unchanged. |
| `Response.UnfenceIndexError` | generate_digest.py:332-333 | The cleanup raises `IndexError` exactly when the trimmed text starts with a fence and has no line break. |
| `Response.UnfenceFenced` | generate_digest.py:332-334 | A fenced text loses its first line. What remains is cut before its last fence: the answer is a prefix of the remainder, all of it exactly when the remainder holds no fence, and otherwise it ends where a fence starts with none starting later. |
| `Response.UnfenceRoundTrip` | generate_digest.py:331-334 | Wrapping a body in an opening fence line and a closing fence, with white space around, gives the body back, even when the body itself holds fences. |
| `Response.UnfenceUnclosed` | generate_digest.py:333-334 | A fenced text with no fence after its first line loses only that line, whatever backquotes the rest holds. |
| `Dates.WeekdayNames` | generate_digest.py:367-371 | The seven weekday names are distinct. Weekday 5 is "שבת" and weekday 6 is "יום ראשון". |
| `Dates.MonthNamesDistinct` | generate_digest.py:372 | The twelve month names are distinct, and none contains a space. |
| `Dates.DateStringDetermines` | generate_digest.py:372 | The display string determines the day, the month and the year. |
| `Dates.PaddedRoundTrip` | generate_digest.py:373 | A number below 10^w, zero-padded to width w, is w digits that read back as the number. |
| `Dates.SlugRoundTrip` | generate_digest.py:373 | The slug is ten characters with dashes at positions 4 and 7. Its digit fields read back as the year, the month and the day. |
| `Dates.SlugDetermines` | generate_digest.py:373 | Different dates have different slugs. |
| `Digest.CollectHeadlines` | generate_digest.py:398-401 | The nested loop's list equals the specified headlines: section by section, story by story, or the first exception. |
| `Digest.HeadlinesOfPage` | generate_digest.py:398-401 | For a document the page lays out, there is one headline per story, so the count equals the total number of stories. They come in the page's order, and each shows as that story's headline. |
| `Digest.SectionHeadlinesOfPage` | generate_digest.py:399-401 | A section the page lays out contributes one headline per story, in story order. |
| `Digest.SplitJoin` | generate_digest.py:342 | Splitting the `" · "`-joined texts at the separator gives them back when none contains the middle dot. |
| `Digest.PreviewRoundTrip` | generate_digest.py:342 | The preview is the first min(3, n) headlines joined by `" · "`, and splitting it gives exactly those headlines back, in order. |
| `Digest.PreviewEmpty` | generate_digest.py:342 | With no headlines the preview is empty. |
| `Digest.PreviewTypeError` | generate_digest.py:342 | A non-string among the first three headlines raises `TypeError`. Later headlines are never looked at. |
| `Json.Lookup` | generate_digest.py:148 | `d[key]` returns the field of a dictionary that has the key. It raises `KeyError` for a missing key and `TypeError` on a value that is not a dictionary. |
| `Json.GetOr` | generate_digest.py:147 | `d.get(key, default)` returns the field or the default. It raises `AttributeError` on a value that is not a dictionary. |
| `Json.Elements` | generate_digest.py:144-146 | A `for` loop visits the items of a list and the characters of a string. An empty dictionary yields nothing. A non-empty dictionary yields keys, on which the loop body fails. A number is not iterable. |
| `Json.Show` | generate_digest.py:151-152 | An f-string shows a string as it is and a number, boolean or `None` as printed. |
| `Json.AsStr` | generate_digest.py:328 | Only a string can be added to a string; anything else raises `TypeError`. |
| `Json.MapResultOk` | generate_digest.py:144-162 | A loop that stops at the first exception succeeds exactly when every element succeeds. It then yields one result per element, in order. |
| `Json.MapResultFirstError` | generate_digest.py:144-162 | A loop that fails raises the exception of the first element that fails. |
| `Json.MapResultStops` | generate_digest.py:144-162 | An exception at element `k`, after `k` successful iterations, is the outcome of the loop. |
| `Text.IndexOfSpec` | generate_digest.py:333 | The search finds the leftmost occurrence at or after its start, and finds nothing only when there is none. |
| `Text.LastIndexOf` | generate_digest.py:334 | The backwards search finds an occurrence with none after it, and nothing only when there is no occurrence. |
| `Text.StripLeading` | generate_digest.py:331 | What `lstrip` removes is all white space, and what remains starts with a non-space character. |
| `Text.StripTrailing` | generate_digest.py:331 | What `rstrip` removes is all white space, and what remains ends with a non-space character. |
| `Text.StripPadded` | generate_digest.py:331 | Trimming a text with white space around a core that starts and ends with non-space characters gives the core. |
| `Text.DecimalRoundTrip` | generate_digest.py:372 | The decimal digits of a number read back as the number. |

## Left out

- Network, environment and files are not modelled. This covers the environment variables, both HTTP calls and `raise_for_status`, `json.loads`, `requests.utils.quote`, the clock and time-zone lookup, directory creation and the two `write_text` calls, and the `print` calls. The parsed document, the parsed response and today's date (year, month, day, weekday) are inputs.
- `build_prompt` is not modelled. It is a constant prompt with two interpolated fields.
- The fixed text of the page template is a set of opaque string constants in `Page`. This covers the doctype and head, the stylesheet, the masthead, the word-and-question box, the footer and the rating script. The story and section block templates keep their exact text.
- The WhatsApp message around the preview and the page URL are not modelled. Both are fixed text plus configuration.
- Page.Render: an f-string field holding a list or a dictionary makes the model fail with `NotText`. Python would print the value's repr instead.
- Markup.HonestPassKeepsQuestions: proved only for bracket-free bodies, where no `[` occurs besides the four delimiters. The source treats other bodies the same way.
- Markup.OpenQPassFinishes: proved only for bracket-free bodies, where no `[` occurs besides the four delimiters.
- Markup.RenderStoryBodyOfPieces: proved only for bracket-free bodies, where no `[` occurs besides the four delimiters. A body such as `מחיר [בערך] 5` next to a callout is outside what is proved.
- Dates.SlugRoundTrip: the year is zero-padded to four digits. For years below 1000, what `%Y` prints depends on the platform's C library.
- Response.ResponseBody: the model returns the cleaned text. It does not parse it as JSON.
- `Json.Value` keeps a number, boolean or `null` only as the text Python prints for it. That is the only way the script uses such values.
