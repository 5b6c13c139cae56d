# News card layout engine, in Dafny

This project models the layout core of a browser page that composes a
1080x1350 "news card". The card has a background, a white date box and a
headline fitted into a fixed box. All of that logic is in `script.js`.

- `LineWrap` (`line_wrap.dfy`) models `wrapTextHelper`. It is a line breaker
  that counts characters and never measures pixels. A line holds
  `floor(maxWidth / (fontSize * 0.56))` characters. Text with no `' '` that is
  longer than a line is cut into chunks of that many characters. Any other
  text is packed word by word; words come from `split(' ')`, and a word is
  never split, and a line is closed only when the next word would not fit.
  Both paths keep at most 8 lines. The method keeps both loops of the source,
  each in a helper method. It is proved against the function `Wrap`, and
  lemmas about `Wrap` prove the properties.
- `HeadlineFit` (`headline_fit.dfy`) models `drawHeadlineTextScaled`. The
  starting font size comes from a ladder indexed by the headline's length.
  The `while` loop then shrinks the size by 2 until the block
  `lines * ceil(1.3 * size) + 30` fits in `400 * scaleY`, or until the size is
  no longer above `round(24 * scaleX)`. A final loop places each line. Each
  loop is kept in a helper method, `ShrinkToFit` and `PlaceLines`. The
  method is proved against the function `HeadlineLayoutOf`, and
  `ShrinkOutcome` proves what the shrink loop guarantees.
- `Compose` (`compose.dfy`) models the remaining parts:
  - the `MM/DD/YYYY` date string;
  - the scaled date box;
  - the two compose paths, one over the fetched template and one over the
    red fallback background;
  - `generateTemplate`, which trims the input and picks a path from how the
    template request ended.

All arithmetic is exact. The scale factors are the rationals `1080/920` and
`1350/1000`. `Math.round(x)` is `floor(x + 0.5)`, and `Math.ceil(1.3 * f)` is
`(13 * f + 9) / 10`. On the 1080x1350 canvas this gives:

- starting sizes 66, 61, 56, 52, 47, 42 and 38;
- a minimum size of 28;
- a height budget of 540;
- a first line at y = 567;
- a date box of 258x81 at (61, 270), with a 38-pixel date.

The model keeps these details of the code:

- Words come from `split(' ')`, which cuts at the single character `' '`
  only, so other white space stays inside a word.
- Line capacity is a character count: `.length` against
  `floor(maxWidth / (fontSize * 0.56))`. No pixel width is measured.
- The image box is disabled (script.js:122), so no photo is placed on the
  card.
- The starting sizes are the tiers of the 920x1000 reference layout, scaled
  by `1080/920`. A 72-character headline starts at 47 pixels: the 40-pixel
  tier scaled and rounded.

## Model

| member | source | states |
|---|---|---|
| LineWrap.CharsPerLine | script.js:187-188 | `Math.floor(maxWidth / (fontSize*0.56))`; `CharsPerLineBounds` characterises it |
| LineWrap.CharsPerLineBounds | script.js:187-188 | the characters-per-line count is the largest n with `n * charWidth <= maxWidth` |
| LineWrap.WrapTextHelper | script.js:186-213 | the two loops return `Wrap(text, CharsPerLine(fontSize, maxWidth))`, which has at most 8 lines; the method demands at least one character per line only when the hard split runs, since `i += 0` would never end |
| LineWrap.HardSplit | script.js:192-195 | the `for` loop over `i += maxCharsPerLine` pushes exactly `Chunks(text, max)` |
| LineWrap.PackWords | script.js:199-210 | the `for ... of` loop over the words, with the final push of the open line, returns exactly `Pack(words, "", max)` |
| LineWrap.Cap | script.js:196 | `lines.slice(0, 8)`: the first eight lines; `CapShape` proves its length and that it is a prefix |
| LineWrap.Chunks | script.js:193-195 | the `substring(i, i+max)` pieces for `i = 0, max, 2*max, ...`; `ChunksShape`, `ChunksStep` and `ChunksCount` prove their shape and number |
| LineWrap.Join | script.js:202 | words joined with single spaces, the way line 202 builds a line from `line + ' ' + word`; `SplitJoin` proves it inverts line 198's `split(' ')` |
| LineWrap.Split | script.js:198 | `text.split(' ')`, with empty words for adjacent, leading or trailing spaces; always at least one word; `SplitJoin` and `SplitWithoutSpace` prove its properties |
| LineWrap.Pack | script.js:199-210 | the greedy packing loop as a recursion over the remaining words and the open line; `PackRuns`, `PackLines`, `PackOpenLine`, `PackJoin` and `PackGreedy` prove its properties |
| LineWrap.Wrap | script.js:186-213 | the choice between hard split and word packing, then the cap; the predicate `HardSplitMode` is the branch test of script.js:189-191 (no `' '` and longer than a line); `HardSplitLines`, `WordWrapLines`, `WordWrapGreedy`, `WordWrapJoin` and `EmptyTextHasNoLines` prove its properties |
| LineWrap.CapShape | script.js:196 | `slice(0, 8)` keeps the first `min(n, 8)` lines |
| LineWrap.ChunksShape | script.js:193-195 | the `substring(i, i+max)` chunks are non-empty and at most `max` long; all but the last are exactly `max` long; together they spell the text |
| LineWrap.ChunksStep | script.js:193-195 | one turn of the loop: the chunks from `i` on are `substring(i, i+max)` followed by the chunks from `i+max` |
| LineWrap.ChunksCount | script.js:193-195 | the loop produces `ceil(len / max)` chunks |
| LineWrap.HardSplitLines | script.js:191-196 | in hard-split mode the result has `min(8, ceil(len/max))` lines; each is non-empty and at most `max` long; all but the last are exactly `max` long; joined, they are a prefix of the text, and all of it when at most 8 chunks were cut |
| LineWrap.SplitJoin | script.js:198 | `text.split(' ')` joined with `' '` gives back the text, and no word contains `' '` |
| LineWrap.SplitRoundTrip | script.js:198 | `text.split(' ')` joined with `' '` gives back the text |
| LineWrap.SplitWordsHaveNoSpace | script.js:198 | no word of `text.split(' ')` contains `' '` |
| LineWrap.SplitWithoutSpace | script.js:189-198 | text without a `' '` splits into itself alone |
| LineWrap.PackRuns | script.js:199-210 | every line the packing loop pushes is a run of consecutive words joined by single spaces, so no word is ever split |
| LineWrap.RunExtends | script.js:202 | `line + ' ' + word` for an open line of words `start..i` is the run of words `start..i+1` |
| LineWrap.PackRunsClose | script.js:203-205 | the turn that pushes the open line pushes a run and opens a new run at the current word |
| LineWrap.PackRunsOpen | script.js:202-207 | the turn that opens a line with the current word keeps every pushed line a run |
| LineWrap.PackRunsGrow | script.js:202-207 | the turn that adds the current word to an open line that is a run keeps every pushed line a run |
| LineWrap.PackLines | script.js:199-210 | every pushed line is non-empty, and a line longer than the limit is one of the words |
| LineWrap.PackOpenLine | script.js:204-210 | an open line is always pushed: the first line that comes out is the open line itself, or the open line followed by more words, so the packing never loses it |
| LineWrap.PackJoin | script.js:199-210 | when no word is empty, the packed lines joined with `' '` are exactly the words joined with `' '` (after the open line, if there is one) |
| LineWrap.PackJoinClose | script.js:203-205 | the turn that pushes the open line keeps the joined text unchanged |
| LineWrap.PackJoinGrow | script.js:202-207 | the turn that adds a word to the open line keeps the joined text unchanged |
| LineWrap.SplitHead | script.js:198 | the first word of `split(' ')` of `a + ' ' + b` is the first word of `a` |
| LineWrap.PackGreedy | script.js:201-209 | a line is closed only when `line + ' ' + word` would pass the limit: each pushed line but the last, plus a space and the next line's first word, is longer than the limit; an open line keeps its first word |
| LineWrap.WordWrapGreedy | script.js:197-211 | in word-wrap mode, for every line but the last, the line plus a space plus the first word of the next line is longer than the limit, so no line could have taken another word |
| LineWrap.WordWrapLines | script.js:197-211 | in word-wrap mode: at most 8 lines, none empty, each a run of whole words of `split(' ')`; a line over the limit is a single word with no `' '`; `WordWrapGreedy` states where lines break |
| LineWrap.WordWrapJoin | script.js:198-211 | when `split(' ')` gives no empty word, the lines before the cap joined with `' '` equal the text, and after the cap they are a prefix of it |
| LineWrap.EmptyTextHasNoLines | script.js:198-211 | the empty text gives no lines |
| LineWrap.HundredLettersInThreeChunks | script.js:187-196 | 100 letters with no space at size 32 in 880 pixels: 49 characters per line, so 3 chunks |
| HeadlineFit.Round | script.js:225 | `Math.round` gives the integer within half a unit, rounding halves up |
| HeadlineFit.MaxWidth | script.js:217-221 | the wrap width `880 * scaleX`, with `ScaleX` the factor `canvasWidth / 920` of script.js:101, 160 and 217; `InstagramCanvasConstants` gives its value at 1080 |
| HeadlineFit.MaxHeight | script.js:218-222 | the height budget `400 * scaleY`, with `ScaleY` the factor `canvasHeight / 1000` of script.js:102, 161 and 218; `InstagramCanvasConstants` gives 540 at 1350 |
| HeadlineFit.MinFontSize | script.js:237 | the loop's floor `Math.round(24 * scaleX)`; `InstagramCanvasConstants` gives 28 at 1080 |
| HeadlineFit.HeadlineTop | script.js:243 | the first line's y `Math.round(420 * scaleY)`; `InstagramCanvasConstants` gives 567 at 1350 |
| HeadlineFit.BaseFontSize | script.js:225-231 | the unscaled tier 32/36/40/44/48/52/56 picked by `headline.length`; `StartFontSizeNonIncreasing` proves the ladder never grows with length |
| HeadlineFit.StartFontSize | script.js:225-231 | the tier scaled by `scaleX` and rounded; `StartFontSizeInRange` bounds it and `InstagramCanvasConstants` lists its values at 1080 |
| HeadlineFit.LineHeight | script.js:242 | `ceil(fontSize * 1.3)`: the least integer that is at least `1.3 * fontSize` |
| HeadlineFit.StartFontSizeNonIncreasing | script.js:225-231 | the starting size depends only on `headline.length` and never grows as the length grows |
| HeadlineFit.StartFontSizeInRange | script.js:225-231 | every starting size lies between the loop's minimum and the largest tier |
| HeadlineFit.UsableFontSize | script.js:187-193 | every size the loop can reach is positive and gives at least one character per line, so every `wrapTextHelper` call terminates |
| HeadlineFit.Fits | script.js:233-239 | the loop's test: `BlockHeight`, that is `lines.length * ceil(1.3 * size) + 30`, is within `400 * scaleY` for `WrapAt`, the lines the `wrapTextHelper` calls of lines 233 and 239 give at that size |
| HeadlineFit.ShrinkWith | script.js:237-240 | the shrink loop as a recursion for a given fit test and floor: step down by 2 while the size does not fit and is above the floor |
| HeadlineFit.Shrink | script.js:236-240 | `ShrinkWith` for the headline's own fit test and `round(24 * scaleX)`; `ShrinkOutcome` proves where it stops |
| HeadlineFit.ShrinkSteps | script.js:237-238 | the loop ends at or below its start, by whole 2-pixel steps, and never more than one below the floor |
| HeadlineFit.ShrinkExit | script.js:237 | the loop ends where the size fits or is not above the floor |
| HeadlineFit.ShrinkSkipsAt | script.js:237-240 | a size the loop stepped over does not fit |
| HeadlineFit.ShrinkTurn | script.js:237-239 | one turn of the loop: a size above the floor that does not fit steps down by 2 to a size still in range, and the loop's outcome is unchanged |
| HeadlineFit.ShrinkStops | script.js:237 | the loop stops at once on a size that fits or is not above the floor |
| HeadlineFit.ShrinkToFit | script.js:233-240 | the `while` loop ends at exactly `Shrink(headline, box, start)`, in range, with `lines` the wrap at that size |
| HeadlineFit.ShrinkOutcome | script.js:237-240 | the loop ends in range, by whole 2-pixel steps; the final block fits or the size is not above the minimum; no size it stepped over fits, and each of those is in range |
| HeadlineFit.PlaceLines | script.js:252-255 | the `for` loop over the lines computes exactly `LineTops(top, lineHeight, count)` |
| HeadlineFit.LineTops | script.js:252-255 | the y of line i is `headlineTop + i*lineHeight`; `LineTopsIncrease` proves there is one per line and that they strictly increase |
| HeadlineFit.HeadlineLayoutOf | script.js:216-255 | the final size, line height, lines, line tops and centre of a headline on a canvas; `DrawHeadlineTextScaled` is proved equal to it and `HeadlineFitOutcome` states what it guarantees |
| HeadlineFit.DrawHeadlineTextScaled | script.js:216-255 | the ladder, the shrink loop (`ShrinkToFit`) and the line loop (`PlaceLines`) give exactly `HeadlineLayoutOf(headline, canvasWidth, canvasHeight)` |
| HeadlineFit.HeadlineFitOutcome | script.js:225-242 | the final size is at most the starting size, reached by 2-pixel steps, and never more than one below the minimum; the lines are `wrapTextHelper`'s at that size, at most 8; the block fits or the size reached the minimum; no larger step size fits |
| HeadlineFit.LineTopsIncrease | script.js:242-255 | one y-position per line; line i is at `headlineTop + i*lineHeight`; line height is positive, so the positions strictly increase |
| HeadlineFit.InstagramCanvasConstants | script.js:217-243 | at 1080x1350: tiers 66/61/56/52/47/42/38 by length, minimum 28, height budget 540, wrap width 23760/23, first line at 567 |
| Compose.DecimalString | script.js:40-42 | `String(n)` is a non-empty string of digits with no leading zero |
| Compose.DecimalRoundTrip | script.js:40-42 | reading back `String(n)` gives n; one digit below 10, at most two below 100 |
| Compose.LeadingZero | script.js:40-41 | a leading `'0'` does not change the value of a digit string |
| Compose.PadStart2 | script.js:40-41 | `padStart(2, '0')`: `'0'`s in front of a string shorter than two; `PadStart2Value` proves length and value |
| Compose.YearString | script.js:42-43 | `String(getFullYear())`, with a `-` for negative years; `YearStringValue` proves it reads back as the year |
| Compose.GetDateString | script.js:38-44 | `MM/DD/YYYY` from the given date; `DateStringFields` proves each field |
| Compose.PadStart2Value | script.js:40-41 | `padStart(2, '0')` gives at least two digits with the same value |
| Compose.FieldsAt | script.js:44 | in `m + '/' + d + '/' + y` with two-character m and d, the slashes are at 2 and 5 and each field is where it belongs |
| Compose.DateStringFields | script.js:38-44 | the date is two digits of `getMonth()+1`, `/`, two digits of the day, `/`, the year, and each field reads back as its number |
| Compose.YearStringValue | script.js:42-43 | the year field reads back as the year, with a leading `-` when it is negative |
| Compose.TrimStart | script.js:51 | drops leading ECMAScript white space and line terminators (the set `WhiteSpace`, tested by `IsTrimmable`); never longer than the input; `TrimStartShape` proves the rest |
| Compose.TrimEnd | script.js:51 | drops trailing ECMAScript white space and line terminators; never longer than the input; `TrimEndShape` proves the rest |
| Compose.Trim | script.js:51 | `value.trim()` as `trimEnd` after `trimStart`; `TrimShape` and `TrimIdempotent` prove its properties |
| Compose.TrimStartShape | script.js:51 | trimming the start keeps a suffix that does not begin with white space, and drops only white space |
| Compose.TrimEndShape | script.js:51 | trimming the end keeps a prefix that does not end with white space, and drops only white space |
| Compose.TrimShape | script.js:51 | `trim()` keeps one contiguous run with no white space at either end, and drops only white space around it |
| Compose.TrimIdempotent | script.js:51 | trimming twice is trimming once |
| Compose.DateBox | script.js:106-109 | the date box `round(52*sX), round(200*sY), round(220*sX), round(60*sY)`; `DateBoxInsideCanvas` and `InstagramDateStamp` prove its bounds and values |
| Compose.DateStampOf | script.js:105-120 | the date box, `round(32*sX)` font, date text and the anchor `(left + width - 10, top + height/2)`; `InstagramDateStamp` gives its values at 1080x1350 |
| Compose.FallbackBackground | script.js:141-157 | the fallback's header bar `(0, 0, W, 150)` and footer bar `(0, H-135, W, 135)`; `ComposeTemplateFallback` uses it |
| Compose.CardOf | script.js:87-183 | the card both compose paths produce: the 1080x1350 canvas, a background, the date stamp and the headline layout; `ComposeTemplate`, `ComposeTemplateFallback` and `GenerateTemplate` are proved to return it |
| Compose.DateBoxInsideCanvas | script.js:106-109 | the scaled date box is non-empty and inside the canvas |
| Compose.InstagramDateStamp | script.js:101-120 | at 1080x1350: box (61, 270, 258, 81), font 38, text anchored at x 309, y 310.5 |
| Compose.ComposeTemplate | script.js:87-128 | the template path gives the 1080x1350 card over the template image, with the shared date stamp and headline layout |
| Compose.ComposeTemplateFallback | script.js:131-183 | the fallback path gives the same card over the fallback background and its header and footer bars |
| Compose.GenerateTemplate | script.js:50-84 | blank input (after `trim`) composes nothing; otherwise the card is `CardOf` the trimmed headline over the template when the image loaded and over the fallback background when the fetch or the decode failed, so the date stamp and headline are the same for every fetch outcome |

## Left out

- DOM wiring is not modelled: the `DOMContentLoaded` and `input` listeners, URL parameter decoding, the character counter, showing the result and scrolling (script.js:5-35, 65, 126-127).
- The template fetch, `Image` loading and its callbacks are not modelled (script.js:57-83). Their outcome is a parameter of `GenerateTemplate`.
- `autoUploadToPostimg`, the postimages token scraping and upload, download and clipboard are not modelled (script.js:259-384). They are network and browser I/O.
- `generateTemplate` runs on every `input` event (script.js:30-34), and overlapping fetches can finish out of order, so an older headline can be drawn last. `GenerateTemplate` models one call on its own; the interleaving of calls is not modelled.
- The clock is a parameter: `getDateString` takes a `CalendarDate` in place of `new Date()`.
- Canvas drawing is not modelled. That covers colours, font strings, the fallback's title texts and their positions, and the rasterisation. Only computed coordinates, sizes and texts are kept. A compose path returns a card value; it does not overwrite a shared canvas.
- `headlineLeft` (script.js:244) is computed but never used by the source, so it is not modelled.
- Floating point is not modelled. `fontSize * 0.56`, the scale factors and `* 1.3` are exact rationals, not IEEE doubles. A double result that falls on the other side of a floor or a ceiling is not captured.
- `.length` counts UTF-16 code units in the source. The model counts Dafny characters, which are Unicode scalar values, so a headline with characters outside the Basic Multilingual Plane is measured differently.
- HeadlineFit.DrawHeadlineTextScaled: requires `canvasWidth >= 58`. Both callers pass 1080. On narrower canvases the minimum size rounds below 2, the loop can reach a size of 0 or less, and the source then divides by a zero or negative character width.
- Compose.DateStringFields: stated only for a month and a day below 100. `Date` always gives such values; longer fields are built the same way.
