# Literary Quote Clock — a Dafny model of the layout and the clock buffer

Literary Quote Clock shows, once a minute, a bitmap of a literary quotation
that mentions the current time, on an e-paper screen. This project models
the three Python files that do the work:

- `get_image.py` is the layout used live. It wraps a quote greedily with
  marker characters for paragraph breaks (⭐), line breaks (📖) and
  italic runs (◻, ◯). It grows and then shrinks the font size until the
  wrapped block fits the area above the credits. It brackets the first
  case-insensitive match of the timestring with `|` bookmarks. It then
  draws the quote word by word: a cursor `(x, y)` advances, and a
  two-mark style machine switches between normal, bold and bold italic.
- `make_images.py` is the batch generator. It is an older copy of the same
  layout with different constants. Its `wrap_lines` returns from inside
  its loop. Its `draw_quote` raises `LookupError` on a missing
  timestring, indents at ⭕, and has no ◯ run branch. It numbers images
  of the same minute with a counter and caps the batch by a job count.
- `clock.py` keeps the clock's time as `HHMM` stamps and does the
  minute arithmetic (+1 while filling, +3 when updating, with hour and
  day roll-over). It also keeps a three-image FIFO buffer, including
  what it does when a bitmap is missing.

Modules:

- `Outcomes`: `Option`, `Result` and the Python exceptions involved.
- `Text`: the `str` operations the code relies on, such as `split()`,
  `split(c)`, `count`, `replace`, `strip`, `splitlines`, `lower`,
  slicing, `index`, `str(int)` and `int(str)`.
- `Drawing`: what the two layout copies share.
  - Pillow is seen only through an `Env` of measurement functions.
  - The canvas is a `Canvas` class whose `commands` log records every
    `ImageDraw.text` call.
  - The pen, the fold over words and lines, and the bookmarking.
- `GetImage`, `MakeImages`, `Clock`: the three files.

Each loop of the source is a `method` with a `while` or `for` loop. That method is
proved against a function that specifies it (for example `Wrap`,
`WalkWords`, `WalkLines`, `CreditCmds`, `Tick`/`After`). The
properties are proved about that function. Objects that the source mutates
are classes: the canvas, the `Clock` with its buffer of `QuoteImage`
objects, and the batch counter `MakeImages.Batch`.

## Model

| member | source | states |
|---|---|---|
| Drawing.CreateFont | get_image.py:305-309 | a font is created exactly when its size is at least 1 (Pillow refuses smaller sizes with `ValueError`) |
| Drawing.Canvas.Write | get_image.py:149 | one `ImageDraw.text` call appends exactly one command to the canvas log and changes nothing else |
| Drawing.WriteSeg | get_image.py:160-161 | `write` at the pen then `x += textlength`: one command at the pen, pen advanced by the measured width |
| Drawing.UnmarkedAppend | get_image.py:235-240 | removing the italic markers distributes over concatenation |
| Drawing.WalkWordsSticky | get_image.py:154-212 | once a word raises, the rest of the line adds nothing |
| Drawing.WalkLinesSticky | get_image.py:153-217 | once a line raises, the later lines add nothing |
| Drawing.WalkWordsAppend | get_image.py:154-212 | walking `xs + ys` is walking `xs`, then `ys` from where the pen was left |
| Drawing.WalkWordsGeometry | get_image.py:154-212 | within a line every segment starts where the previous one's measured width ended, and y is unchanged |
| Drawing.WalkLinesGeometry | get_image.py:213-217 | after `n` lines without an exception y has moved down `n` line steps, blank lines included, and x is back at the anchor |
| Drawing.BookmarkedRemoved | get_image.py:133-137 | the marked text is two longer, has `|` at `s` and at the clamped end + 1, and deleting those two gives back the text; the count of `|` grows by two |
| Drawing.BookmarkedSpan | get_image.py:126-137 | when found, the bookmarks enclose a span that matches the timestring case-insensitively with newlines as spaces, and no earlier position matches |
| Text.FindFirst | get_image.py:129 | `str.index`: the match found is the first; `None` (the `ValueError`) exactly when there is no match |
| Text.Count | get_image.py:158 | `word.count(c)` is at most the length, and 0 exactly when `c` does not occur |
| Text.SplitOn | get_image.py:158-165 | `split(c)` gives `count + 1` pieces, none holding `c` |
| Text.SplitTwice | get_image.py:158-168 | a word with two bookmarks and its space splits into exactly the three expected pieces |
| Text.Remove | get_image.py:243 | `replace(c, '')` drops every `c`, keeps the length minus the count, and is the identity without `c` |
| Text.WordsAreTokens | get_image.py:154 | every word of `split()` is non-empty and holds no whitespace |
| Text.Slice | get_image.py:135-137 | Python's clamping slice: within bounds it is the ordinary slice, and it is never longer than the text |
| Text.WordsSplitAtSpace | get_image.py:228 | `split()` on whitespace: a space separates the words on its two sides |
| Text.WordsOfJoined | get_image.py:229 | `f'{line} {word}'.strip()` has the words of the line followed by the word |
| Text.ParseNatToString | make_images.py:303-304 | `int(str(n)) == n` |
| GetImage.WrapLines | get_image.py:220-256 | the loop builds exactly `Wrap` of the words of the text, joined with newlines |
| GetImage.WrapWord | get_image.py:229-254 | one pass: ⭐ appends a blank line and the cleaned word, 📖 appends the cleaned word, otherwise the word joins the last line when the marker-free join fits, else starts a new line |
| GetImage.MeasuredLength | get_image.py:229-240 | the width measured is that of the joined line with ◻ and ◯ removed |
| GetImage.WrapKeepsWords | get_image.py:227-254 | the output words are the input words in order, each whole, with only ⭐/📖 removed |
| GetImage.WrapLinesKeepsWords | get_image.py:227-256 | the returned string's `split()` is exactly the cleaned input words |
| GetImage.WrapStepWords | get_image.py:242-254 | one word, in every branch, adds exactly its cleaned self to the words of the lines |
| GetImage.WrapJoinedLinesFit | get_image.py:251-252 | every line that holds more than one word fits `line_length` once the markers are removed |
| GetImage.WrapGreedy | get_image.py:250-254 | without break markers each line after the first is non-empty and its first word would have overflowed the line before |
| GetImage.WrapOverlongFirstWord | get_image.py:227-254 | a first word wider than the limit lands alone after an empty first line |
| GetImage.WrapLineCount | get_image.py:242-254 | each ⭐ word opens two lines and each 📖 word one; the line count is between `1 + 2·stars + books` and `1 + words + stars` |
| GetImage.BoxIgnoresMarkers | get_image.py:311-320 | a ◻ or ◯ anywhere in the block changes neither its measured width nor height |
| GetImage.GrowSize | get_image.py:273-285 | the growing loop settles where `GrowFrom` says, one below the first size whose block overflows `height` or passes `maxsize`, and every size tried up to it kept the block within `height` |
| GetImage.GrowFromGrown | get_image.py:276-286 | from any point the growing loop can stand at, where it settles meets `Grown` |
| GetImage.ShrinkSize | get_image.py:286-297 | the shrinking loop ends where `ShrinkFrom` says: the kept lines fit `length` at the result and at no size above it; `ValueError` exactly when no size down to 1 fits |
| GetImage.AttemptSize | get_image.py:272-297 | one attempt is exactly `Attempt`: `ValueError` when the start or the settled size is below 1 or no size fits the width, otherwise the wrap at the settled size and the largest size at or below it that fits `length` |
| GetImage.ChainStep | get_image.py:298-301 | a too-tall attempt at `basesize` in front of a chain of too-tall attempts from `basesize − 5` is a chain from `basesize` |
| GetImage.OverflowedStep | get_image.py:298-301 | a too-tall first attempt followed by a search from five sizes lower is a search from `basesize` that ends at the same attempt |
| GetImage.Retried | get_image.py:298-301 | what the search from `basesize − 5` ends with, after a too-tall attempt, is what the search from `basesize` ends with |
| GetImage.StopsAtFirstFit | get_image.py:298-302 | the search never steps past an attempt whose block is within `height` |
| GetImage.SearchedUnique | get_image.py:259-302 | a search has only one outcome: the first attempt down the chain basesize, basesize − 5, … that is not too tall |
| GetImage.CalcFntSize | get_image.py:259-302 | the result is the outcome of the attempt from some `base` ≤ `basesize` with `basesize − base` a multiple of 5; every attempt from `basesize` down to just above `base` in steps of 5 produced a block taller than `height`, and this one did not: `Err(ValueError)` exactly when that attempt cannot be made, otherwise a block that fits both `length` and `height`, wrapped at the size the growing loop settled on; the size is ≤ max(maxsize, 480, basesize − 1) |
| GetImage.DrawQuote | get_image.py:121-217 | the canvas receives exactly the commands of `WalkQuote` (bookmarks at the match, or at 0 when there is none) and the exception it raises |
| GetImage.DrawLines | get_image.py:151-217 | the outer loop appends exactly the commands of `WalkLines` and stops at the first exception |
| GetImage.DrawLine | get_image.py:154-212 | the inner loop appends exactly the commands of `WalkWords` and returns its pen |
| GetImage.DrawWord | get_image.py:155-212 | one word appends the commands of `WordStep` |
| GetImage.DrawBookmarks | get_image.py:158-187 | the two bookmark branches append the commands of `BookmarkPhase` and leave its rest of the word |
| GetImage.DrawMarkers | get_image.py:188-212 | the ◻/◯/plain branches append the commands of `MarkerPhase` |
| GetImage.PlainWords | get_image.py:210-212 | plain words keep the style and count of marks; they are highlighted (with their spaces) exactly when the style is |
| GetImage.OpeningBookmark | get_image.py:171-185 | the first single-`|` word switches to bold: the part after `|` is highlighted and the mark count becomes 1 |
| GetImage.ClosingBookmark | get_image.py:171-187 | a later single-`|` word highlights only the part before `|` (when already highlighting) and switches back to normal |
| GetImage.WholeTimestringWord | get_image.py:158-168 | a two-`|` word is drawn as normal/bold/normal plus an empty rest; exactly the middle is highlighted and the style is kept |
| GetImage.UnclosedMarker | get_image.py:188-209 | a word with a single ◻ or ◯ draws two pieces and raises `IndexError` |
| GetImage.ItalicRun | get_image.py:188-198 | a ◻ pair draws grey upright, NFKD'd grey italic, grey upright; style kept |
| GetImage.BoldItalicRun | get_image.py:199-209 | a ◯ pair draws black bold, NFKD'd black bold italic, black bold; style kept |
| GetImage.HighlightSpan | get_image.py:153-212 | on a line whose timestring opens in one word and closes in a later one, exactly the timestring (with its inner spaces) is highlighted and the style returns to normal |
| GetImage.WordStepChained | get_image.py:155-212 | each word's segments are chained by measured width along the pen's line |
| GetImage.LinesGeometry | get_image.py:151-153 | draw_quote ends, without an exception, at the anchor's x, one `getbbox("A")[3] + 4` step per line below the anchor |
| GetImage.PrepareFindsTimestring | get_image.py:59-70 | after the check the timestring is always found; a missing one becomes the error message found at 0, drawn without credits |
| GetImage.ErrorQuoteHasTimestring | get_image.py:68-69 | the substituted message contains its timestring `Error` at position 0 |
| GetImage.CreditLines | get_image.py:74-81 | the credit text is the three characters U+201A U+00C4 U+00EE, as the file spells its dash, then the stripped title, `, ` and the stripped author; it is wrapped at `650·0.965` only when wider than 650, and cut into lines |
| GetImage.CreditStart | get_image.py:81-84 | the first loop lowers the start line 485 by one step per credit line |
| GetImage.WriteCredits | get_image.py:85-89 | the second loop writes each line right-anchored at 784.8, one step further down |
| GetImage.DrawCredits | get_image.py:72-89 | the quote height is the credit top less 25, and the canvas receives one command per credit line |
| GetImage.CreditsBand | get_image.py:81-89 | credit line `k` of `n` sits `n − k` steps above 485 |
| GetImage.PlaceQuote | get_image.py:92-99 | the layout drawn is the one calc_fntsize settles on from size 50 with the cap 480: the quote's own greedy wrap at some size of at least 1, holding exactly the quote's words without markers, within 780 wide and the height left; the `LookupError` family is caught; `ValueError` escapes, and only when that search fails on the quote |
| GetImage.TurnQuoteIntoImage | get_image.py:41-101 | a new canvas holds the credits (when kept) followed by the quote's commands, drawn from calc_fntsize's layout from size 50 with the cap 480, within 780 wide and the height left; `ValueError` only when that search fails on the quote in the height left by the credits |
| MakeImages.WrapLines | make_images.py:217-238 | the loop runs at most once: the result is `FirstWrap`, `None` for a text without words |
| MakeImages.FirstWrapShape | make_images.py:224-238 | nothing comes back exactly when there is no word; otherwise the first word after two newlines (⭐ removed), alone when it fits, or after one newline; later words are dropped |
| MakeImages.GrowSize | make_images.py:255-262 | the growing loop ends where `GrowFrom` says, measuring the markers too; a text without words is an `AttributeError`, and for one with words every size tried up to the result kept the block within `height` |
| MakeImages.GrowFromGrown | make_images.py:258-264 | for a text with words, from any point the growing loop can stand at, it settles and meets `Grown` |
| MakeImages.ShrinkSize | make_images.py:264-275 | the shrinking loop ends where `ShrinkFrom` says: the kept lines fit `length` at the result and at no size above it; `ValueError` exactly when no size fits |
| MakeImages.AttemptSize | make_images.py:251-275 | one attempt is exactly `Attempt`: `ValueError` for a size below 1 or no size fitting the width, `AttributeError` only for a text without words, otherwise the wrap at the settled size and the largest size at or below it that fits `length` |
| MakeImages.OverflowedStep | make_images.py:276-279 | a too-tall first attempt followed by a search from five sizes lower is a search from `basesize` that ends at the same attempt |
| MakeImages.Retried | make_images.py:276-279 | what the search from `basesize − 5` ends with, after a too-tall attempt, is what the search from `basesize` ends with |
| MakeImages.StopsAtFirstFit | make_images.py:276-280 | the search never steps past an attempt whose block is within `height` |
| MakeImages.SearchedUnique | make_images.py:241-280 | a search has only one outcome: the first attempt down the chain basesize, basesize − 5, … that is not too tall |
| MakeImages.CalcFntSize | make_images.py:241-280 | the result is the outcome of the attempt from some `base` ≤ `basesize` with `basesize − base` a multiple of 5; every attempt from `basesize` down to just above `base` in steps of 5 produced a block taller than `height`, and this one did not; it fails exactly when that attempt cannot be made, with `AttributeError` only for a text without words (which always fails); otherwise the block fits width and height; the size is ≤ max(maxsize, 800, basesize − 1) |
| MakeImages.DrawQuote | make_images.py:115-214 | a missing timestring raises `LookupError` before anything is drawn; otherwise exactly the commands of `WalkQuote` |
| MakeImages.DrawLines | make_images.py:150-153 | the outer loop appends the commands of `WalkLines` |
| MakeImages.DrawLine | make_images.py:154-209 | the inner loop appends the commands of `WalkWords` |
| MakeImages.DrawWord | make_images.py:154-209 | one word appends the commands of this copy's `WordStep` |
| MakeImages.DrawBookmarks | make_images.py:161-195 | the bookmark branches append the commands of this copy's `BookmarkPhase` |
| MakeImages.DrawMarkers | make_images.py:196-209 | the ◻ branch, or one piece in the current style |
| MakeImages.IndentedWord | make_images.py:156-158 | a ⭕ word is drawn in one piece, four spaces in, without its ⭕ |
| MakeImages.OnePieceWord | make_images.py:207-209 | without `|`, ◻ or ⭕ a word, a lone ◯ included, is drawn whole in the current style |
| MakeImages.ItalicTimestringPhase | make_images.py:161-176 | a two-`|` word around a ◯ run draws normal, NFKD'd bold italic without ◯, normal |
| MakeImages.ItalicTimestringWord | make_images.py:161-176 | such a word highlights exactly the normalised timestring, in bold italics, and keeps the style |
| MakeImages.StepsAgree | make_images.py:156-209 | without ◯ and ⭕ a word is drawn as get_image draws it |
| MakeImages.QuotesAgree | make_images.py:115-214 | both copies draw a quote without ◯ and ⭕ alike once its timestring is found |
| MakeImages.LinesGeometry | make_images.py:210-214 | the cursor ends at the anchor's x, one line step per line below |
| MakeImages.CreditsHaveWord | make_images.py:73 | the credits always hold a word (the dash), so wrap_lines returns a string for them |
| MakeImages.CreditLines | make_images.py:72-78 | the credits, through wrap_lines at 318 when wider than 341, cut into lines |
| MakeImages.CreditStart | make_images.py:78-80 | one step up from 480 per credit line |
| MakeImages.WriteCredits | make_images.py:81-85 | each line right-anchored at 785, one step further down |
| MakeImages.DrawCredits | make_images.py:70-85 | the quote height is 480 less one step per line less 5, and the canvas receives the credit block |
| MakeImages.LongCredits | make_images.py:76-77 | credits wider than 341 keep only their first word, on one to three lines |
| MakeImages.Tick | make_images.py:103-107 | the counter after a save records that save's time |
| MakeImages.ConsecutiveNumbers | make_images.py:100-107 | images of one time are numbered 0, 1, 2, … after a different time, and carry on after the same one |
| MakeImages.RunNumbers | make_images.py:103-104 | within a run of equal times the number grows by one per image |
| MakeImages.KeysDistinct | make_images.py:100-107 | with chronological rows no two images get the same time and number |
| MakeImages.SavePathParts | make_images.py:108-109 | the path gives back the time without `:` and the number, for a time without `_` |
| MakeImages.BatchPathsDistinct | make_images.py:100-110 | with chronological times told apart by their digits, no two saved images share a path |
| MakeImages.JobsCap | make_images.py:300-304 | jobs start at `line_count − 1` and only a smaller all-digit argument replaces them |
| MakeImages.PickNext | make_images.py:306-312 | keeping row `i` adds its time, its path and one counter tick |
| MakeImages.PickedChronological | make_images.py:102 | dropping rows keeps a chronological file chronological |
| MakeImages.SavedPathsDistinct | make_images.py:100-113 | the paths saved by one run are pairwise different under the same conditions |
| MakeImages.PlaceQuote | make_images.py:89-98 | the fitted layout is the one calc_fntsize settles on from size 50 with the cap 800, within width and height, and holds the first word only; a failure is that search failing on the quote; the image is kept exactly when draw_quote raised nothing |
| MakeImages.Render | make_images.py:66-98 | a new canvas holds the credit block then the quote's commands when kept; the layout is calc_fntsize's from size 50 with the cap 800 in the height the credits leave, and a failure is that search failing |
| MakeImages.Batch.Number | make_images.py:100-109 | the counter ticks for the time and the path carries the new number |
| MakeImages.Batch.TurnQuoteIntoImage | make_images.py:51-113 | a discarded image leaves the counter alone; a saved one ticks it and is saved at `SavePath(time, number)`; a failure is calc_fntsize's search failing on the quote |
| MakeImages.DecidedNext | make_images.py:306-312 | deciding one more row keeps the record of which rows were fitted and which kept |
| MakeImages.Batch.Process | make_images.py:312 | one row: a quote without words fails, and `AttributeError` only for such a quote; a failure is calc_fntsize's search failing on the row's quote; otherwise the layout is the row's fitted quote, a path is saved exactly when that layout keeps the image, and the counter moves only then |
| MakeImages.Batch.Generate | make_images.py:299-312 | rows from index `jobs` on are not processed; every processed row was fitted and `picked` holds exactly those whose image was kept; a failure names the row, the first one on which calc_fntsize's search fails, and `AttributeError` only for a quote without words; the paths and the counter follow from the times of the picked rows |
| Clock.PadDigits | clock.py:61-64 | below 100 the padded number is two digits that read back as the number |
| Clock.GetTimeDigits | clock.py:56-65 | for two-digit hour and minute the stamp is four digits: the hour, then the minute |
| Clock.StampInjective | clock.py:56-65 | different valid times have different stamps |
| Clock.NextMinuteWraps | clock.py:115-121 | the step of init_buffer is one minute on, 59 rolling into the next hour and 23:59 into 00:00 |
| Clock.LaterMinutes | clock.py:100-122 | `n` steps of init_buffer land `n` minutes later, modulo a day |
| Clock.PlusThree | clock.py:145-166 | update_buffer's four cases ask for exactly `now + 3` minutes modulo a day |
| Clock.ThreeMinutes | clock.py:115-121 | three init steps equal one update step |
| Clock.RefreshAfterUpdate | clock.py:206 | main refreshes fully after an update made at a minute ending in 7 |
| Clock.Candidates | clock.py:79-81 | get_quotes keeps the previous list when the glob matches nothing |
| Clock.Draw | clock.py:102 | `randrange(0, n)` is below `n`, and `ValueError` exactly when `n` is 0 |
| Clock.Wanted | clock.py:101-102 | the file asked for is `quote_<stamp>_<k>.bmp` with `k` below the number of candidates |
| Clock.Clock.GetQuotes | clock.py:73-81 | the `quotes` field becomes the candidates; nothing else changes |
| Clock.SlotsGrow | clock.py:100-110 | appending an image leaves the slots already filled as they were |
| Clock.SlotNext | clock.py:101-110 | the slot appended holds the drawn file when it exists and the front otherwise |
| Clock.SlotsAfterPass | clock.py:100-110 | after one more pass the earlier slots and the new one are all filled |
| Clock.FilledFromEmpty | clock.py:84-88 | filling an empty buffer puts only existing bitmaps in it, the first being the file drawn for `now` |
| Clock.Appended | clock.py:100-121 | one pass of init_buffer's loop keeps the loop invariant: the start kept, one slot more filled, the time a minute on, `quotes` the list that pass looked up |
| Clock.Clock.Fill | clock.py:101-122 | one pass: `quotes` becomes the candidates for the clock's time; no candidate is `ValueError`, a missing file with an empty buffer is `IndexError`, and neither moves the time or the buffer; otherwise one image is appended (the drawn file, fresh and open, or, only when that file is missing, the front again) and the time moves on a minute |
| Clock.Clock.InitBuffer | clock.py:83-125 | the buffer is filled up to three, keeping its start; slot `j` holds the file drawn for `now + j` minutes when it exists, and the front again only when it is missing and the slot is not the front itself; `quotes` is the list the last pass found; the added images are fresh and open or the front; `ValueError` needs a pass without candidates, `IndexError` an empty buffer whose first file is missing |
| Clock.Clock.UpdateBuffer | clock.py:127-180 | the time becomes `now + 3` and the quotes are those found for it; no candidate at all is `ValueError` with the buffer unchanged; on success the new image is appended and the front closed and dropped; on a missing file the front is appended again, or `IndexError` if the buffer is empty; an old image is closed afterwards exactly when it was closed before or is the front and the file was found |
| Clock.Clock.Refresh | clock.py:200-213 | `main`: a full refresh exactly when the minute is a multiple of ten; the front of the buffer is shown; an empty buffer is `IndexError` with nothing changed; otherwise the time, `quotes`, buffer and closed flags change exactly as UpdateBuffer changes them for `now + 3` |

## Left out

- Pillow is represented by the `Env` measurement functions, which are left unconstrained. This covers font loading, `getlength`, `textlength`, `getbbox`, `multiline_textbbox`, `Image.new` and `save`. Drawing is represented by the `Canvas` command log.
- `unicodedata.normalize('NFKD', …)` is an opaque function in `Env`.
- `str.lower()` changes only ASCII letters, one character for one.
- `str.isspace` covers only the ASCII whitespace characters.
- `str.isdigit` accepts only `0`–`9`.
- `str.splitlines` treats only `'\n'` as a line boundary.
- Each marker is one reserved character. `get_image.py` spells the markers as multi-character mojibake sequences. Splitting and counting on those sequences is not modelled.
- Screen-ratio constants are exact reals (for example `480 * 0.917 = 440.16`). Floating-point rounding is not modelled.
- Inputs are parameters:
  - `datetime.now()` is `now`, kept as hour and minute only.
  - `glob`, `random.randrange` and the existence check of `Image.open` form the `World` parameter.
  - The CSV rows and the line count of the file are parameters of `MakeImages.Batch.Generate`.
- Not modelled: reading the CSV file, `os.mkdir`, progress printing, logging, `path.normpath` (the identity on these paths) and writing the bitmap file. `Generate` returns the paths instead of writing the files.
- Not part of this model:
  - the e-paper driver (`epd7in5_V2`), `display_quote`'s hardware calls and the startup image;
  - `signal_handler` and the `__main__` loops with their sleeps;
  - `update_time` (its result is the `now` parameter);
  - `app.py`.
- The `index` and `time` parameters of get_image's `TurnQuoteIntoImage` are used only in log messages, so they are dropped. The module globals `imgnumber` and `previoustime` are never read there.
- The `nometadata/` path branch of `make_images.py:86-87` is dead, because `INCLUDE_METADATA` is the constant `True`.
- Recursion in `calc_fntsize` ends because a font size below 1 raises `ValueError` in font creation. The model uses that as its termination measure, so it needs no fuel bound.
- Clock.Clock.InitBuffer: after an exception only its cause is stated (a pass with no candidate for `ValueError`, a missing first file in an empty buffer for `IndexError`); the buffer, time and `quotes` reached by the earlier passes are not stated.
- GetImage.CalcFntSize: the size bound is max(maxsize, 480, basesize − 1), not `maxsize`, because the recursive retry starts from `basesize − 5` with the default maximum. The two agree for the default arguments that `get_image.py` uses.
- MakeImages.CalcFntSize: the same bound, with 800 as the default maximum.

Where the code's own comments promise more than it does, the model follows the code:

- `make_images.py`'s `wrap_lines` is documented at make_images.py:218-221 as wrapping to maximize the words within a line, but it returns inside its loop, so only the first word is wrapped. A first word wider than the limit comes back after a newline, because it goes onto a new line below the empty one. Later words are lost.
- The comment at get_image.py:97 says an image with a missing timestring is warned about and discarded, but `get_image.py`'s `draw_quote` does not raise on a missing timestring: it bookmarks at position 0 instead. Only `make_images.py`'s copy raises `LookupError` (make_images.py:131).
- A single word wider than the limit is never split, as the `wrap_lines` docstrings allow (get_image.py:222-224, make_images.py:219-221). Only lines that hold more than one word are guaranteed to fit (`GetImage.WrapJoinedLinesFit`).
- `make_images.py`'s `calc_fntsize`, documented at make_images.py:243-244 as fitting the text to the box, measures the italic markers along with the text.
- `make_images.py`'s `wrap_lines` does not handle 📖.
