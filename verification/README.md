# PrintingPress placement normaliser and text layout, in Dafny

PrintingPress composites text and images onto a base image from a JSON-like
"placements" mapping. This project models the deterministic core of that
process and proves properties about it:

- **The field validator** (`retrieve_key` and `format_message`). The packaged
  version (`src/PrintingPress/internals.py`) checks types with `isinstance`,
  so a bool passes as an int. The original single-file version
  (`PrintingPress/printingpress.py`) compares `type(value)` with the expected
  class exactly. The messages are modelled as a template plus its
  placeholder map, and `Internals.Render` produces the text. Raw input is a
  `Value` datatype (None, bool, int, float with NaN and the infinities, str,
  list, dict, PIL image).
- **The table-driven normaliser** (`Placements.parse`, `rgb_list_check`,
  `filter_list_check` and the two `__parse_map__` tables). It turns each
  record into a typed image or text area, or into the error Python would
  raise. Both versions share one table loop, `Placements.ParseFields`,
  parameterised by an `Edition`. What differs between them is the type
  rule, which fields are clamped, the two-value check on `xy`/`wh`, and how
  an area is finished. The file system and PIL are oracles in an `Env`:
  `Path.absolute`, `is_file`, `Image.open(...).convert`, whether
  `ImageFont.FreeTypeFont` reads a file as a font, and
  `set_variation_by_name`.
- **Text rollover** (`rollover`, nested in `operate`). This is a greedy
  word wrap over `text.split()`. Font measurement is an uninterpreted
  `Metrics` value: the width and height of a rendered string, plus the
  font's descent. `Rollover.Run` folds `Rollover.Step` over the words. It
  is related to a reference, `Rollover.Wrap`, which places the words the
  same way but with no height check.
- **The fit search** (`fit` in `operate`). `Fit.FitText` is the countdown
  loop. `Fit.FirstFit` is the same search written as a recursive
  definition.

Notes on the program's behaviour:

- The fit search counts the size down by one from `font_size`, with no
  iteration cap, so it finds the largest fitting size at or below the
  start. In the model it stops when the size reaches 0, because
  rebuilding a font at a size that is not positive fails (`Fit.FitText`).
- The height bookkeeping does not reset per line. `line_h_local` is the
  running maximum of `txth + descent` over the words that did not wrap; at
  a wrap it is set only while it is still 0. Every wrap appends two
  heights to `line_h`: that value, and the height of the line measured
  with the moved word still on it.
- A single word too wide for the box is moved to a line of its own, behind
  an empty first line. When both `h + descent` and `2h + descent` fit the
  height, that line is kept unmodified (`Rollover.WideWordAlone`).
- In lenient mode, a single word that fits the width but not the height is
  not shown truncated. Its only line is dropped, and the final `lines[0]`
  raises IndexError (`Rollover.TallWordFails`). If the word is also too
  wide, the result is no lines at all (`Rollover.WideTallWordVanishes`).
- In the original normaliser the font branch compares the kind with
  `"font"`, which the kind check has already excluded. So text areas are
  opened as images too (`OriginalPlacements.EveryAreaDecoded`). There is no
  `.meta` entry: every key is an area (`OriginalPlacements.EveryEntryAnArea`).
  Only the field named exactly `opacity` is clamped.

## Model

| member | source | states |
|---|---|---|
| Internals.RetrieveWith | src/PrintingPress/internals.py:11-43 | succeeds exactly when the target is a dict and the key is present with an accepted value, or absent and optional; the stored value comes back uncoerced and an absent key gives the fallback; a non-dict target fails in the subscript; a missing required key gives KeyError with the required template; a rejected value gives TypeError with the expected template and its type filled in |
| Internals.BoolAgainstInt | src/PrintingPress/internals.py:39-43 | a bool where an int is expected is returned by the `isinstance` validator and rejected with TypeError by the exact-type one |
| Internals.LegacyIsStricter | PrintingPress/printingpress.py:42-48 | whatever the exact-type validator accepts, the packaged one accepts with the same value; they disagree only on a bool checked against `int` |
| Internals.FormatMessageAbsent | src/PrintingPress/internals.py:5-8 | a message with no placeholder in it, or an empty map, comes back unchanged |
| Internals.FormatMessageSplit | src/PrintingPress/internals.py:6-7 | replacement is sequential in map order: formatting with `f + g` is formatting with `f`, then with `g` |
| Internals.ColonFreeUnchanged | src/PrintingPress/internals.py:22-27 | every placeholder contains a colon, so a message without one is left alone |
| Internals.MissingMessageCurrent | src/PrintingPress/internals.py:19-34 | for a key without a colon, the required-key error reads exactly `key <key> is required`; the caller's `extra` never shows |
| Internals.MissingMessageLegacy | PrintingPress/printingpress.py:23-38 | the original required-key error reads exactly `<key> is required` |
| Values.Lookup | src/PrintingPress/internals.py:29-32 | `target[key]` finds nothing exactly when no entry has the key, and a found value is stored under that key |
| Values.LookupDistinct | src/PrintingPress/internals.py:29-32 | on a dict (distinct keys), `target[key]` finds the value stored under that key, wherever it stands |
| Values.IntInstances | src/PrintingPress/internals.py:39 | only a bool or an int passes an `int` instance check |
| Strings.SplitJoinWords | src/PrintingPress/printingpress.py:36-49 | splitting words joined by single spaces gives the same words back |
| Strings.ReplaceAbsent | src/PrintingPress/internals.py:7 | `str.replace` with a pattern that does not occur changes nothing |
| Strings.ReplaceBySelf | src/PrintingPress/internals.py:7 | replacing a pattern by itself changes nothing |
| Strings.ReplaceSkipsPrefix | src/PrintingPress/internals.py:7 | replacement passes over a prefix in which no occurrence can start |
| Placements.AllBelow256 | src/PrintingPress/placements.py:12-15 | succeeds exactly when every value compares below 256; otherwise the failure is the TypeError of `<` or the range assertion |
| Placements.RgbCheck | src/PrintingPress/placements.py:7-15 | a list passes exactly when it has three values, each below 256 (no lower bound); any other length fails the arity assertion |
| Placements.FilterCheck | src/PrintingPress/placements.py:18-32 | filter data passes exactly when it has one value and that value is an int instance (a bool counts); any other length fails the arity assertion |
| Placements.ClampAbove | src/PrintingPress/placements.py:114-118 | for an int instance (a bool included) the comparison succeeds: above the bound the value becomes the bound, otherwise it is kept |
| Placements.ParseFields | src/PrintingPress/placements.py:98-129 | the table rows are checked in order; the result has one value per row, each the row's own check; it succeeds exactly when every row passes |
| Placements.ParseArea | src/PrintingPress/placements.py:81-95 | a built area comes from a dict whose `type` is exactly "image" or "text", matching the kind built |
| Placements.ParseAreas | src/PrintingPress/placements.py:78-197 | the parse succeeds exactly when every entry's area is accepted; it then gives one area per entry, in input order, under the entry's name, each built from that entry alone |
| Placements.Without | src/PrintingPress/placements.py:76 | after `pop(".meta")` no entry is named `.meta`, every other entry is still there, and a dict without `.meta` is unchanged |
| Placements.WithoutDistinct | src/PrintingPress/placements.py:76 | on a dict (distinct keys), `pop(".meta")` removes exactly one entry when `.meta` is present and none otherwise |
| Placements.WithoutConcat | src/PrintingPress/placements.py:76 | `pop` keeps the remaining entries in their order: removing the key from two runs of entries is removing it from each |
| Placements.NonFiniteColour | src/PrintingPress/placements.py:12-15 | a NaN or `Infinity` colour component fails the range assertion, and a `-Infinity` one passes |
| PlacementProperties.FirstFailure | src/PrintingPress/placements.py:98-107 | when the rows before it pass, the first failing row's error is the table loop's error, whatever follows it |
| PlacementProperties.AreasFirstFailure | src/PrintingPress/placements.py:78-197 | the areas are parsed in order; when the ones before it are accepted, the first area that fails ends the parse with its own error, whatever follows it |
| PlacementProperties.ImageAccepted | src/PrintingPress/placements.py:98-197 | an "image" record is accepted exactly when its table passes, its `path` is an in-memory image or a str whose absolute form names an existing file that decodes, and a kept filter's data passes `filter_list_check` |
| PlacementProperties.TextAccepted | src/PrintingPress/placements.py:98-164 | a "text" record is accepted exactly when its table passes, the absolute form of its `path` names an existing file that FreeType reads as a font, and its `font_size` is positive (a bool counting as 0 or 1) |
| PlacementProperties.CheckFieldOk | src/PrintingPress/placements.py:100-129 | a passing row read a dict, its stored value passed the type check (or was absent and optional), and post-processing produced the result |
| PlacementProperties.PostRotation | src/PrintingPress/placements.py:114-115 | `rotation` above 360 becomes 360, anything else is kept, negatives included |
| PlacementProperties.PostOpacity | src/PrintingPress/placements.py:117-118 | `opacity`, `bg_opacity` and `font_opacity` above 255 become 255 |
| PlacementProperties.PostColour | src/PrintingPress/placements.py:109-112 | a colour field passes unchanged, and only if `rgb_list_check` holds |
| PlacementProperties.PostPair | src/PrintingPress/placements.py:123-127 | `xy` / `wh` pass unchanged only with exactly two values; `len(None)` is a TypeError |
| PlacementProperties.PostPlain | src/PrintingPress/placements.py:108-129 | `text`, `filter` and `filter_data` are not post-processed |
| PlacementProperties.PlainRow | src/PrintingPress/placements.py:98-107 | in any table that passed, a `text`, `filter` or `filter_data` row holds the stored value or the row's fallback, and a stored value is an instance of the expected class |
| PlacementProperties.PackageColourRow | src/PrintingPress/placements.py:109-112 | in any table that passed, a colour row holds the stored value or the row's default, and it is three values below 256 |
| PlacementProperties.RotationRow | src/PrintingPress/placements.py:114-115 | in any table that passed, the `rotation` row holds the stored int or 0, clamped to 360 |
| PlacementProperties.OpacityRow | src/PrintingPress/placements.py:117-118 | in any table that passed, an opacity row holds the stored int or the row's int default, clamped to 255 |
| PlacementProperties.ImageFields | src/PrintingPress/placements.py:98-197 | an image area holds the image table's values; its bitmap is the in-memory image stored under `path`, or the image decoded from the absolute form of the stored path, which names an existing file; the filter is normalised and a kept filter's data checked |
| PlacementProperties.TextFields | src/PrintingPress/placements.py:98-164 | a text area holds the text table's values in table order; its path is the absolute form of the stored `path` and names an existing font file; the font is built from that file at `font_size`, which is positive, with the variant applied when the font has it |
| PlacementProperties.UnknownKindFails | src/PrintingPress/placements.py:89-95 | a `type` other than exactly "image" or "text" fails the kind assertion |
| PlacementProperties.MissingKindFails | src/PrintingPress/placements.py:81-87 | a record without `type` raises KeyError reading `key type is required` |
| PlacementProperties.RotationClamped | src/PrintingPress/placements.py:46-115 | an area's rotation is the given one clamped to 360, or 0 when absent, for both kinds |
| PlacementProperties.OpacityClamped | src/PrintingPress/placements.py:45-118 | every opacity of an area is the given one clamped to 255, or 255 when absent |
| PlacementProperties.PairsChecked | src/PrintingPress/placements.py:123-127 | every area's `xy` and `wh` are lists of exactly two values, as given; so an image's `wh` must be present |
| PlacementProperties.ImageWithoutSize | src/PrintingPress/placements.py:42-127 | an image record whose first rows pass but that has no `wh` fails in `len(None)` |
| PlacementProperties.ColoursChecked | src/PrintingPress/placements.py:56-112 | both colours of a text area are three values below 256, as given or the table default |
| PlacementProperties.FilterNormalised | src/PrintingPress/placements.py:185-193 | a filter is kept exactly when it is "gaussian_blur" or "box_blur"; then its data is one int instance; otherwise it is dropped |
| PlacementProperties.FilterDataIgnored | src/PrintingPress/placements.py:185-193 | in the image finish, a dropped filter's data is not checked: once the table has passed, replacing it changes neither whether the area is built nor anything else in it |
| PlacementProperties.TextKept | src/PrintingPress/placements.py:100-129 | the text is a str, stored as given |
| PlacementProperties.MetaAndOrder | src/PrintingPress/placements.py:76-78 | `.meta` is handed through untouched, and the areas are the other entries, in input order |
| PlacementProperties.NotADict | src/PrintingPress/placements.py:73 | anything but a dict is refused |
| OriginalPlacements.OriginalParseArea | PrintingPress/printingpress.py:93-152 | a built area comes from a dict whose `type` is exactly "image" or "text", matching the kind built |
| OriginalPlacements.OriginalParseAreas | PrintingPress/printingpress.py:91-154 | the parse succeeds exactly when every entry's area is accepted; it then gives one area per entry, in input order, each built from that entry alone |
| OriginalPlacements.OriginalAreasFirstFailure | PrintingPress/printingpress.py:93-154 | the areas are parsed in order; when the ones before it are accepted, the first area that fails ends the parse with its own error |
| OriginalPlacements.OriginalImageAccepted | PrintingPress/printingpress.py:103-150 | an "image" record is accepted exactly when its table passes and the absolute form of its `path` names an existing file that decodes as an image |
| OriginalPlacements.OriginalTextAccepted | PrintingPress/printingpress.py:103-150 | a "text" record is accepted under the same condition, because the font branch is never taken and the file is opened as an image |
| OriginalPlacements.BoolRejectedInIntRow | PrintingPress/printingpress.py:43-46 | a bool in an `int` row is a TypeError in the original and accepted by the packaged validator |
| OriginalPlacements.PairUnchecked | PrintingPress/printingpress.py:104-124 | `xy` / `wh` lists of any length are kept as given |
| OriginalPlacements.OnlyExactOpacityClamped | PrintingPress/printingpress.py:110-124 | only the field named exactly `opacity` is clamped to 255; a field of any other name, not rotation or colour, is left alone |
| OriginalPlacements.OriginalClamps | PrintingPress/printingpress.py:115-119 | `opacity` is clamped to 255 and `rotation` to 360; absent, both are 0 |
| OriginalPlacements.OriginalColours | PrintingPress/printingpress.py:104-113 | `colour` (and a text area's `font_colour`) is three values below 256, as given or black when absent |
| OriginalPlacements.ColourRow | PrintingPress/printingpress.py:110-113 | in any original table that passed, a `colour` or `font_colour` row holds the stored value or black, and it is three values below 256 |
| OriginalPlacements.EveryAreaDecoded | PrintingPress/printingpress.py:127-150 | every built area, text included, names an existing file that decoded as an image, and holds that bitmap |
| OriginalPlacements.EveryEntryAnArea | PrintingPress/printingpress.py:91-154 | every entry, `.meta` included, becomes an area, in input order |
| Rollover.Truncate | src/PrintingPress/printingpress.py:70-74 | on lenient overflow the last line is dropped; the new last line keeps its length with its last word replaced by the ellipsis; an empty line or no line is left as is; heights are untouched |
| Rollover.StrictIsWrap | src/PrintingPress/printingpress.py:51-65 | the strict loop succeeds exactly when no prefix of the words overflows the box; it is then the reference wrap, and otherwise it raises RolloverError |
| Rollover.LenientIsWrap | src/PrintingPress/printingpress.py:63-74 | when no prefix overflows, the lenient loop builds the reference wrap too |
| Rollover.WrapShape | src/PrintingPress/printingpress.py:44-61 | the wrap keeps every word in order; only the first line can be empty, and only when there are further lines; there are two recorded heights per wrap |
| Rollover.WrapWidths | src/PrintingPress/printingpress.py:49-61 | every line of two or more words measures within the width, and a line plus the next line's first word measures wider |
| Rollover.NoWords | src/PrintingPress/printingpress.py:44-77 | a text with no words gives no lines |
| Rollover.StrictResult | src/PrintingPress/printingpress.py:47-79 | strict rollover fails, with RolloverError, exactly when some prefix overflows; otherwise its lines join back to `text.split()`, none is empty, and every line of two or more words fits the width |
| Rollover.LenientWhenFits | src/PrintingPress/printingpress.py:63-79 | when the text fits, the lenient result is the strict one |
| Rollover.LinesFilled | src/PrintingPress/printingpress.py:44-79 | in either mode, no finished line is empty |
| Rollover.SingleLine | src/PrintingPress/printingpress.py:47-79 | if every prefix measures within the width and its height plus descent within a non-negative height, the result is one line holding all the words |
| Rollover.PlaceGrows | src/PrintingPress/printingpress.py:54-61 | with non-negative heights, placing a word never lowers `sum(line_h)` or `line_h_local` |
| Rollover.OverflowPersists | src/PrintingPress/printingpress.py:54-74 | when no measured height and no descent is negative, once the lenient rollover overflows the box, every later word overflows it too |
| Rollover.WideWordAlone | src/PrintingPress/printingpress.py:51-79 | a single word wider than the box stays as one unmodified line when `h + descent` and `2h + descent` fit the height |
| Rollover.TallWordFails | src/PrintingPress/printingpress.py:63-79 | a single word that fits the width but not the height makes the lenient rollover raise IndexError |
| Rollover.WideTallWordVanishes | src/PrintingPress/printingpress.py:51-79 | a single word too wide and too tall gives no lines in lenient mode |
| Fit.FitText | src/PrintingPress/printingpress.py:107-124 | the result is the first size, counting down by one from `font_size`, at which strict rollover succeeds; no size between it and the start fits; the lines are that rollover's; `tries` is one more than the failures; failing means no positive size up to the start fits |
| Fit.FirstFitIsLargest | src/PrintingPress/printingpress.py:111-124 | the recursive search finds the largest fitting size in range, or proves none fits |
| Fit.FitAgrees | src/PrintingPress/printingpress.py:107-124 | a size meeting the loop's contract, including a start that is not positive but fits at once, is exactly what the recursive search finds |
| Fit.FitFailureAgrees | src/PrintingPress/printingpress.py:107-124 | when neither the start nor any positive size up to it fits, the recursive search finds nothing, as the loop fails |

## Left out

- Compositing in `operate` is not modelled, because it is bitmap work done by PIL: canvas creation, paste, alpha compositing, rotation, resizing, blur filters, `putalpha`, and the drawing loop's float y-offsets.
- Font construction is an oracle. `ImageFont.FreeTypeFont` succeeds when `Env.loadsFont` holds for the file and the size is positive (`Placements.PositiveSize`), the same rule the fit search uses; the exceptions it raises otherwise are one `Unloadable` failure. A built font records its file, size and applied variant, not its glyphs. Every other PIL and file-system call is an oracle parameter.
- An image file that does not decode is `Undecodable`; the different exceptions PIL raises are not told apart.
- `print_if`, the invalid-variant warning and the single-word warning only write output, so they are not modelled.
- `parse` removes `.meta` from the caller's dict. The model is a pure function, so that mutation is not modelled.
- Assertion messages are the `Check` kind of the failure, not their text. `retrieve_key` messages are modelled exactly.
- `Rollover.Metrics` is total. A `getbbox()` that returns None for an empty rendering is not modelled, and neither is the TypeError from unpacking it.
- `Rollover.Box` has integer bounds. The normaliser checks that a text area's `wh` has exactly two values, but not their types, so they could be floats or other values; those cases are not modelled.
- `Fit.FitText` treats only a non-positive size as unbuildable, and then stops. Any other failure of `recreate` is not modelled.
- `Placements.ImageFrom`, `Placements.TextFrom` and `OriginalPlacements.OriginalParseArea` make a str path absolute when the area is built, not inside the field loop. `Path.absolute` cannot fail on a str, and no row after `path` reads it, so the outcome is the same.
- The original's font branch is unreachable, so it is not modelled. `OriginalPlacements.EveryAreaDecoded` states the consequence.
- `Values.TypeRepr` covers only the classes the tables use. An opened image prints as `<class 'PIL.Image.Image'>`, although Pillow gives it a subclass such as `PngImageFile`, whose name would show in a TypeError message.
- A `Values.JObject` stands for a Python dict only when its keys are distinct (`Values.DistinctKeys`). The model's functions accept any entries. For a repeated key, `Values.Lookup` takes the first entry, `Placements.Without` drops every copy, and the area loops build one area per copy. No dict behaves like that, so those results have no counterpart in the program.
