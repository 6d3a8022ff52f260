# Cub Scout award filler, modelled in Dafny

This project models the core of the Cub Scout awards tool. The tool has two pieces.

- **Generators.** Each one turns a CSV of awards (date, pack number, scout name, award, den leader, cubmaster) into a PDF:
  - the certificate generator (`dev/fill_cub_scout_certs.py`) fills eight awards per template page into the template's form-field positions;
  - the rank-card generator (`dev/fill_cub_scout_rank_cards.py`) lays eight cards on a landscape sheet, with the text of each card turned by 90 degrees.
- **Web server** (`dev/cert_form_ui/server.py`). It does five things:
  - checks an uploaded CSV and reports missing headers, empty names or awards, blank pack numbers and unrecognised dates;
  - resolves the font the form asks for, including retired font ids;
  - sanitises the download names;
  - limits each client with a sliding-window rate limiter;
  - hands a CSV that passes the check to the certificate generator.

## How the model is organised

- **Pure code becomes functions and lemmas.** Date normalisation, the row filter and the paging, the field-name scheme, the layout arithmetic, the name sanitisers and the font tables are all written this way.
- **Code with loops becomes methods.** Each such loop is a method proved against a specification function:
  - the field-map builder, the field-position scan, both font-size fitters and both page loops;
  - the overlay loop and the card loop;
  - the font-file search, the validation report and the limiter's pruning loop.
- **The rate limiter is a class.** Its per-key queues live in a `map` field that `Allow` updates.
- **Numbers.** Lengths and sizes in points are `real`. Rows are maps from column name to cell text.

Outside effects are parameters:

- the PDF library's `stringWidth` is a function parameter `width`;
- `Path.exists` on font files is a predicate `present`;
- `time.time()` is the argument `now`;
- the template PDF is a value (its annotations, AcroForm fields, media box and `/Rotate`).

A generated page is modelled as an `OutputPage`. It holds three things:

- the template's media box;
- the list of `Draw` calls made on the overlay canvas: text, font, size, origin, rotation and alignment;
- the translation added to the page, if any.

Where the code and the design description disagree, the model follows the code:

- The certificate fitter does not special-case empty text. It returns a size between `min_size` and `max(min_size, min(max_size, base_size))`. Empty text is skipped one level up, by `_draw_text`.
- The certificate generator (dev/fill_cub_scout_certs.py:49) prefers "Award Name" and falls back to "Rank" only when "Award Name" is absent or empty; the rank-card generator reads neither column. A cell holding only blanks counts as present and yields an empty award.
- The server requires the "Award Name" header and an award in every row, although the generators would accept a "Rank" column instead.
- The server does not check the "Den Leader" and "Cubmaster" cells per row, even though both are required headers.

## Model

| member | source | states |
|---|---|---|
| Text.Trim | dev/fill_cub_scout_certs.py:45 | `str.strip()`: the result is no longer than the input and has no whitespace at either end |
| Text.TrimIsSlice | dev/fill_cub_scout_certs.py:45 | `str.strip()` keeps the slice of the input that starts after its leading whitespace, and everything it drops before and after that slice is whitespace |
| Text.TrimEmptyIffAllSpace | dev/cert_form_ui/server.py:238-245 | a stripped cell is empty exactly when every character of the cell is whitespace, which is when a name counts as missing |
| Dates.ParseWith | dev/fill_cub_scout_certs.py:77-79 | `strptime` with one of the three patterns accepts only whole-string matches and yields only real calendar dates (years 1-9999, a day that exists in its month) |
| Dates.ParseAny | dev/fill_cub_scout_certs.py:77-82 | the first accepting pattern, in the order ISO, `%m/%d/%Y`, `%m/%d/%y`; any date found is a calendar date |
| Dates.Render | dev/fill_cub_scout_certs.py:80 | `strftime("%m/%d/%Y")` always has the shape `MM/DD/YYYY` |
| Dates.FormatDate | dev/fill_cub_scout_certs.py:73-83 | the result is empty exactly when the input is blank; whenever it differs from the stripped input it is a `MM/DD/YYYY` date |
| Dates.RenderRoundTrip | dev/fill_cub_scout_certs.py:77-80 | a rendered date parses back to the same date |
| Dates.FormatDateKeepsDate | dev/fill_cub_scout_certs.py:73-83 | the printed date is the date parsed from the stripped input (it parses back to exactly that date); a value no format recognises is printed stripped and otherwise as typed |
| Dates.FormatRendered | dev/fill_cub_scout_certs.py:73-83 | a rendered date is left unchanged by normalisation |
| Dates.FormatDateIdempotent | dev/fill_cub_scout_certs.py:73-83 | normalising twice gives the same text as normalising once |
| Dates.ValidationAgreesWithFormatting | dev/cert_form_ui/server.py:206-216 | a date the server accepts prints as blank or as a `MM/DD/YYYY` date that parses; a date it flags is printed as typed (stripped) and is not blank |
| Dates.IsoExample | dev/fill_cub_scout_certs.py:73-83 | "2024-05-01" prints as "05/01/2024" |
| Rows.NormalizeAllAt | dev/fill_cub_scout_certs.py:44-51 | row `j` of a page is normalised as row `j` of the chunk |
| Rows.NormalizeTrimmed | dev/fill_cub_scout_certs.py:45-51 | each of the seven values read from a row has no whitespace at either end |
| Rows.AwardAndDenFallback | dev/fill_cub_scout_certs.py:48-49 | "Award Name" wins over "Rank" and "Den Number" over "Den No." whenever it is non-empty, even if it holds only blanks |
| Rows.KeptRowsHaveContent | dev/fill_cub_scout_rank_cards.py:39 | every row the blank-row filter keeps has a non-blank cell |
| Rows.KeepRowsMembership | dev/fill_cub_scout_rank_cards.py:39 | a row is kept exactly when it is in the input and has a non-blank cell |
| Rows.KeepRowsConcat | dev/fill_cub_scout_rank_cards.py:39 | the filter keeps order: filtering a concatenation concatenates the filtered parts |
| Rows.KeepRowsIdempotent | dev/fill_cub_scout_rank_cards.py:39 | filtering twice is filtering once |
| Rows.ReadRows | dev/fill_cub_scout_certs.py:90-96 | an error exactly when the CSV has no header row; otherwise the rows with content, in order |
| Rows.ChunkFlatten | dev/fill_cub_scout_certs.py:86-87 | the chunks put back together are the rows, in order |
| Rows.ChunkSizes | dev/fill_cub_scout_certs.py:86-87 | no chunk is empty or larger than the page size, and every chunk but the last is full |
| Rows.ChunkCount | dev/fill_cub_scout_certs.py:279-280 | there are `ceil(len(rows) / size)` chunks, the number of pages the loop runs over |
| Rows.ChunkAt | dev/fill_cub_scout_certs.py:87 | chunk `i` is the slice starting at `i * size` |
| Layout.MapDisplayShiftInverse | dev/fill_cub_scout_certs.py:233-243 | mapping by `r` and then by `(360 - r) % 360` gives back the display shift |
| Layout.MapDisplayShiftKeepsLength | dev/fill_cub_scout_certs.py:233-243 | the mapping is a rotation and keeps the length of the shift, for any `/Rotate` |
| Layout.MapDisplayShiftZero | dev/fill_cub_scout_certs.py:233-243 | the page shift is zero exactly when the display shift is |
| Layout.MapDisplayShiftCompose | dev/fill_cub_scout_certs.py:233-243 | for right angles, mapping by `a` and then by `b` is mapping by `a + b` |
| Layout.DescendFrom | dev/fill_cub_scout_certs.py:151-155 | the step-down search stops at a size no larger than its start at which the text no longer overflows, and stops less than one step below the floor |
| Layout.DescendOnGrid | dev/fill_cub_scout_certs.py:152-155 | the size found is on the grid `size - k * step` |
| Layout.DescendSkipsOnlyOverflows | dev/fill_cub_scout_certs.py:152-155 | every grid size above the one found overflows: the search stops at the first size that fits |
| Layout.PageTranslationWhen | dev/fill_cub_scout_certs.py:306-309 | a page is translated exactly when a shift was asked for, whatever its rotation, and by a vector 72 times the shift's length in inches |
| Certificates.Roles | dev/fill_cub_scout_certs.py:53-69 | a rank template gets seven fields per row; a certificate gets six and no den number |
| Certificates.FieldKeyIndex | dev/fill_cub_scout_certs.py:53-69 | every field name written for row `i` carries row number `i` |
| Certificates.FieldKeyInjective | dev/fill_cub_scout_certs.py:53-69 | no two fields of a page share a name: the name determines the field and the row |
| Certificates.FieldNameIndex | dev/fill_cub_scout_certs.py:32-35 | `_field_name` gives the bare base for row 1 and a name carrying the row number otherwise |
| Certificates.AssignFresh | dev/fill_cub_scout_certs.py:41 | assigning a new key to the dict appends it at the end |
| Certificates.LookupAssign | dev/fill_cub_scout_certs.py:41 | after `d[k] = v`, `d[k]` is `v` and every other key reads as before |
| Certificates.PageEntriesDistinct | dev/fill_cub_scout_certs.py:38-70 | the page dict never overwrites an entry |
| Certificates.PageLookup | dev/fill_cub_scout_certs.py:44-69 | the field for each value of row `i` holds that row's normalised value |
| Certificates.PageContents | dev/fill_cub_scout_certs.py:38-70 | the page dict has 6 or 7 entries per row, distinct names, all for rows `1..len(rows)`, each holding its row's value |
| Certificates.RankRowSpelled | dev/fill_cub_scout_certs.py:53-62 | on a rank template, row `i` writes `Childs name i`, `Den No i`, `Pack No i`, `DATE i`, `Den Leader i`, `Cubmaster i`, `Rank i`, in that order |
| Certificates.CertificateRowSpelled | dev/fill_cub_scout_certs.py:64-69 | on a certificate, row `i` writes `name i` and the `_field_name` names of On, Cub Scout Pack, for completing, Den Leader and Cubmaster |
| Certificates.BuildPageFieldMap | dev/fill_cub_scout_certs.py:38-70 | the dict is the page entries of the normalised rows, for the template kind given by "Den No 1" and "Childs name 1" |
| Certificates.WriteRows | dev/fill_cub_scout_certs.py:44-69 | the row loop appends the entries of each row in turn |
| Certificates.WriteRankRow | dev/fill_cub_scout_certs.py:54-61 | seven assignments append that row's rank-template entries |
| Certificates.WriteCertificateRow | dev/fill_cub_scout_certs.py:64-69 | six assignments append that row's certificate entries |
| Certificates.PositionOf | dev/fill_cub_scout_certs.py:114-118 | a usable entry gives its four-number rectangle and its `/MK /R` rotation, or 0 |
| Certificates.CollectContents | dev/fill_cub_scout_certs.py:104-118 | a name is collected exactly when some usable entry carries it, and the last such entry wins |
| Certificates.FieldPositions | dev/fill_cub_scout_certs.py:99-140 | the positions are non-empty and well-formed, or the error is "no detectable field positions"; usable annotations are taken as they are |
| Certificates.FieldPositionsFallback | dev/fill_cub_scout_certs.py:119-139 | AcroForm fields are used only when no annotation is usable; when neither source is usable the result is an error |
| Certificates.CollectPositions | dev/fill_cub_scout_certs.py:106-118 | the loop over one list of entries builds the collected dict |
| Certificates.ExtractFieldPositions | dev/fill_cub_scout_certs.py:99-140 | the method returns the positions of `FieldPositions` |
| Certificates.FittedSizeBounds | dev/fill_cub_scout_certs.py:143-156 | the fitted size lies between `min_size` and `max(min_size, min(max_size, base_size))`, and text set above the floor fits the width |
| Certificates.FitFontSize | dev/fill_cub_scout_certs.py:143-156 | the loop returns that size |
| Certificates.PlanTextPlacement | dev/fill_cub_scout_certs.py:159-193 | nothing is drawn exactly for empty text; otherwise the draw is centred on the shifted rectangle in its rotation, fitted to the draw width less 2 (at least 1) at a size from 6 to `max(6, min(12, base))`, and set on the baseline `-size / 2` |
| Certificates.PlanTextShift | dev/fill_cub_scout_certs.py:171-176 | `shift_x` moves only the centre of the draw |
| Certificates.DrawText | dev/fill_cub_scout_certs.py:159-193 | the method draws nothing for empty text; otherwise it draws at a size between 6 and `max(6, min(12, base))` |
| Certificates.DrawsForContents | dev/fill_cub_scout_certs.py:208-227 | an entry is drawn exactly when its field has a position and its text is non-empty |
| Certificates.OverlayPlanSound | dev/fill_cub_scout_certs.py:208-227 | every draw comes from a field-map entry that has a position and non-empty text, and there are no more draws than entries |
| Certificates.OverlayPlanComplete | dev/fill_cub_scout_certs.py:208-227 | every field-map entry with a position and non-empty text is drawn |
| Certificates.OverlayPlanFonts | dev/fill_cub_scout_certs.py:212-216 | a draw uses the script font and size exactly for "Den Leader…" and "Cubmaster…" fields when a script font is given, and is centred, at a size from 6 to `max(6, min(12, chosen size))` |
| Certificates.RenderOverlay | dev/fill_cub_scout_certs.py:196-230 | the loop over the field map makes the overlay's draws, in the dict's order |
| Certificates.FillPage | dev/fill_cub_scout_certs.py:283-310 | one page: its field map, its overlay, and the shift mapped by the override rotation, else the page's `/Rotate`, else 0 |
| Certificates.FillPages | dev/fill_cub_scout_certs.py:282-310 | one page per chunk, in order |
| Certificates.FillCertificates | dev/fill_cub_scout_certs.py:246-315 | the first error met (missing template, no header row, no data rows, no field positions), or `ceil(n / 8)` pages built from the chunks of eight rows |
| Certificates.PagesCoverRows | dev/fill_cub_scout_certs.py:279-286 | the chunks `FillCertificates` builds its pages from cover the rows in order, one chunk per page, at most eight rows each and none empty |
| RankCards.CardAnchorsLayout | dev/fill_cub_scout_rank_cards.py:14-21 | eight anchors: four along the top row at y = 360, then four along the bottom row at y = 90, 180 points apart from x = 52.6 |
| RankCards.CardAnchorsApart | dev/fill_cub_scout_rank_cards.py:15-21 | two different slots are at least 180 points apart horizontally or 270 points apart vertically |
| RankCards.CardFittedSizeBounds | dev/fill_cub_scout_rank_cards.py:58-64 | empty text keeps the base size; other text gets a size from 6 to `max(base, 6)` that fits whenever it is above 6 |
| RankCards.FitFontSize | dev/fill_cub_scout_rank_cards.py:58-64 | the loop, stepping by 0.4, returns that size |
| RankCards.PlaceRotatedPlacement | dev/fill_cub_scout_rank_cards.py:67-89 | nothing is drawn exactly for empty text; otherwise the text is drawn turned by 90 degrees at the card's anchor plus the field offset, at the capped and then fitted size |
| RankCards.DrawRotatedText | dev/fill_cub_scout_rank_cards.py:67-89 | the method draws nothing for empty text; otherwise it draws turned by 90 degrees at a size from 6 to `max(capped base, 6)` |
| RankCards.PreFitSize | dev/fill_cub_scout_rank_cards.py:187-221 | the name starts at exactly `min(max(10.5, font_size), 16)`; signatures at 7.5; den and pack at 7.5; the date at 7 |
| RankCards.PlaceFieldContents | dev/fill_cub_scout_rank_cards.py:145-222 | a card field is drawn exactly when its value is non-empty, in the signature font for the two signatures and the main font otherwise |
| RankCards.AwardNeverDrawn | dev/fill_cub_scout_rank_cards.py:145-222 | two rows that differ only in "Award Name" or "Rank" give the same card |
| RankCards.DrawCard | dev/fill_cub_scout_rank_cards.py:145-222 | the six draw calls of one card, in source order |
| RankCards.CardDrawsPlacement | dev/fill_cub_scout_rank_cards.py:145-222 | every draw of the card in slot `i` is turned by 90 degrees, has non-empty text and sits at one of the six field offsets from anchor `i` |
| RankCards.ChunksFitSheet | dev/fill_cub_scout_rank_cards.py:137-146 | no chunk holds more rows than a sheet has slots, so every `CARD_ANCHORS[idx]` lookup is in range |
| RankCards.FillSheet | dev/fill_cub_scout_rank_cards.py:138-234 | one sheet: the cards of its rows in slot order, and the shift mapped by the sheet's own `/Rotate` |
| RankCards.DrawCards | dev/fill_cub_scout_rank_cards.py:145-222 | the card loop puts row `idx` in slot `idx` |
| RankCards.FillSheets | dev/fill_cub_scout_rank_cards.py:137-234 | one sheet per chunk, in order |
| RankCards.FillRankCards | dev/fill_cub_scout_rank_cards.py:105-238 | the first error met (missing template, no header row, no data rows), or `ceil(n / 8)` sheets built from the chunks of eight rows |
| SafeNames.SanitizeKeepsAllowed | dev/cert_form_ui/server.py:165 | sanitising keeps the length, keeps exactly the allowed characters, and leaves only allowed characters |
| SafeNames.PathNameIsComponent | dev/cert_form_ui/server.py:164 | the last path component holds no slash and is never `.`; a plain name is its own component |
| SafeNames.SafeOutputNameSafe | dev/cert_form_ui/server.py:163-170 | the download name is never empty, holds only `[A-Za-z0-9._-]`, ends in `.pdf` ignoring case and is a fixed point of the sanitiser; an empty sanitised name becomes `filled_awards.pdf`, a name already ending in `.pdf` is kept, and any other gets exactly `.pdf` appended |
| SafeNames.SafeOutputNameOfSafe | dev/cert_form_ui/server.py:163-170 | a name that is already safe is returned unchanged |
| SafeNames.SafeBaseNameSafe | dev/cert_form_ui/server.py:180-182 | the zip-entry part is never empty, holds only allowed characters, never starts or ends with `.`, `_` or `-`, and is a fixed point of the sanitiser |
| SafeNames.SafeBaseNameOfSafe | dev/cert_form_ui/server.py:180-182 | a part that is already safe is returned unchanged |
| SafeNames.SafeZipNameSafe | dev/cert_form_ui/server.py:185-192 | the zip name holds only allowed characters, ends in `.zip` ignoring case and is a fixed point; a sanitised name (or `filled_awards.zip`) already ending so is kept, one with another suffix has that suffix replaced by `.zip`, and one with no suffix gets `.zip` appended |
| SafeNames.SafeZipNameOfSafe | dev/cert_form_ui/server.py:185-192 | a zip name that is already safe is returned unchanged |
| SafeNames.StemPrefix | dev/cert_form_ui/server.py:191 | the stem is the name up to its last dot when it has a suffix |
| Fonts.AliasesNotChained | dev/cert_form_ui/server.py:107-120 | no alias points at another alias, so one lookup resolves an id completely |
| Fonts.AliasesResolve | dev/cert_form_ui/server.py:43-120 | every alias names an entry of the main or the script catalog |
| Fonts.FirstPresent | dev/cert_form_ui/server.py:157-159 | the file found is the first existing path in list order; nothing is found only when no path exists |
| Fonts.FontResolutionCases | dev/cert_form_ui/server.py:147-160 | an unknown id or a nameless entry gives nothing; a built-in font gives a name and no file; otherwise the first existing file comes with the name, or nothing when none exists |
| Fonts.ResolveFontChoice | dev/cert_form_ui/server.py:147-160 | the loop over the font paths returns that resolution |
| Fonts.MainFontNamed | dev/cert_form_ui/server.py:325-328 | the main font always has a name; a choice that resolves to nothing becomes Helvetica with no file |
| Fonts.GeorgiaIsDejaVuSerif | dev/cert_form_ui/server.py:109 | the retired id "Georgia" resolves as "DejaVuSerif" |
| Fonts.NoScriptFont | dev/cert_form_ui/server.py:85 | the script choice "None" gives no script font |
| Limiter.PruneDropsOldPrefix | dev/cert_form_ui/server.py:135-136 | pruning drops a prefix of entries older than the cutoff and stops at the first entry that is not |
| Limiter.PruneSorted | dev/cert_form_ui/server.py:134-136 | on a queue in time order, pruning keeps exactly the requests inside the window |
| Limiter.AllowStepCases | dev/cert_form_ui/server.py:130-140 | a call is admitted exactly when fewer than `max_requests` recent requests remain; an admitted call is appended to the pruned queue; no other key changes; no queue exceeds the cap |
| Limiter.AllowKeepsSorted | dev/cert_form_ui/server.py:130-140 | with non-decreasing times, each queue stays in time order |
| Limiter.BurstAdmitsUpToCapacity | dev/cert_form_ui/server.py:137-140 | `n` simultaneous calls admit exactly `min(n, capacity left)` |
| Limiter.PruneQueue | dev/cert_form_ui/server.py:135-136 | the pruning loop computes `Prune` |
| Limiter.SlidingWindowLimiter.constructor | dev/cert_form_ui/server.py:124-128 | a new limiter has its two settings and no queues |
| Limiter.SlidingWindowLimiter.Allow | dev/cert_form_ui/server.py:130-140 | the answer and the new queues are one `AllowStep` from the old ones, and the cap invariant is kept |
| Validation.ParseCsvAgreesWithReadRows | dev/cert_form_ui/server.py:219-225 | the server finds a header exactly when the generators do, and then reads the same rows; a file without a header gives no rows |
| Validation.Missing | dev/cert_form_ui/server.py:231 | a header is reported missing exactly when it is required and absent |
| Validation.MissingConcat | dev/cert_form_ui/server.py:231 | missing headers keep the order of `REQUIRED_HEADERS` |
| Validation.RowMessagesDistinct | dev/cert_form_ui/server.py:243-249 | two messages of the same kind about different rows never read the same |
| Validation.CheckRow | dev/cert_form_ui/server.py:238-241 | the four cells are read with `(row.get(k) or "").strip()` |
| Validation.AddRowIssues | dev/cert_form_ui/server.py:242-249 | one row's errors and warnings are appended after those found so far |
| Validation.AddAllRowIssues | dev/cert_form_ui/server.py:237-249 | the row loop appends the issues of every row, numbered from 2 |
| Validation.BuildValidationReport | dev/cert_form_ui/server.py:228-257 | the method returns the report |
| Validation.RowsErrorsMembership | dev/cert_form_ui/server.py:237-245 | a "Scout Name is required" or "Award Name is required" error names row `k` exactly when row `k` (numbered from 2) has that cell blank; there are no other row errors |
| Validation.RowsWarningsMembership | dev/cert_form_ui/server.py:237-249 | a warning names row `k` exactly when its pack number is blank, or its date is non-blank and not in a recognised format; there are no other warnings |
| Validation.RowsErrorsEmpty | dev/cert_form_ui/server.py:237-245 | there are no row errors exactly when every row has a scout name and an award name |
| Validation.ReportRowIssues | dev/cert_form_ui/server.py:228-257 | the report's errors and warnings name exactly the offending rows, numbered from 2, after the file-level errors |
| Validation.ReportOkIff | dev/cert_form_ui/server.py:228-257 | the report is ok exactly when it has no errors, which is exactly when every required header is present, there is a row, and every row has a scout name and an award name |
| Validation.ReportFileErrors | dev/cert_form_ui/server.py:231-235 | the file-level errors come first: the missing headers (only when some are missing), then "no data rows" (only when there are none) |
| Validation.ValidatedCsvReads | dev/cert_form_ui/server.py:315-323 | a CSV that passes the check gives the generator a header and at least one row, the same rows the server checked |
| ShortRows.ShortRowPassesValidationButFails | dev/fill_cub_scout_certs.py:45-51 | a row lacking its last cell passes the server's check, and the generator's read of that cell fails |
| ShortRows.StrippedCellCorrects | dev/fill_cub_scout_certs.py:45-51 | the corrected read never fails: it agrees with the written one whenever that succeeds and gives "" where that one raises; it is the read `Rows.Normalize` applies to every cell |

## Left out

- PDF reading, merging and writing, the canvas, and font registration: a page is modelled as the list of its draw calls and its translation; `stringWidth` is a parameter.
- Floating point: point sizes and coordinates are exact reals, so rounding in the fitters' 0.5 and 0.4 steps is not modelled.
- Flask routes, request parsing, `_client_ip`, `_parse_float`, the upload size limit, JSON responses and the limiter's lock: the model covers the functions these routes call, not HTTP or threads.
- `time.time()`: the limiter takes the current time as an argument.
- The values of the limiter settings (12 and 30 per minute, read from the environment): the limiter is modelled for any setting.
- CSV tokenising and UTF-8 decoding: a CSV is modelled as its header row and its rows of cells. Rows with more cells than the header, and the byte-order mark, which the server strips but the certificate generator's own read keeps, are not modelled.
- The per-scout zip mode of `/generate`: the zip file, the temporary per-row CSVs and the `{i:03d}_{scout}_{award}` entry names are not modelled, apart from the name sanitisers they use.
- `Path(value).name`: modelled for POSIX paths only; the `/` separator and repeated and trailing slashes are handled, Windows drive letters and backslashes are not.
- `_extract_field_positions`: PDF objects are abstracted to a name, an optional rectangle and an optional `/MK /R` rotation; the conversions `str(name)` and `int(rotation)` are taken to succeed.
- The `main()` command-line entry points of both generators.
- Rows.Normalize: reads a cell missing from a short row as "" (the corrected read `ShortRows.StrippedCell`), so `Certificates.BuildPageFieldMap` and `Certificates.FillCertificates` do not model the `AttributeError` the certificate generator as written raises there for the scout name, pack number, den leader and cubmaster; that path is modelled separately, see "## Findings".
- Dates.NumberField: only ASCII digits are read; Python's `strptime` also accepts any Unicode decimal digit in `%Y`, in `%y` and as the second digit of `%d` (full-width "２０２４-05-01" becomes "05/01/2024" there but passes through unchanged here), because the model's digit set is `'0'`..`'9'`.
- Dates.Render: the year is always padded to four digits; on CPython builds whose `strftime("%Y")` follows glibc, a year below 1000 is printed without leading zeros ("0999-05-01" gives "05/01/999"), which the model does not reproduce.

## Findings

| source | as written | input that shows it | evidently intended | confidence | as-written member | corrected member |
|---|---|---|---|---|---|---|
| dev/fill_cub_scout_certs.py:45-51 | reads the scout name, pack number, den leader and cubmaster with `row.get(key, "").strip()`. `csv.DictReader` gives `None` for every cell missing from a short row, so `None.strip()` raises `AttributeError`. The server's validation (`dev/cert_form_ui/server.py:238-241`) reads cells with `(row.get(k) or "")`, does not check the "Cubmaster" cell per row, and hands the file to this generator in combined-PDF mode | a CSV with the six required headers and one row `,7,Ada,Bobcat,Lee` (no cubmaster cell): the server's validation reports ok, then generation fails | `(row.get(key) or "").strip()`, as the rank-card generator reads the same cells (`dev/fill_cub_scout_rank_cards.py:147-152`) and as the validator does | high (not executed) | ShortRows.StrippedCellAsWritten, ShortRows.ShortRowPassesValidationButFails | ShortRows.StrippedCell, ShortRows.StrippedCellCorrects (Rows.Normalize reads cells this way) |
