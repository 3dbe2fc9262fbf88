# Image matcher and tabular views: a Dafny model

This project models the core of a web application for spreadsheet import, report writing and
image-to-row matching.

**The image-to-row batch matcher.**
- An uploaded spreadsheet is read into rows and typed columns (`ExcelParser`).
- A zip archive of images is indexed under three keys per image (`Keys`, `ImageIndex`):
  - the exact file name;
  - the normalized name: lower-cased, trimmed, one trailing extension removed;
  - the loose name: only `[a-z0-9]`.
- Each column is scored by how many of its rows reach an image, and the first best column is
  chosen (`Matching`).
- The output sheet is laid out with one anchored image per matched row (`Emitter`).
- The image-mapper screen (`ImageMapperScreen`) drives all of this. It moves through idle,
  analyzing, processing and done, and keeps a lazily filled cache of preview URLs for the first
  50 rows.
- The preview declares `normalize` and `loose` a second time, character for character, so
  preview and export share the key space modelled once in `Keys`.

**The tabular transforms of the other screens.**
- `Pivot`: the pivot matrix and its CSV export.
- `Charts`: chart grouping with its descending sort and its top-15-plus-`Others` cut.
- `Dashboard`: fallback widgets and KPI totals.
- `Visualizer`: axis defaults and the add-to-report button.
- `Spreadsheet`: pagination and row editing.
- `Markdown`: the report editor's markdown line classifier and bold-span parser.
- `ReportEditor`: chart rendering, inserted visuals, templates and screen selection.

**How state is modelled.**
- Pure code is modelled as functions.
- Loops that update variables are modelled as methods with loop invariants. Each such method is
  proved equal to a reference function, and the properties are proved about that function.
- Screens whose state the source updates are modelled as classes.
- Rows are maps from column key to a value: `undefined`, `null`, a boolean, an integer or a
  string. A missing key reads as `undefined`.
- Archive entries are (path, is-folder, blob) triples, processed in archive order, so the last
  write wins.
- AI answers, file choices and random ids are parameters.

Behaviours of the code worth knowing:
- **`normalize` is not idempotent:** `a.tar.gz` becomes `a.tar`, then `a`
  (`Keys.NormalizeNotIdempotent`).
- **The loose tier is asymmetric.** Images are keyed by the loose form of their normalized name.
  Values are looked up by the loose form of the raw value. So the value `A-100.png` does not
  reach the image `A100.png` (`Matching.LooseTierIsAsymmetric`).
- **The exact tier is keyed by basename.** Same-named files in different folders overwrite one
  another there.
- **The image count counts qualifying entries, not distinct keys** (`ImageIndex.ImageCountBoundsTiers`).

## Model

| member | source | states |
|---|---|---|
| `Common.Lower` | services/fileService.ts:10-11 | `toLowerCase` keeps the length and maps every character through the ASCII lower-case mapping |
| `Common.TrimSpec` | services/fileService.ts:10 | `trim` returns a slice of the input that neither starts nor ends with white space; the result is empty exactly when the input is all white space |
| `Common.TrimUnchanged` | services/fileService.ts:10 | a string without white space at either end is its own trimmed form |
| `Common.TrimIdempotent` | services/fileService.ts:10 | trimming twice is trimming once |
| `Common.DedupSpec` | components/PivotTable.tsx:62-63 | `new Set(...)` keeps each distinct label once and keeps exactly the labels that occur |
| `Common.Project` | components/PivotTable.tsx:62 | `data.map(f)` has one entry per record, entry `i` being `f(data[i])` |
| `Common.ScanNumber` | services/fileService.ts:68 | a number `parseFloat` reads is taken from a non-empty prefix of the string |
| `Keys.LooseSpec` | services/fileService.ts:11 | `loose` output is no longer than its input and holds only `[a-z0-9]` |
| `Keys.LooseOfAlnum` | services/fileService.ts:11 | a name made only of letters and digits loses nothing but its case |
| `Keys.LooseKeepsLooseStrings` | services/fileService.ts:11 | a string already in `[a-z0-9]*` is its own loose key |
| `Keys.LooseIdempotent` | services/fileService.ts:11 | `loose(loose(s)) == loose(s)` |
| `Keys.LooseEmptyIff` | services/fileService.ts:11 | the loose key is empty exactly when no character lower-cases into `[a-z0-9]`, which is when the fuzzy tier is skipped |
| `Keys.LooseAppend` | services/fileService.ts:11 | `loose` works character by character: `loose(a + b) == loose(a) + loose(b)` |
| `Keys.StripExtensionSpec` | services/fileService.ts:10 | `replace(/\.[^/.]+$/, "")` changes the string exactly when it ends in `.suffix` (suffix non-empty, free of `.` and `/`), and then leaves the part before that dot |
| `Keys.StripExtensionAt` | services/fileService.ts:10 | when the extension starts at `i`, stripping leaves exactly `t[..i]` |
| `Keys.NormalizeSpec` | services/fileService.ts:10 | `normalize(s)` is `trim(lower(s))`, shortened by its trailing extension exactly when it has one |
| `Keys.NormalizePlain` | services/fileService.ts:10 | a lower-case, untrimmable name with an extension at `i` normalizes to its part before `i` |
| `Keys.NormalizeIgnoresCase` | services/fileService.ts:10 | lower-casing first does not change the normalized key |
| `Keys.NormalizeNotIdempotent` | services/fileService.ts:10 | `normalize(normalize("a.tar.gz")) != normalize("a.tar.gz")` |
| `Keys.NormalizeExample` | services/fileService.ts:10 | `Invoice_01.PNG` normalizes to `invoice_01` |
| `ImageIndex.BasenameSpec` | services/fileService.ts:110-112 | `split('/').pop()` is the longest suffix of the path without a `/` |
| `ImageIndex.ImageCount` | services/fileService.ts:128 | the image count never exceeds the number of entries |
| `ImageIndex.IndexOfStep` | services/fileService.ts:106-131 | one more entry changes the index by filing that entry alone, if it qualifies, and adds one to the count exactly then |
| `ImageIndex.ProcessImageBatch` | services/fileService.ts:88-136 | the loop over the entries builds the reference index of the archive and counts its qualifying entries |
| `ImageIndex.InsertTier` | services/fileService.ts:117-126 | filing one image sets its exact, normalized and (when non-empty) loose key to its blob and leaves every other key as it was |
| `ImageIndex.IndexTierStep` | services/fileService.ts:116-129 | after one more entry, a key that entry writes holds its blob; any other key is present, with its blob, exactly as before |
| `ImageIndex.IndexTier` | services/fileService.ts:106-132 | a tier holds a key exactly when some qualifying entry (not a folder, not under `__MACOSX`, not hidden, non-empty image name) writes it, and then holds the blob of the last such entry |
| `ImageIndex.EmptyNeverFuzzyKey` | services/fileService.ts:125-126 | `""` is never a fuzzy key |
| `ImageIndex.ImageCountBoundsTiers` | services/fileService.ts:117-128 | the image count is at least the size of each of the three dictionaries |
| `Matching.Resolve` | services/fileService.ts:211-216 | the tiered lookup finds something exactly when a tier holds the value's key; the exact tier wins, then the normalized one, then the non-empty loose one |
| `Matching.FindMatch` | components/ImageMapper.tsx:43-56 | `findMatch` gives nothing for an empty value; otherwise it gives a result exactly when the trimmed value hits a tier, and the exact entry when there is one |
| `Matching.ResolveSound` | services/fileService.ts:117-126 | whatever the lookup returns is the blob of a qualifying archive image whose exact, normalized or non-empty loose key meets the value's |
| `Matching.ResolvePrefersExact` | components/ImageMapper.tsx:47 | when some image carries the value's exact name, the lookup returns the last such image, whatever the other tiers hold |
| `Matching.MatchCount` | services/fileService.ts:150-161 | a column's score never exceeds the number of rows |
| `Matching.Scores` | services/fileService.ts:148-162 | one score per column, in declaration order, each the count of its matching rows |
| `Matching.CountMatches` | services/fileService.ts:149-161 | the inner loop counts the rows whose trimmed value is not blank and hits a tier |
| `Matching.FindBestMatchColumn` | services/fileService.ts:138-170 | no columns gives `('', 0)`; otherwise the result is the first column of highest score (later columns replace only on a strictly greater count) with that score, which is at most the number of rows |
| `Matching.FirstMaxUnique` | services/fileService.ts:163-166 | the first maximum is unique: the scorer's answer is determined by its inputs |
| `Matching.EmptyArchiveNoMatches` | services/fileService.ts:150-161 | against an empty archive no row counts |
| `Matching.EmptyArchiveBest` | services/fileService.ts:143-167 | against an empty archive the scorer keeps the first column with count 0 |
| `Matching.BasenameNoSlash` | services/fileService.ts:112 | a path without `/` is its own basename |
| `Matching.TopLevelImageQualifies` | services/fileService.ts:108-115 | a top-level, non-hidden `.png` entry whose name has no `__` passes the filter |
| `Matching.NoDotNormalize` | services/fileService.ts:10 | a value without a dot only loses case and surrounding white space to `normalize` |
| `Matching.CellTextPlain` | services/fileService.ts:151 | `String(row[k] \|\| '').trim()` of an untrimmable text cell is that text |
| `Matching.A100Index` | services/fileService.ts:106-132 | an archive holding only `A100.png` is filed under `A100.png`, `a100` and `a100` |
| `Matching.A100Row1` | services/fileService.ts:151-159 | the value `A100` reaches `A100.png` |
| `Matching.A100Row2` | services/fileService.ts:151-159 | the value `a-100` reaches `A100.png` through its loose key |
| `Matching.A100Row3` | services/fileService.ts:151-159 | the value `ZZZ` reaches nothing |
| `Matching.A100Scenario` | services/fileService.ts:148-161 | the column holding `A100`, `a-100`, `ZZZ` scores 2 against that archive |
| `Matching.LooseTierIsAsymmetric` | services/fileService.ts:125 | the value `A-100.png` reaches `A100.png` through no tier |
| `Matching.SymmetryExact` | services/fileService.ts:118 | the image `Ab_1.PNG` is reached by the value `Ab_1.PNG` through the exact tier |
| `Matching.SymmetryNormalized` | services/fileService.ts:121-122 | the image `Ab_1.PNG` is reached by the value `ab_1` through the normalized tier |
| `Matching.SymmetryLoose` | services/fileService.ts:125-126 | the image `Ab_1.PNG` is reached by the value `AB 1` through the loose tier |
| `Matching.MatchCountAsWritten` | services/fileService.ts:158 | reading `{}` dictionaries as written counts at least every row the stored keys count |
| `Matching.InheritedKeyCounts` | services/fileService.ts:158 | as written, a row holding `constructor` counts against an empty archive; the corrected count is 0 |
| `Emitter.SheetColumns` | services/fileService.ts:183-187 | the sheet's columns are `#`, then every data column under its label, then `Image Preview`, with widths 5, 25 and 15 |
| `Emitter.Extension` | services/fileService.ts:221 | `type.split('/')[1] \|\| 'png'` is never empty and holds no `/` |
| `Emitter.ExtensionOfSubtype` | services/fileService.ts:221 | the extension of `kind/sub` is `sub` |
| `Emitter.ExtensionDefault` | services/fileService.ts:221 | a MIME type without `/` gives `png` |
| `Emitter.RowImage` | services/fileService.ts:208-216 | the lookup with a blank test, as the scorer and the preview have it: a blank value gets no image; any other value gets the tiered lookup's result |
| `Emitter.LayoutStep` | services/fileService.ts:201-241 | one more data row appends one sheet row and, when its value resolves, one image and one anchor at (image column, row `i + 1`) |
| `Emitter.LookUpImage` | services/fileService.ts:208-216 | the export loop's exact, normalized, loose lookup, with the blank test added, computes `RowImage` |
| `Emitter.GenerateImageMappedExcel` | services/fileService.ts:172-242 | the export loop, with blank values skipped, builds exactly the reference layout of the data |
| `Emitter.LayoutRows` | services/fileService.ts:201-206 | one sheet row per data row, in order, whose values handed to `addRow` are every field of the row unchanged plus `index` = `i + 1` when the row has no `index` of its own; height 60 exactly when the row got an image, else 20 |
| `Emitter.Written` | services/fileService.ts:183-203 | `addRow` writes exactly the defined values under the sheet's column keys, unchanged, and drops every other field |
| `Emitter.LayoutWrittenCells` | services/fileService.ts:183-203 | a written row holds its `index` (unless the row has its own) and each data column's defined value; no key outside `index`, the data columns and `image_preview` is written, so a generated `id` without an `id` column is not |
| `Emitter.LayoutAnchorCount` | services/fileService.ts:218-234 | in the layout with blank values skipped, there are as many images and anchors as the scorer counts matching rows for the match column |
| `Emitter.LayoutAnchorsFit` | services/fileService.ts:223-234 | anchor `k` shows image `k`, sits in the image column at 80 x 80, and its row is a data row whose value resolves to that image |
| `Emitter.LayoutAnchorsOrdered` | services/fileService.ts:201-234 | anchors come in strictly increasing row order |
| `Emitter.LayoutAnchorsCover` | services/fileService.ts:218-231 | every row whose value resolves carries an anchor |
| `Emitter.EmptyArchiveLayout` | services/fileService.ts:211-240 | with an empty archive there are no images or anchors and every row is 20 high |
| `Emitter.PreviewAgreesWithExport` | components/ImageMapper.tsx:43-56 | the preview's `findMatch` and the export with blank values skipped pick the same image for every row |
| `Emitter.FirstTwoOfThreeAnchored` | services/fileService.ts:228-234 | with three rows of which the first two match, anchors land on sheet rows 1 and 2 of the image column |
| `Emitter.A100Emission` | services/fileService.ts:201-241 | the sample table against `A100.png` gets images on sheet rows 1 and 2 of column 2 and none for `ZZZ` |
| `Emitter.RowImageAsWritten` | services/fileService.ts:208-216 | the lookup as written agrees with the corrected one on every non-blank value |
| `Emitter.BlankRowGetsImage` | services/fileService.ts:208-216 | as written, an image named ` .png` is embedded on a blank row, which the corrected lookup and the scorer skip |
| `Emitter.RowImageAsWrittenDiffers` | services/fileService.ts:208-216 | the lookup as written and the one with the blank test part exactly on a blank value, when the exact or the normalized dictionary holds the empty key |
| `Emitter.EmptyNeverExactKey` | services/fileService.ts:113-121 | no image has an empty file name, so the exact dictionary never holds the empty key |
| `Emitter.ImagesAsWrittenAgree` | services/fileService.ts:208-229 | without the empty key in the exact and normalized dictionaries, the images embedded as written are those of the layout with blank values skipped |
| `Emitter.AnchorsAsWrittenAgree` | services/fileService.ts:208-234 | without the empty key in the exact and normalized dictionaries, the anchors placed as written are those of the layout with blank values skipped |
| `Emitter.LayoutAsWrittenAgrees` | services/fileService.ts:172-242 | unless an image's normalized name is empty, the export as written lays out exactly the sheet with blank values skipped, so every layout property carries over |
| `Emitter.PreviewAgreesWithExportAsWritten` | components/ImageMapper.tsx:43-56 | the preview and the export as written part exactly on a blank match value that the unguarded lookup resolves |
| `Emitter.BlankRowLayouts` | services/fileService.ts:208-234 | for a one-row table with a blank match value, the export as written anchors an image on sheet row 1, 60 high, exactly when the unguarded lookup resolves the empty value; with blank values skipped it never does |
| `Emitter.BlankRowSheetDiffers` | services/fileService.ts:208-234 | as written, the archive holding ` .png` gets an anchor on a blank row that no row's score counts; with blank values skipped there is none |
| `ExcelParser.DetectColumns` | services/fileService.ts:41-61 | one string column per key of the first record, labelled by the key with a header row and `Column <key>` without |
| `ExcelParser.InferColumns` | services/fileService.ts:64-71 | each column keeps key and label and becomes `number` exactly when every one of the first 50 values is empty, a number or a `parseFloat`-able string |
| `ExcelParser.KeepNumberCharsSpec` | services/fileService.ts:78 | `replace(/[^0-9.-]/g, '')` keeps only digits, dots and minus signs, and keeps a string made only of those unchanged |
| `ExcelParser.CleanRowSpec` | services/fileService.ts:74-83 | text cells of number columns become `parseFloat(kept) \|\| 0`, every other cell keeps its value, only `id` may be added, and with a non-empty fresh id the record ends with a truthy `id` |
| `ExcelParser.CleanRowKeepsId` | services/fileService.ts:76-81 | a truthy text `id` survives unchanged, unless `id` is itself a number column: then it is coerced, and replaced by the fresh id when its digits read as 0 |
| `ExcelParser.ParseExcelSpec` | services/fileService.ts:24-86 | the parse fails exactly on an empty sheet; otherwise every record is kept in order and cleaned, with one column per key of the first record, typed by the inference; the column keys are exactly the first record's keys, each once |
| `ExcelParser.ColumnsKeyedByFirst` | services/fileService.ts:44-61 | columns built from `Object.keys` of the first record have distinct keys, and exactly that record's keys |
| `ExcelParser.ParsedRowsHaveIds` | services/fileService.ts:81 | every parsed record carries a truthy `id` |
| `ExcelParser.CleanedNumberColumnsHoldNoText` | services/fileService.ts:76-80 | after cleaning, a number column other than `id` holds no text |
| `ExcelParser.CleaningKeepsNumberColumns` | services/fileService.ts:64-80 | inferring types again on cleaned records keeps every number column other than `id` numeric |
| `ExcelParser.CoerceCurrency` | services/fileService.ts:78 | `"$7"` in a number column becomes 7 |
| `ExcelParser.CoerceNoDigits` | services/fileService.ts:78 | `"n/a"` in a number column becomes 0 |
| `ImageMapperScreen.PreviewValues` | components/ImageMapper.tsx:66-67 | the preview looks at the trimmed match values of the first 50 rows, in order |
| `ImageMapperScreen.CollectPreviewUrls` | components/ImageMapper.tsx:62-76 | the loop creates a numbered URL exactly for each value among the first 50 rows that is not blank, not cached and resolves, showing the blob the lookup found |
| `ImageMapperScreen.UpdatePreviewUrls` | components/ImageMapper.tsx:59-81 | the merge keeps every cached entry, adds only wanted values with their resolved blob and fresh URLs, and leaves no wanted value uncached |
| `ImageMapperScreen.RunMatching` | components/ImageMapper.tsx:103-114 | matching yields the archive's index and image count, and the scorer's first best column with its score |
| `ImageMapperScreen.ImageMapper.constructor` | components/ImageMapper.tsx:16-30 | the screen starts idle, with no files, data, dictionaries, URLs, revoked URLs or column |
| `ImageMapperScreen.ImageMapper.UploadExcel` | components/ImageMapper.tsx:83-85 | a chosen spreadsheet replaces the current one; an empty choice changes nothing |
| `ImageMapperScreen.ImageMapper.UploadZip` | components/ImageMapper.tsx:87-89 | a chosen archive replaces the current one; an empty choice changes nothing |
| `ImageMapperScreen.ImageMapper.ProcessFiles` | components/ImageMapper.tsx:91-122 | nothing happens without both files; otherwise the status goes through analyzing, processing and done; a failure returns to idle, keeping what was already set, including the dictionaries, the column and the counts |
| `ImageMapperScreen.ImageMapper.FinishMatching` | components/ImageMapper.tsx:105-115 | on success the match column is the best column, the matched rows its score and the total images the image count |
| `ImageMapperScreen.ImageMapper.PreviewEffect` | components/ImageMapper.tsx:59-81 | the effect does nothing unless matching is done and a column chosen; it never removes or replaces a cached URL and caches every wanted value; with the clean-up run only at unmount, every cached URL stays unrevoked |
| `ImageMapperScreen.RevokeOnChange` | components/ImageMapper.tsx:35-40 | as written, the clean-up never un-revokes a URL, and every change of the cache revokes every URL of the previous cache |
| `ImageMapperScreen.MergeRevokesCachedUrls` | components/ImageMapper.tsx:35-81 | as written, a merge that adds a preview URL revokes each URL the cache already held, while the cache still hands it out |
| `ImageMapperScreen.ImageMapper.Unmount` | components/ImageMapper.tsx:35-40 | the clean-up at unmount revokes exactly the URLs the cache holds, and nothing else changes |
| `ImageMapperScreen.ImageMapper.PreviewCell` | components/ImageMapper.tsx:185-187 | a preview row shows an image exactly when its trimmed match value is cached |
| `ImageMapperScreen.ImageMapper.StartOver` | components/ImageMapper.tsx:152 | "Start Over" only returns the status to idle; data, columns, dictionaries and URLs stay |
| `ImageMapperScreen.ImageMapper.SelectMatchColumn` | components/ImageMapper.tsx:166-168 | the select sets the match column |
| `ImageMapperScreen.ImageMapper.Download` | components/ImageMapper.tsx:124-131 | the download builds the sheet from the current rows, columns, match column and dictionaries |
| `Pivot.BelowIrreflexive` | components/PivotTable.tsx:65-66 | no label sorts before itself |
| `Pivot.BelowTransitive` | components/PivotTable.tsx:65-66 | the default sort order is transitive |
| `Pivot.BelowTotal` | components/PivotTable.tsx:65-66 | two different labels are ordered one way or the other |
| `Pivot.IncreasingIsDistinct` | components/PivotTable.tsx:62-66 | sorted labels without ties have no duplicates |
| `Pivot.SortStringsSpec` | components/PivotTable.tsx:65-66 | sorting distinct labels gives them in increasing order, none lost or added |
| `Pivot.LabelsSpec` | components/PivotTable.tsx:62-66 | the labels are sorted, free of duplicates, and exactly the labels some record shows |
| `Pivot.GroupAppend` | components/PivotTable.tsx:71-79 | one more record adds its value to exactly its own cell's bucket |
| `Pivot.MinMaxSpec` | components/PivotTable.tsx:95-96 | `Math.min` / `Math.max` bound every value of the bucket and are values of it |
| `Pivot.MinimumNotAboveMaximum` | components/PivotTable.tsx:92-96 | for a non-empty bucket min <= max, and both are values of the bucket |
| `Pivot.PushValue` | components/PivotTable.tsx:76-78 | the push grows exactly one bucket by the value and leaves every other bucket as it was |
| `Pivot.CollectValues` | components/PivotTable.tsx:69-79 | after the first pass every bucket holds, in record order, the `Number(v) \|\| 0` of the records of that cell |
| `Pivot.TabulateRow` | components/PivotTable.tsx:84-97 | one matrix row holds one cell per column label, each the aggregate of its bucket (0 when empty) |
| `Pivot.Tabulate` | components/PivotTable.tsx:81-98 | the matrix has exactly the row labels, each with exactly the column labels, each cell the aggregate of its bucket |
| `Pivot.BuildMatrix` | components/ReportEditor.tsx:38-68 | with no guard on the keys, the sorted labels plus one cell per label pair holding the aggregate of its records' values |
| `Pivot.PivotMatrix` | components/PivotTable.tsx:59-102 | empty matrix and labels unless row, column and value keys are all set; otherwise the full matrix over the sorted labels |
| `Pivot.BucketsPartition` | components/PivotTable.tsx:71-79 | when the labels cover every record, the bucket sums add up to the sum over all records |
| `Pivot.LabelsPartition` | components/PivotTable.tsx:62-66 | the labels are distinct and cover every record |
| `Pivot.TotalCellsAddUp` | components/PivotTable.tsx:92 | with `sum`, the matrix cells add up to the total of the value column |
| `Pivot.CountCellsAddUp` | components/PivotTable.tsx:93 | with `count`, the matrix cells add up to the number of records |
| `Pivot.CsvFields` | components/PivotTable.tsx:108 | a row's CSV fields are its cells under each column label, in order, 0 where the matrix has none |
| `Pivot.CsvRecords` | components/PivotTable.tsx:106-110 | the export holds the header record (corner and column labels), then one record per row label with its fields |
| `Pivot.ExportCsv` | components/PivotTable.tsx:104-118 | nothing without a row and a column key; otherwise `Pivot_<row>_vs_<col>.csv` holding exactly the lines of those records |
| `Pivot.CsvLayout` | components/PivotTable.tsx:106-109 | the text starts with the header line, and the line of the `i`-th row label follows the lines before it |
| `Pivot.PivotTable.constructor` | components/PivotTable.tsx:19-26 | no keys chosen, `sum`, no suggestions shown |
| `Pivot.PivotTable.ApplySuggestion` | components/PivotTable.tsx:37-57 | all four fields are taken over and suggestions hidden; the parent is then told the configuration exactly when all three keys are set |
| `Charts.Summary` | components/Dashboard.tsx:27-38 | one group per distinct x name, in order of first appearance |
| `Charts.FindName` | components/Dashboard.tsx:31 | `find` returns the first group with that name, or none |
| `Charts.SummaryStepExisting` | components/Dashboard.tsx:31-33 | a record whose name has a group adds its metric to that group |
| `Charts.SummaryStepNew` | components/Dashboard.tsx:34-35 | a record with a new name opens a group at the end |
| `Charts.SummaryStep` | components/Dashboard.tsx:27-38 | adding a record to the data is one reduce step on the grouping |
| `Charts.ReduceStep` | components/Dashboard.tsx:28-37 | the reduce callback computes one reduce step |
| `Charts.GroupRows` | components/Dashboard.tsx:27-38 | the reduce builds exactly the reference grouping |
| `Charts.SummaryNamesDistinct` | components/Dashboard.tsx:31-35 | no two groups share a name |
| `Charts.SummaryNamesFromRecords` | components/Dashboard.tsx:28 | every group is named after some record (`Unknown` for a falsy x value) |
| `Charts.SummaryNamesCoverRecords` | components/Dashboard.tsx:27-38 | every record's name has a group |
| `Charts.SummaryTotal` | components/Dashboard.tsx:27-38 | the group totals add up to the sum of the records' numeric y values |
| `Charts.AbsorbTotal` | components/Dashboard.tsx:31-36 | one reduce step adds the record's metric to the total |
| `Charts.FirstRawIsFirst` | components/Visualizer.tsx:74-78 | a group's raw key comes from the first record carrying its name |
| `Charts.SummaryPoint` | components/Visualizer.tsx:69-81 | every group holds the sum of its records' metrics and the raw value of its first record |
| `Charts.SortByValueKeeps` | components/Dashboard.tsx:43 | the sort is a permutation |
| `Charts.SortByValueOrders` | components/Dashboard.tsx:43 | the sort orders by value, largest first |
| `Charts.SortByValueStable` | components/Dashboard.tsx:43 | equal values keep their order |
| `Charts.SortByValueSum` | components/Dashboard.tsx:43 | the sort keeps the total |
| `Charts.Truncate` | components/Dashboard.tsx:46-53 | the cut leaves at most 16 points |
| `Charts.ChartData` | components/Dashboard.tsx:24-54 | `processChartData` (and the visualizer's `processData`) gives `[]` without both keys or records, otherwise the sorted, cut grouping, at most 16 points |
| `Charts.SortFew` | components/Dashboard.tsx:43-53 | at most 15 groups are sorted and none is cut |
| `Charts.FewGroupsAllShown` | components/Dashboard.tsx:43-53 | with at most 15 groups the chart shows every group, largest first |
| `Charts.CutKeepsLargest` | components/Dashboard.tsx:46-48 | nothing past the first 15 of a descending list exceeds any of them |
| `Charts.CutDescending` | components/Dashboard.tsx:46-51 | the first 15 stay in order, and `Others` follows with the rest's total exactly when that total is positive |
| `Charts.ShownPointIsGroup` | components/Dashboard.tsx:46-47 | each of the first 15 points shown is one of the groups |
| `Charts.TruncateSorted` | components/Dashboard.tsx:43-51 | more than 15 groups: 15 shown largest first, the rest folded into `Others` when positive |
| `Charts.ManyGroupsTruncated` | components/Dashboard.tsx:24-54 | more than 15 groups: the chart shows the 15 largest in order, no omitted group is larger than a shown one, and `Others` holds the omitted total exactly when it is positive |
| `Charts.TruncateSortedSum` | components/Dashboard.tsx:43-53 | the cut keeps the total unless a non-positive remainder is dropped, which only raises it |
| `Charts.ChartTotal` | components/Dashboard.tsx:24-54 | the chart keeps the y column's total, except that a dropped non-positive remainder can only raise it |
| `Charts.ColumnsOfSpec` | components/Dashboard.tsx:176-177 | `filter` keeps exactly the columns whose type passes |
| `Charts.FindColumn` | components/Visualizer.tsx:35-40 | `find` returns a column whose type passes, and nothing exactly when none does |
| `Charts.FindIsFirstOfFilter` | components/Visualizer.tsx:35-40 | `find` returns the first column `filter` keeps |
| `Charts.ColumnsOfAppend` | components/Dashboard.tsx:176-177 | `filter` keeps the columns' order |
| `Dashboard.FallbackSize` | components/Dashboard.tsx:175-190 | the fallback is empty exactly without a number or a category column; otherwise it has 2 to 4 widgets, one more for each second column kind |
| `Dashboard.FallbackAxes` | components/Dashboard.tsx:179-189 | every fallback widget has a category column on x and a number column on y |
| `Dashboard.FallbackLeads` | components/Dashboard.tsx:180-183 | the first two fallback widgets are the bar and the line of the first number column over the first category column |
| `Dashboard.Kpis` | components/Dashboard.tsx:197-206 | at most four KPI cards |
| `Dashboard.KpisSpec` | components/Dashboard.tsx:197-205 | the cards cover the first four number columns in order, each totalling its column, with the dollar icon exactly above 100000 |
| `Dashboard.ColumnTotalAppend` | components/Dashboard.tsx:199 | a column's total adds up over appended records |
| `Dashboard.KpiIsPivotGrandTotal` | components/Dashboard.tsx:199 | a KPI total equals the grand total of a `sum` pivot table on the same column |
| `Dashboard.DashboardScreen.constructor` | components/Dashboard.tsx:152-153 | no widgets, not loading |
| `Dashboard.DashboardScreen.GenerateDashboard` | components/Dashboard.tsx:169-194 | the widgets are the suggestion, or the fallback when the suggestion is empty |
| `Dashboard.DashboardScreen.DataChanged` | components/Dashboard.tsx:156-160 | widgets are generated only with records and no widgets yet; otherwise nothing changes |
| `Dashboard.DashboardScreen.Synced` | components/Dashboard.tsx:163-167 | the parent receives the widgets exactly when there is a listener and the list is not empty |
| `Visualizer.AxisOptions` | components/Visualizer.tsx:206-219 | x offers exactly the non-number columns, y exactly the number columns; every column is offered on exactly one axis |
| `Visualizer.ShownGroupsKeepFirstRaw` | components/Visualizer.tsx:69-99 | each shown group's `rawKey` is the x value of its first record |
| `Visualizer.VisualizerScreen.constructor` | components/Visualizer.tsx:23-26 | bar chart, no keys, not added |
| `Visualizer.VisualizerScreen.InitSelections` | components/Visualizer.tsx:32-43 | with records and columns, an unset x key becomes the first string or date column and an unset y key the first number column; set keys stay |
| `Visualizer.VisualizerScreen.AddToReport` | components/Visualizer.tsx:104-114 | nothing unless both keys are set; otherwise the current chart titled `<y> by <x>` |
| `Visualizer.SelectThenAdd` | components/Visualizer.tsx:32-111 | after the selection effect, the chart added is the bar of the first number column by the first category column |
| `Spreadsheet.TotalPages` | components/Spreadsheet.tsx:21 | `ceil(n / 50)`: enough pages for every record, no page beyond, zero exactly for no records |
| `Spreadsheet.PageRows` | components/Spreadsheet.tsx:22-25 | a page never shows more than 50 records |
| `Spreadsheet.PagesUpToPrefix` | components/Spreadsheet.tsx:21-25 | the first `k` pages show the first `50 k` records, in order |
| `Spreadsheet.PagesPartitionData` | components/Spreadsheet.tsx:21-25 | all pages read in order are the data: no record missed or repeated |
| `Spreadsheet.RowOnPage` | components/Spreadsheet.tsx:22-25 | record `i` is on page `i / 50 + 1` at position `i % 50` |
| `Spreadsheet.FullPages` | components/Spreadsheet.tsx:21-25 | every page before the last holds 50 records |
| `Spreadsheet.BlankRowSpec` | components/Spreadsheet.tsx:36-39 | the new row has exactly the column keys, each holding 0 for a number column and `''` otherwise (the last column with a key wins) |
| `Spreadsheet.SpreadsheetScreen.constructor` | components/Spreadsheet.tsx:16 | the editor starts on page 1 |
| `Spreadsheet.SpreadsheetScreen.CellChange` | components/Spreadsheet.tsx:27-33 | only key `k` of the record at absolute index `(page - 1) * 50 + i` changes; length and every other record stay |
| `Spreadsheet.SpreadsheetScreen.AddRow` | components/Spreadsheet.tsx:35-44 | one blank row with the fresh id is appended and the page becomes `ceil((n + 1) / 50)` |
| `Spreadsheet.SpreadsheetScreen.RemoveRow` | components/Spreadsheet.tsx:46-51 | exactly the record at the absolute index is removed, the others keep their order; past the end nothing changes |
| `Spreadsheet.SpreadsheetScreen.GoToPage` | components/Spreadsheet.tsx:60-64 | the page changes only to a page between 1 and the page count |
| `Spreadsheet.SpreadsheetScreen.Upload` | components/Spreadsheet.tsx:53-58 | a new upload returns to page 1 |
| `Spreadsheet.AddedRowIsShown` | components/Spreadsheet.tsx:35-44 | the added row is the last row of the page the editor moves to |
| `Spreadsheet.LastRowOnLastPage` | components/Spreadsheet.tsx:21-25 | the last record is the last one shown on the last page |
| `Markdown.SplitLinesJoin` | components/ReportEditor.tsx:236 | joining the lines of `split('\n')` with newlines gives the text back |
| `Markdown.SplitLinesNoNewline` | components/ReportEditor.tsx:236 | no line holds a newline |
| `Markdown.SplitLinesCount` | components/ReportEditor.tsx:236 | there is one line more than there are newlines |
| `Markdown.ClassifySpacer` | components/ReportEditor.tsx:241 | a line is a spacer exactly when it is all white space |
| `Markdown.ClassifyRoundTrip` | components/ReportEditor.tsx:237-243 | any line but a spacer is its markup followed by its text |
| `Markdown.HeadingLevels` | components/ReportEditor.tsx:237-239 | `# `, `## `, `### ` make headings of levels 1, 2, 3 |
| `Markdown.ListItems` | components/ReportEditor.tsx:240 | `- ` or `* ` makes a list item |
| `Markdown.Closing` | components/ReportEditor.tsx:227 | the lazy `.*?\*\*` stops at the first `**`, crossing no line terminator |
| `Markdown.NextSpan` | components/ReportEditor.tsx:227 | a match of `\*\*.*?\*\*` is at least four characters and starts and ends with `**` |
| `Markdown.SplitSpans` | components/ReportEditor.tsx:227 | a split with one capture group yields an odd number of parts |
| `Markdown.SplitSpansConcat` | components/ReportEditor.tsx:227 | the parts read in order are the line |
| `Markdown.SplitSpansSpans` | components/ReportEditor.tsx:227 | every second part is a `**…**` span |
| `Markdown.SpanShape` | components/ReportEditor.tsx:229-230 | a span is `**`, its shown text, `**` |
| `Markdown.InlineRoundTrip` | components/ReportEditor.tsx:226-233 | the inline pieces written back, bold ones between `**`, give the line |
| `Markdown.AsWrittenAgreesOnSpans` | components/ReportEditor.tsx:229-232 | on spans, the code as written and the corrected parser agree |
| `Markdown.StarRunLost` | components/ReportEditor.tsx:229-230 | as written, the line `***` shows as an empty bold piece and its stars are lost; the corrected parser keeps it |
| `Markdown.BulletStarRunLost` | components/ReportEditor.tsx:229-243 | as written, the list item `- ***` renders as an empty bold piece and writes back as `- ****`; the corrected renderer keeps its text |
| `Markdown.RenderMarkdown` | components/ReportEditor.tsx:236-244 | one block per line: one more than there are newlines |
| `Markdown.RenderLineRoundTrip` | components/ReportEditor.tsx:237-243 | with the corrected inline parser, a rendered heading, list item or paragraph, written back, is its line |
| `ReportEditor.RenderChart` | components/ReportEditor.tsx:31-152 | a pivot chart with a configuration is drawn as the full matrix over the sorted labels; another chart with both keys as every group in order of first appearance; anything else as nothing |
| `ReportEditor.ReportChartUncut` | components/ReportEditor.tsx:100-112 | a report chart draws the groups the dashboard then sorts and cuts, and keeps the y column's whole total |
| `ReportEditor.RenderReport` | components/ReportEditor.tsx:495-509 | the preview renders the text line by line, then draws every chart in order |
| `ReportEditor.InsertedChart` | components/ReportEditor.tsx:206-220 | a pivot entry becomes a pivot chart titled `Pivot Analysis: R vs C`; a widget's title, type and keys are copied; a widget of type `pivot` yields nothing |
| `ReportEditor.InsertedPivotShowsMatrix` | components/ReportEditor.tsx:207-212 | an inserted pivot entry is drawn as the matrix of its configuration |
| `ReportEditor.InsertedWidgetShowsGroups` | components/ReportEditor.tsx:213-219 | an inserted widget is drawn as every group of its x key under its own title and type |
| `ReportEditor.SettledTemplates` | components/ReportEditor.tsx:186-202 | the answer's templates; both defaults when it has none; the first default on failure; never empty |
| `ReportEditor.IconOf` | components/ReportEditor.tsx:247-254 | `trend`, `finance`, `audit` map to their icons, anything else to the document icon |
| `ReportEditor.ScreenOf` | components/ReportEditor.tsx:260-379 | no text and no data: empty state; else analysis stage: the review once there is an analysis, else the invitation; else drafting |
| `ReportEditor.ReportEditorScreen.constructor` | components/ReportEditor.tsx:172-176 | no instructions, no templates, not loading, dialog closed |
| `ReportEditor.ReportEditorScreen.LoadTemplates` | components/ReportEditor.tsx:178-204 | templates load only during analysis with records, no templates and no load under way, and settle on the answer's outcome |
| `ReportEditor.ReportEditorScreen.TemplateClick` | components/ReportEditor.tsx:256-258 | the template's instruction becomes the instructions |
| `ReportEditor.ReportEditorScreen.OpenInsertDialog` | components/ReportEditor.tsx:443 | the insert dialog opens |
| `ReportEditor.ReportEditorScreen.HandleInsert` | components/ReportEditor.tsx:206-222 | the entry's chart is appended to the report and the dialog closes; for the failing entry nothing changes |
| `ReportEditor.TemplatesLoadOnce` | components/ReportEditor.tsx:178-204 | a second run of the effect keeps the first answer's templates |
| `ReportEditor.InsertThenRender` | components/ReportEditor.tsx:206-222 | inserting a widget and drawing the report's last chart draws every group of the widget's x key |

## Left out

- Reading workbooks, decoding zip entries and writing the output workbook are done by foreign
  libraries. Rows, archive entries and the sheet (columns, rows, images, anchors) are abstract
  values. Header styling, cell alignment and base64 conversion are not modelled.
- Downloads, object-URL creation and revocation, `alert` and `console` are browser I/O. An
  object URL is a numbered value holding its blob; a revoked URL is one whose number is in
  `revoked`.
- The AI calls are parameters:
  - the header decision of `parseExcelFile` is an input;
  - the dashboard suggestions are an input, where an empty list also stands for a failed request;
  - the report templates are an input result.
- The remaining AI-driven handlers are not modelled. These are `handleAutoConfig`,
  `handleAutoVisualize`, the visualizer's `handleGenerateDashboard`, the spreadsheet's generate
  prompt, and the report editor's analyze/generate/improve/export/reset callbacks. So are the
  column list the template effect builds only to pass to the AI.
- `Promise.all` over the archive entries is modelled as sequential processing in archive order.
- Asynchronous state updates are modelled as applied at once.
  - `ReportEditor.ReportEditorScreen.LoadTemplates` settles within one call. The loading state
    between request and answer is not observable.
  - The 2-second reset of the visualizer's "added" flag is not modelled.
- Numbers are integers, so floating-point effects are not modelled:
  - `parseFloat` and `Number` read the integer part;
  - exponents, hex and `Infinity` are not read;
  - an average is an exact rational quotient.
  - `ExcelParser.CoerceText`: the fractional part of a coerced cell is dropped, because numbers are integers here.
- `toLocaleString` formatting is not modelled. The CSV export takes the number-to-text
  rendering as a parameter, and the KPI card keeps the integer total.
- `toLowerCase` is modelled on ASCII letters only. The default string sort compares characters
  as Dafny does, which agrees with UTF-16 code-unit order inside the Basic Multilingual Plane only.
- `Charts.ChartData`, `Charts.FewGroupsAllShown`, `Charts.ManyGroupsTruncated`: these state the
  descending-value order, which the chart has only when no group name is taken for a date. The
  date-sort branch (components/Dashboard.tsx:41-42, components/Visualizer.tsx:84-86) depends on
  `Date.parse` and is not modelled.
- `Math.min`/`Math.max` over more arguments than the engine accepts are not modelled.
- Random and fresh ids are parameters. The id that the parent screen gives a report chart is
  omitted from `ReportChart`.
- `Spreadsheet.SpreadsheetScreen.CellChange` requires a row index shown on the current page,
  because the table only offers those rows. An index past the data, which would create a sparse
  entry in JavaScript, is not modelled.
- Rendering is not modelled: JSX layout, themes, density, stripes, Recharts, the edit/preview
  tab toggle, the widget captions `w.title || Chart n` of the insert dialog, and the
  bar/line/pie choice inside a drawn chart. The drawn view keeps the chart's type.
- Any other exception than the ones listed is not modelled. A widget of type `pivot` fails
  reading its missing configuration, and the model leaves everything unchanged then, which is
  what the throw leaves.
- The `{}` dictionaries of the matcher and the pivots also hold inherited keys. The model's
  dictionaries are maps without them, so these failures of the code as written are not modelled:
- `Emitter.GenerateImageMappedExcel`: a match value such as `constructor` reads the inherited
  `Object` from the exact dictionary, and converting it to base64 fails the download.
- `ImageMapperScreen.ImageMapper.PreviewEffect`: a match value such as `Constructor` normalizes
  to `constructor`, so `findMatch` returns the inherited `Object` of the normalized dictionary,
  and creating its URL throws.
- `ImageMapperScreen.CollectPreviewUrls`, `ImageMapperScreen.ImageMapper.PreviewCell`: the URL
  cache is a `{}` too, so it also holds inherited keys. A row whose value is `constructor` or
  `toString` reads as already cached: it never gets a preview URL, even when the archive holds
  `constructor.png`, and its cell draws a broken image from the inherited function. The model
  creates a URL for such a value and shows no image until it has one.
- `Pivot.PivotMatrix`: a column label such as `toString` finds an inherited function in a row's
  bucket object, so the push throws; a row label `__proto__` writes its buckets into the
  shared object prototype. `Pivot.BuildMatrix` shares this grouping.
- `Emitter.RowImage`, `Emitter.LookUpImage`: model the export's lookup with the blank test the
  scorer and the preview have. The code as written is `Emitter.RowImageAsWritten`, and it
  differs only on a blank value when an image's normalized name is empty.
- `Emitter.GenerateImageMappedExcel`: builds the layout with blank values skipped. The sheet as
  written is `Emitter.LayoutAsWritten`; `Emitter.LayoutAsWrittenAgrees` shows the two equal
  unless an image's normalized name is empty.
- `ImageMapperScreen.ImageMapper.Download`: downloads that corrected layout too.
- `Emitter.LayoutAnchorCount`: the count equals the scorer's only for the layout with blank
  values skipped; as written it also holds when no image's normalized name is empty.
- `Emitter.PreviewAgreesWithExport`: holds for the export with blank values skipped; as
  written it holds except on a blank value the unguarded lookup resolves
  (`Emitter.PreviewAgreesWithExportAsWritten`).
- `Markdown.RenderLineRoundTrip`: holds for the renderer with the corrected inline parser. As
  written (`Markdown.RenderLineAsWritten`) it fails on a line such as `- ***`.
- `Markdown.RenderMarkdown`, `ReportEditor.RenderReport`: render with the
  corrected inline parser.
- `ImageMapperScreen.ImageMapper.PreviewEffect`: the clean-up is run only at unmount
  (`ImageMapperScreen.ImageMapper.Unmount`). As written it also revokes the previous cache on
  every change (`ImageMapperScreen.RevokeOnChange`), which the class does not do.
- `Emitter.LayoutRows`: the rows hold the values handed to `addRow`; the sheet keeps only those
  under its column keys (`Emitter.Written`, `Emitter.LayoutWrittenCells`), so the generated `id`
  and keys missing from the first record are not written.
- `ImageIndex.IndexTier`: an image named `__proto__.png` normalizes to `__proto__`, and storing
  it replaces the normalized dictionary's prototype with the blob instead of adding a key; values
  such as `Size` or `Type` then resolve through the blob's own properties. The model files it
  under the key `__proto__`.

## Findings

| source | as written | input that shows it | evidently intended | confidence | as-written member | corrected member |
|---|---|---|---|---|---|---|
| services/fileService.ts:158 | the dictionaries are `{}` objects, so reading a key such as `constructor` yields an inherited, truthy value | a column holding `constructor`, against an empty archive, scores 1 | only images of the archive match a row | not executed | `Matching.InheritedKeyCounts` | `Matching.ResolveSound` |
| services/fileService.ts:208-216 | the export's lookup has no test for a blank value, unlike the scorer (line 152) and the preview (components/ImageMapper.tsx:44) | an archive holding ` .png`, whose normalized key is empty: every row with a blank match value gets that image | blank values match nothing, as in the lookup the export says it duplicates | not executed | `Emitter.BlankRowSheetDiffers` | `Emitter.GenerateImageMappedExcel` |
| components/ReportEditor.tsx:229-230 | any part that starts and ends with `**` is shown bold with two characters cut off each side, including a part that is no span | the line `***` is shown as an empty bold piece and its stars vanish | only the `**…**` spans found by the split are bold | not executed | `Markdown.StarRunLost` | `Markdown.InlineRoundTrip` |
| components/ImageMapper.tsx:35-40 | the clean-up effect depends on the URL cache, so each time the preview merges new URLs it revokes every URL of the previous cache, though those stay in the cache and on screen | a first preview run caches a URL for `A100`; a later run that adds a URL for `B200` revokes the `A100` URL, and its preview image breaks | URLs are revoked only at unmount, as the comment above the effect says | not executed | `ImageMapperScreen.MergeRevokesCachedUrls` | `ImageMapperScreen.ImageMapper.PreviewEffect` |
