# Tunisia map: location merge and budget filters

This project models two parts of the Tunisia map project in Dafny.

**The merge script** (`merge.js`) builds `all_locations.json` from several open-data
files. It works through a fixed list of sources: schools read by field name, and
lycées, post offices, ministries and youth centres read by a scan. For each source it:

- resolves the file name, trying a few spelling variants when the configured name is missing;
- unwraps the parsed JSON into a list of items (an array, `{data: […]}`,
  `{results: […]}` or the object's values);
- reads a latitude, a longitude and a name from every item. Schools use the fields
  `Latitude initiale`, `Longitude initiale` and `nom_etablissement` (or `_ar`), with a
  decimal comma turned into a point. The scanned sources look at every value: a
  number in (30, 38) is a latitude, a number in (7, 13) is a longitude, and the
  longest non-numeric text is the name;
- appends `{nom, categorie, lat, lng}` when all three are truthy, with line breaks in
  the name replaced and the name trimmed.

An exception while a source is read (unparsable file, `null` item, a name that is not
a string) ends that source. What it already appended stays.

**The front-end root component** (`App` in `TunisiaMapProject/src/app/app.ts`) is a
class holding the page's filter state:

- choosing a category sets the budget flag and loads either the merged locations of
  that category or the Budget 2021 records;
- the governorate and municipality dropdowns are the distinct truthy values of two
  properties of the budget records, sorted;
- the budget records shown are those matching both selections. An empty selection
  matches everything;
- a record's detail popup lists its properties other than `lat` and `lng`.

Modules:

- `Options`: the option type.
- `JsString`: `trim`, `replace` with a string pattern, and the line-break replacement.
- `JsNumber`: `parseFloat` over exact reals, and number truthiness.
- `Json`: parsed values, truthiness, `String(v)`, property access and `Object.values`.
- `Seqs`: `filter`, subsequences, and concatenation of mapped lists.
- `Merge`: the merge script. Its per-item loops are methods proved against the
  functions `ItemOutcome`, `Collect`, `SourceOutput` and `MergeAll`.
- `App`: the component, as a class whose methods update its fields.
- `MergeExamples`: worked records of both strategies.

## Model

| member | source | states |
|---|---|---|
| Merge.FirstExisting | merge.js:23-37 | no candidate is found exactly when none of the names exists; a found name is one of the candidates and exists |
| Merge.Alternatives | merge.js:25-30 | four fallback names: the name with its first `é` made `e` (the name itself when it has none), the name with its first `s.json` made `.json` (the name itself when it has none, one character shorter otherwise), then `lycees.json` and `ministeres.json` for every source |
| Merge.Candidates | merge.js:23-30 | the configured name is tried first, then its four alternatives in order |
| Merge.FirstExistingAt | merge.js:31-36 | the name found is the first existing candidate, in the order tried (the loop breaks at the first hit) |
| Merge.ResolvePath | merge.js:23-37 | the path chosen is the configured name if it exists, else the first existing alternative among the `é`→`e` variant, the `s.json`→`.json` variant, `lycees.json` and `ministeres.json`; none when nothing exists |
| MergeExamples.FallbackToLycees | merge.js:25-30 | when a source's name and its two derived variants are missing, any source falls back to `lycees.json` if that exists |
| MergeExamples.ConfiguredNames | merge.js:11-12 | in the configured source list `Merge.Sources`, the third source is `postes.json` and the fourth `ministere.json` |
| MergeExamples.PluralSuffixAt | merge.js:27 | in a plural name whose singular has no `.`, `s.json` is first found where the singular ends |
| MergeExamples.PostesVariants | merge.js:25-30 | for `postes.json`, the `é` variant is the name itself and the plural variant is `poste.json` |
| MergeExamples.PostesFallsBackToSingular | merge.js:11-37 | under the configured sources (the third is `postes.json`), a missing `postes.json` is read from `poste.json` when that exists |
| MergeExamples.NoPluralSuffix | merge.js:27 | `ministere.json` has no `s.json` in it |
| MergeExamples.MinistereVariants | merge.js:25-30 | for `ministere.json`, both variants are the name itself |
| MergeExamples.MinistryFallsBackToLycees | merge.js:12-37 | under the configured sources, a missing `ministere.json` is read from `lycees.json` when that exists, even if `ministeres.json` exists too |
| Merge.AsArray | merge.js:49 | only an array can be iterated with `forEach`, and its items are its elements in order |
| Merge.Unwrap | merge.js:45 | an array is its own item list; `null` throws; for an object, a truthy `data` is taken first, else a truthy `results`, and the one taken must be an array or the source throws; with neither truthy, the items are the object's values; any other value gives its `Object.values` |
| Merge.UnwrapWrapped | merge.js:45 | whatever other properties an object has, a list under `data` comes out; a list under `results` comes out when `data` is missing or falsy; a truthy `data` that is not a list throws even when `results` holds one |
| Json.Or | merge.js:45 | `a \|\| b` is truthy exactly when `a` or `b` is; it is `a` when `a` is truthy, and `b` whenever `a` is missing or falsy |
| Json.Field | merge.js:57-58 | a missing property reads as undefined; a present one reads as its own value |
| Json.Get | merge.js:57-58 | reading a property of a value that is not `null`: anything but an object gives undefined for the keys read here |
| Json.Truthy | merge.js:106 | arrays and objects, even empty, are truthy; a truthy value of any other kind prints as non-empty text |
| Json.ToText | merge.js:57-58 | `String(v)` of a string is the string itself; `null`, a boolean and an object print as non-empty text, so `String(false)` is a truthy text |
| Json.ObjectValues | merge.js:69 | `Object.values` throws exactly on `null`; an object gives its property values in order; a string gives one one-character string per character; an array gives its elements; a number or a boolean gives no values |
| JsString.ReplaceFirst | merge.js:57-58 | `replace` with a string pattern changes only the first occurrence, and changes nothing when there is none |
| JsString.ReplaceFirstComma | merge.js:79 | only the first `,` becomes `.`; every later comma stays |
| JsString.ReplaceFirstAbsent | merge.js:26-27 | a pattern that occurs nowhere leaves the text unchanged |
| JsString.ReplaceFirstCharAbsent | merge.js:26 | replacing a character the text does not contain leaves the text unchanged |
| JsString.Trim | merge.js:75 | the result has no whitespace at either end and sits inside the input where the leading whitespace ends; everything dropped before and after it is whitespace; it is empty exactly when the input is all whitespace |
| JsString.TrimIdempotent | merge.js:75 | trimming twice is trimming once |
| JsString.ReplaceLineBreaks | merge.js:108 | no CR or LF remains; the result is no longer than the input and is empty exactly when the input is; characters at the ends that are not line breaks are kept; ReplaceLineBreaksBreak fixes the result break by break for any number of breaks |
| JsString.ReplaceLineBreaksNone | merge.js:108 | a name without line breaks is unchanged |
| JsString.ReplaceLineBreaksJoin | merge.js:108 | one CRLF, LF or CR between two pieces without line breaks becomes exactly one space, so a CRLF counts as one break and nothing else changes |
| JsString.ReplaceLineBreaksBreak | merge.js:108 | every break is replaced: the text before the first CRLF, LF or CR is kept, that break becomes one space, and the rest is replaced in its turn; a CR followed by LF is one break |
| JsString.SeparatorThenRest | merge.js:108 | a leading CRLF, LF or CR becomes one space in front of the replacement of the rest |
| JsString.ReplaceLineBreaksTwo | merge.js:108 | two breaks between three pieces without line breaks become two spaces |
| JsString.ReplaceLineBreaksSeparator | merge.js:108 | a CRLF, LF or CR in front of a piece without line breaks becomes one space |
| JsString.ReplaceLineBreaksPrefix | merge.js:108 | a leading piece without line breaks is kept as it is in front of the rest's replacement |
| JsNumber.ParseFloat | merge.js:61-62 | `parseFloat` is NaN exactly when the text after leading whitespace and an optional sign starts with neither a digit, `.` plus a digit, nor `Infinity`; it is infinite exactly when it starts with `Infinity` |
| JsNumber.NumericPrefix | merge.js:80-83 | a text that starts with a digit is a number, whatever follows (`"36 rue X"` counts as numeric) |
| JsNumber.NotANumber | merge.js:80-83 | a text that starts with a character other than whitespace, a sign, a digit, `.` or `I` is not a number |
| JsNumber.CommaDecimal | merge.js:57-62 | digits, a comma and digits parse, after the comma correction, as the decimal number they denote |
| JsNumber.CommaSameAsDot | merge.js:79-80 | `"34,5"` and `"34.5"` give the same number |
| JsNumber.IntegerNoComma | merge.js:57-62 | a digit string is left alone by the comma correction and parses as the integer it denotes |
| Merge.CleanName | merge.js:108 | the stored name has no line breaks and no whitespace at either end; CleanNameBreak fixes it for a name with any number of breaks |
| Merge.CleanNameNonEmpty | merge.js:108 | a non-empty name without whitespace at its ends stays non-empty once cleaned |
| Merge.CleanNameJoin | merge.js:108 | a name broken over two lines by a CRLF, LF or CR, each line already trimmed, is stored as the two lines joined by one space |
| Merge.CleanNameBreak | merge.js:108 | wherever a CRLF, LF or CR stands in a name, cleaning turns it into one space and goes on replacing the breaks after it, then trims |
| Merge.CleanNameThreeLines | merge.js:108 | a name over three trimmed lines, separated by any two of CRLF, LF and CR, is stored as the lines joined by single spaces |
| MergeExamples.ThreeLinesJoined | merge.js:108 | `"Lycée\nPilote\r\nTunis"` is stored as `"Lycée Pilote Tunis"` |
| MergeExamples.BrokenNameJoined | merge.js:108 | `"Lycée\r\nPilote"` is stored as `"Lycée Pilote"` |
| Merge.Accept | merge.js:104-114 | an item is skipped exactly when latitude, longitude or name is falsy; an emitted record has the source's category, the coordinates unchanged and the cleaned name; a truthy non-string name throws |
| Merge.ExplicitOutcome | merge.js:55-65 | a school row is either skipped, throws, or gives a well-formed record of the source's category |
| Merge.ExplicitSkips | merge.js:57-60 | a `null` row throws; a row whose latitude or longitude is missing, falsy or prints as `""` is skipped |
| Merge.TextOrEmpty | merge.js:57-58 | `String(v \|\| '')` is empty for a missing or falsy property and is the string itself for a string property |
| Merge.RawCoordinate | merge.js:57-58 | the comma correction keeps the text's length, leaves a missing field empty and leaves a text without a comma as it is |
| Merge.ExplicitAccept | merge.js:57-64 | for a non-`null` row, the emptiness test on the coordinate texts decides nothing by itself: the row is decided by the final test on `parseFloat` of each comma-corrected text and `nom_etablissement \|\| nom_etablissement_ar` |
| Merge.AcceptNamed | merge.js:63-114 | with truthy coordinates, a non-empty string in the first name field is stored; when the first is falsy a non-empty string in the second is; a truthy non-string first field throws; falsy coordinates or two falsy names skip |
| Merge.ExplicitRow | merge.js:55-65 | for every non-`null` school row with truthy parsed coordinates: a non-empty `nom_etablissement` gives the stored name; when it is missing or falsy, a non-empty `nom_etablissement_ar` does; a truthy non-string `nom_etablissement` throws; falsy coordinates or two falsy name fields skip the row |
| MergeExamples.ArabicNameUsed | merge.js:63 | a row with only `nom_etablissement_ar` is emitted under that name |
| MergeExamples.OutOfRangeSchoolEmitted | merge.js:61-62 | a school row at `"500"`, `"10"` is emitted at 500 and 10: field-name reading puts no bound on the coordinates |
| MergeExamples.AcceptEmits | merge.js:106-113 | truthy coordinates and a non-empty name are emitted as `{CleanName(nom), category, lat, lng}` |
| MergeExamples.CommaRowEmitted | merge.js:55-64 | a school row with comma-decimal coordinates is emitted at the decimal values |
| MergeExamples.SchoolRowEmitted | merge.js:55-64 | the school at `"36,8"`, `"10,2"` is emitted at 36.8, 10.2 under its own name |
| MergeExamples.BlankNameEmitted | merge.js:60-63 | a name made only of whitespace passes the final test and is stored as the empty string |
| Merge.Read | merge.js:72-99 | what one scanned value contributes: a coordinate within its axis's band, or a trimmed candidate name |
| Merge.ScanNumber | merge.js:75-80 | `null`, booleans and objects never read as numbers in the scan, since `String` prints them as words |
| Merge.WordNotANumber | merge.js:75-80 | `"null"`, `"true"`, `"false"` and `"[object Object]"` do not parse as numbers after trimming and the comma correction |
| Merge.PlainWordNotANumber | merge.js:75-80 | a trimmed, comma-free text whose first character cannot start a number is NaN after the scan's corrections |
| Merge.ReadRules | merge.js:73-99 | in both directions: a truthy value whose number lies in (30, 38) is a latitude; one in (7, 13) and not in (30, 38) is a longitude; a truthy non-number is a name whose text is the trimmed `String(v)`; a falsy value is ignored |
| Merge.Readings | merge.js:69-72 | one reading per value, in order, and every coordinate reading lies in its band |
| MergeExamples.ReadInteger | merge.js:75-80 | a digit string without a comma reads as its integer value |
| MergeExamples.ReadComma | merge.js:75-80 | a comma decimal reads as its decimal value |
| MergeExamples.ReadIgnored | merge.js:83-92 | a number outside both bands is neither a coordinate nor a name |
| MergeExamples.ReadCoordinate | merge.js:83-91 | a comma decimal inside a band is a coordinate on that band's axis |
| MergeExamples.ReadName | merge.js:96-98 | a trimmed text without a comma that starts with a letter other than `I` is a candidate name |
| Merge.LastCoordinate | merge.js:85-91 | no coordinate is found exactly when no value lies in the axis's band; a found one was read on that axis |
| Merge.LastCoordinateAt | merge.js:86-90 | the last value read on an axis wins |
| Merge.BestName | merge.js:96-99 | no candidate name is longer than the chosen one; a non-empty chosen name is one of the candidates |
| Merge.BestNameFirst | merge.js:96-98 | the chosen name occurs at a position before which every candidate is strictly shorter: the first of several equally long names wins |
| Merge.BestNameUnique | merge.js:96-98 | a strictly longest candidate is the name chosen |
| Merge.AsNumber | merge.js:51-52 | a coordinate left at `null` is falsy (NaN, never an infinity); a found one is that finite number |
| Merge.ScanAccept | merge.js:101-114 | the scan never throws at the final test, and what it emits is a well-formed record of the source's category |
| Merge.ScanAcceptEmits | merge.js:83-101 | an emitted scanned record has its latitude in (30, 38), its longitude in (7, 13) and a non-empty name |
| Merge.ScanOutcome | merge.js:68-114 | a scanned item throws exactly when it is `null`; otherwise it is skipped or gives a well-formed record of the source's category |
| Merge.ScanEmits | merge.js:68-114 | an emitted scanned record lies inside both bands and has a non-empty name |
| MergeExamples.IndexedRowValues | merge.js:69 | the values of an indexed row are its four cells in key order |
| MergeExamples.IndexedRowReadings | merge.js:72-99 | in an indexed row, the identifier is ignored, the name is a name and the comma decimals are the two coordinates |
| MergeExamples.ScanKeepsAll | merge.js:72-101 | an identifier, a name, a latitude and a longitude give the record with that name and those coordinates |
| MergeExamples.IndexedRowEmitted | merge.js:68-114 | an indexed row with in-band comma decimals is emitted under its name at those coordinates |
| Merge.ScanStep | merge.js:73-99 | one iteration of the scan loop updates the last latitude, the last longitude and the best name as the specification of the whole loop requires |
| Merge.ScanValues | merge.js:70-101 | the scan loop ends with the last in-band latitude, the last in-band longitude and the longest non-numeric text |
| Merge.ItemOutcome | merge.js:49-114 | an item is skipped, throws, or gives a well-formed record of the source's category |
| Merge.ClassifyItem | merge.js:50-114 | the item's strategy branch computes its specified outcome |
| Merge.Outcomes | merge.js:49 | one outcome per item |
| Merge.OutcomesAt | merge.js:49 | the i-th outcome is the outcome of the i-th item |
| Merge.OutcomesOk | merge.js:49-114 | every item's outcome is a skip, a throw, or a well-formed record of the category |
| Merge.Collect | merge.js:49-115 | the appended records are at most one per item; when nothing threw, no item failed |
| Merge.CollectOk | merge.js:107-112 | everything appended for a source is well-formed and carries the source's category |
| Merge.CollectStops | merge.js:40-121 | once an item has thrown, the later items change nothing |
| Merge.ItemsOutput | merge.js:45-115 | the records a source's items add are well-formed, of its category, and at most one per item |
| Merge.SourceOutput | merge.js:21-124 | a source is reported not found exactly when none of its candidate names exists, and then adds nothing; a found file that does not parse, or whose items cannot be unwrapped, adds nothing and reports a read error; otherwise the source adds exactly the records of its items' `forEach`, and reports an error exactly when an item threw; a source read to the end reports exactly the number of records it added; every record is well-formed and of its category |
| Merge.MergeAllAppend | merge.js:21-125 | the output for a list of sources is the outputs of its parts, concatenated in order |
| Merge.MergeAll | merge.js:17-125 | the output list of a run over the configured sources; no sources add nothing |
| Merge.MergeAllSingle | merge.js:21-125 | a run over one source outputs exactly that source's records |
| Merge.MergeAllPrefix | merge.js:21-125 | one more source appends its records after those of all earlier sources |
| Merge.MergeAllWellFormed | merge.js:17-125 | every merged record is well-formed and has the category of one of the sources |
| Merge.UnreadableAddsNothing | merge.js:40-121 | a source whose file exists but does not parse contributes no record |
| Merge.MergeAllSkipsUnreadable | merge.js:21-125 | a source whose file does not parse is skipped: the sources before and after it contribute exactly what they would without it |
| Merge.ApplyOutcome | merge.js:106-114 | applying one outcome keeps the earlier records and advances the specified collection by one item |
| Merge.AppendItems | merge.js:49-115 | the `forEach` over the items appends exactly the collected records to the running list, and reports whether an item threw |
| Merge.ProcessSource | merge.js:23-124 | one source appends exactly its specified records and produces its specified report |
| Merge.MergeSources | merge.js:17-125 | the merged list is the specified concatenation over the sources, with one report per source |
| App.DropdownTexts | TunisiaMapProject/src/app/app.ts:99 | the texts collected are exactly those of the records' truthy values of the property |
| App.StrLessTransitive | TunisiaMapProject/src/app/app.ts:100 | the order used by `sort()` is transitive |
| App.StrLessTotal | TunisiaMapProject/src/app/app.ts:100 | any two distinct strings are ordered one way or the other |
| App.StrLess | TunisiaMapProject/src/app/app.ts:100 | the comparison of `sort()` never orders a string before itself: a string less than another differs from it |
| App.StrictlySortedDistinct | TunisiaMapProject/src/app/app.ts:100 | a strictly sorted list has no duplicates |
| App.InsertSorted | TunisiaMapProject/src/app/app.ts:100 | inserting into a strictly sorted list keeps it strictly sorted and adds exactly the new value |
| App.SortedSet | TunisiaMapProject/src/app/app.ts:100 | `[...new Set(values)].sort()` is strictly sorted and has exactly the values' members |
| App.SortedSetUnique | TunisiaMapProject/src/app/app.ts:100 | two strictly sorted lists with the same members are equal, so the result does not depend on the input order |
| App.DropdownList | TunisiaMapProject/src/app/app.ts:99-104 | a dropdown list is strictly sorted and holds exactly the distinct truthy values of the property |
| App.DropdownListUnique | TunisiaMapProject/src/app/app.ts:99-104 | any strictly sorted list with those members is the dropdown list |
| App.BudgetFilterKeeps | TunisiaMapProject/src/app/app.ts:110-114 | the filtered records are a subsequence of all records; a record is kept exactly when it matches both non-empty selections; each kept record keeps its multiplicity |
| App.Matches | TunisiaMapProject/src/app/app.ts:111-113 | with both selections empty every record matches; a matching record has the selected governorate and municipality whenever these are selected |
| App.BudgetFilter | TunisiaMapProject/src/app/app.ts:110-114 | only records of the data that match the selections are kept; with both selections empty the data is kept whole |
| App.EmptySelectionKeepsAll | TunisiaMapProject/src/app/app.ts:111-112 | with no governorate and no municipality selected, every record is kept |
| App.CategoryFilterKeeps | TunisiaMapProject/src/app/app.ts:197-199 | `Toutes` keeps every location; any other category keeps exactly the locations of that category, with their multiplicity |
| App.CategoryFilter | TunisiaMapProject/src/app/app.ts:197-199 | every location shown comes from the list and, unless `Toutes` is chosen, has the chosen category |
| App.PopupLists | TunisiaMapProject/src/app/app.ts:230-237 | the popup lists the properties other than `lat` and `lng`, in key order, each as often as it occurs; a record without coordinates lists all its properties |
| App.PopupRow | TunisiaMapProject/src/app/app.ts:232-236 | a row holds the key, unchanged, in its first cell and `String(value)` in its second, between fixed markup |
| App.GenerateFullPopup | TunisiaMapProject/src/app/app.ts:228-243 | the popup is the fixed header, one row per listed property, then the fixed footer |
| App.App.constructor | TunisiaMapProject/src/app/app.ts:21-38 | the component starts with the budget flag off, no layer, no records, empty dropdowns and empty selections |
| App.App.ExtractFilterOptions | TunisiaMapProject/src/app/app.ts:97-105 | both dropdown lists are rebuilt from all budget records; nothing else changes |
| App.App.RenderBudgetLayer | TunisiaMapProject/src/app/app.ts:131-191 | the given records become the shown layer; nothing else changes |
| App.App.ApplyBudgetFilters | TunisiaMapProject/src/app/app.ts:108-121 | the filtered records are those of all records that match the selections, and they are shown; the selections, the dropdowns and the records are kept |
| App.App.ResetFilters | TunisiaMapProject/src/app/app.ts:124-128 | both selections are cleared and every budget record is filtered in and shown |
| App.App.LoadBudgetData | TunisiaMapProject/src/app/app.ts:80-94 | on a response, the records are stored, both dropdowns are rebuilt, and the records matching the current selections are shown; on an error nothing changes |
| App.App.LoadStandardData | TunisiaMapProject/src/app/app.ts:194-226 | on a response, the locations of the category (all of them for `Toutes`) are shown; on an error the layer is kept; the budget state never changes |
| App.App.OnMapReady | TunisiaMapProject/src/app/app.ts:53-56 | once the map is ready, every location is shown |
| App.App.OnCategoryChange | TunisiaMapProject/src/app/app.ts:58-76 | the budget flag is on exactly when `Budget 2021` is chosen; the old layer is removed; then the budget records or the category's locations are loaded; the selections are kept; unless a budget response arrives, the budget records, the filtered records and both dropdowns are kept |

## Left out

- File I/O, directory creation, writing the output file and console messages are not
  modelled. File existence and parsed file contents are given as a `Disk` value, and
  the merged list is returned.
- `JSON.parse` is not modelled. A file whose text is not valid JSON is an existing name
  with no parsed content. `JSON.stringify` of the output is not modelled either, so an
  infinite coordinate is kept as it is rather than written out as `null`.
- JsNumber.ParseFloat: computes exact decimal values. Rounding to IEEE doubles,
  overflow to infinity and underflow to zero are not modelled.
- Strings are sequences of Unicode scalar values, not UTF-16 code units. For a name
  outside the Basic Multilingual Plane, the length comparison of the scan and the
  order of `sort()` may differ from the program's.
- App.DropdownTexts: values are compared by their text. A JavaScript `Set` keeps the
  number `5` and the string `"5"` apart, and `sort()` would then list both.
- Objects hold each key once, in enumeration order. Keys that repeat in the
  file, and inherited properties such as `toString`, are not modelled.
- App.App.RenderBudgetLayer: the layer records which budget records are shown. It does
  not model the markers, the per-record `parseFloat` of `lat`/`lng` that skips a
  record without coordinates, the cluster icon's summed forecast, or `fitBounds`.
  The same holds for the standard layer's markers and popups (app.ts:201-222).
- The HTTP service (`map-data.service.ts`) is not part of this model. Its responses are
  parameters of the handlers, and `None` stands for the error callback, which only
  logs. The asynchronous `subscribe` is modelled as a synchronous call.
- The Leaflet map object is assumed to be ready whenever a layer is shown.
- A `null` locations response for `Toutes` is not modelled; the response is a list.
- Budget records are assumed to be JSON objects.
- The component's `filtersVisible` flag, its `options` and its `categories` list are
  display configuration and are not modelled.
- The bootstrap files (`main.ts`, the Angular configuration) and the template are not
  part of this model.
- The category list of the page (app.ts:23) has no `Ministère` entry, although the
  merge script writes that category (merge.js:12). Those records are shown only
  under `Toutes`. The model keeps this behaviour and does not change it.
- Merge.ExplicitOutcome: field-name reading puts no range check on the coordinates,
  as merge.js:61-62 and 106 do not; a school at `"500"`, `"10"` is emitted
  (MergeExamples.OutOfRangeSchoolEmitted). The latitude and longitude bounds of the
  design (±90, ±180) are not enforced, and the model follows the code.
- Choosing a category keeps the governorate and municipality selections, as the code
  does. The comment at app.ts:61 speaks of a reset, but the code resets only the
  budget flag.
