# PAGASA bulletin to Wikipedia wikitext: a verified model

This project models the formatter `PagasaToWikipedia` (`formatters/PagasaToWikipedia.js`). The formatter turns a PAGASA severe weather bulletin into the wikitext of a `{{TyphoonWarningsTable}}` template and records diagnostic issues along the way. A run has three stages:

- **Area classifier** (`_landmassesToRegions`, driven by `_reorganizeSignals` for signal levels 1 to 5).
  - It concatenates the luzon, visayas and mindanao lists of a level.
  - It pushes each entry onto the bucket of the first region in the reference table that lists the entry's province.
  - An entry no region lists goes to the `"_"` bucket. It also gets a "Region for P not found." issue, unless its province ends in "Island" or "Islands".
- **Link builder** (`_getProvinceAsBullet`, `_linkMunicipalities`).
  - A province is linked directly, through its "P (province)" page, or written as plain text with a "Page not found" issue.
  - Municipality names are rewritten by the three regular expressions the source writes, over Unicode characters. A five-entry alias table keyed on the raw name then overrides the rewrite.
- **Renderer** (`_toWikitext`, `_getRegionsWikitext`, `_getRegionHeader`, `_generateTemplate`).
  - Each present level is a line break, then the unclassified block, then the region blocks in ascending region order.
  - The texts go, trimmed, into the `PH5` .. `PH1` fields of the template.

Modules:

- `Wrappers` (`wrappers.dfy`): the `Option` datatype, standing for JavaScript's `undefined` and `null`.
- `JsStrings` (`jsstrings.dfy`): the JavaScript string built-ins the code relies on. These are the `\s` class and `trim`, `/Islands?$/`, the lower-case comparison, `join`, and the `("0" + n).slice(-2)` padding.
- `Bulletin` (`bulletin.dfy`): the input records (areas, landmass lists, regions, bulletin), the `Issue` datatype, and the literal `Object.keys(extras) > 0` test.
- `Classifier` (`classifier.dfy`): the classification as functions, with the partition and first-match lemmas.
- `Normalizer` (`normalizer.dfy`): the municipality rewrites, the alias table and the municipality suffix.
- `Renderer` (`renderer.dfy`): the province link, bullet lines, region headers, the text of a level and the template. Each piece is a `Rendered` value: its text plus the issues recorded while producing it.
- `Formatter` (`formatter.dfy`):
  - the run as a function (`ConvertAsWritten`) and its corrected version (`Convert`);
  - the class `PagasaToWikipedia`, whose `provinces` and `issues` fields its methods update step by step, as the source does;
  - a proof that each method matches the functions.

The issue list `this.issues` is `None` until the first issue is pushed. It is never reset, so a run starts from the list left by earlier runs. `ConvertAsWritten` takes that list as its `prior` argument.

Two behaviours of the code differ from what its messages and names suggest, and the model follows the code:

- **Extras.** The message "Extras detected." suggests that any extras were meant to be reported. The test `Object.keys(extras) > 0` converts the key list to a string, then to a number. It holds exactly when there is one key and JavaScript reads that key as a positive number, so an array of extras is never reported (`Bulletin.ArrayExtrasNeverFlagged`). `Bulletin.ExtrasFlagged` accepts only keys made of decimal digits; see "## Left out".
- **Capitalised directions.** The directional pattern is lower-case only, so "Northern Samar" is left alone (`Normalizer.CapitalisedDirectionExample`), and only "northern Samar" becomes "Samar" (`Normalizer.LowerCaseDirectionExample`).

## Model

| member | source | states |
|---|---|---|
| `Formatter.PagasaToWikipedia.constructor` | formatters/PagasaToWikipedia.js:38-48 | The formatter holds the given region table, no province titles yet, and an undefined issue list. |
| `Formatter.Pushed` | formatters/PagasaToWikipedia.js:50-55 | The issue list is defined after a push exactly when it was defined before or something was pushed. Its contents are the old contents, or nothing, followed by the pushed issues. |
| `Formatter.PagasaToWikipedia.AddIssue` | formatters/PagasaToWikipedia.js:50-55 | `_issue` creates the list when undefined and appends the issue; the province titles are untouched. |
| `Formatter.PagasaToWikipedia.GetWarningSignalsTemplate` | formatters/PagasaToWikipedia.js:90-112 | The returned result and the new issue list are those of `ConvertAsWritten` from the old issue list. The province titles become the downloaded titles, except when the bulletin has no typhoon, in which case they are unchanged. |
| `Formatter.NoTyphoonRun` | formatters/PagasaToWikipedia.js:96-102 | A bulletin whose typhoon is null gives the "No active typhoon warning signals." template and the single notice "There is no active typhoon bulletin.", and leaves the issue list as it was. That notice's `message` text is the string itself. |
| `Formatter.ConvertAsWritten` | formatters/PagasaToWikipedia.js:90-112 | A definition with no contract of its own: `getWarningSignalsTemplate` as written, from the issue list left by earlier runs. Its properties are stated by `NoTyphoonRun`, `RunAccumulates`, `AsWrittenAgreesWhenClassificationReports`, `AsWrittenSaysFalseWithoutClassificationIssues`, `SameTemplate` and `MissingPageDropped`. |
| `Formatter.RunIssues` | formatters/PagasaToWikipedia.js:104-111 | A definition with no contract of its own: the issues of one run, classification first, then rendering. `RunIssuesExact` states which issues occur, `RunIssueCounts` how often each is recorded, and `RunMessages` their `message` texts. |
| `Formatter.Convert` | formatters/PagasaToWikipedia.js:90-112 | A definition with no contract of its own: the run as evidently intended, reporting every issue of the run. Its properties are stated by `ConvertReportsRunIssues`, `ConvertReportsEverything`, `SameTemplate` and `OneAreaFillsItsField`. |
| `Formatter.RunAccumulates` | formatters/PagasaToWikipedia.js:104-111 | A run pushes the classification issues of levels 1 to 5, then the rendering issues of levels 1 to 5, onto the list it started from. |
| `Formatter.AsWrittenAgreesWhenClassificationReports` | formatters/PagasaToWikipedia.js:108-111 | On a fresh formatter, when classification records an issue, the result as written equals the intended result, rendering issues included. |
| `Formatter.AsWrittenSaysFalseWithoutClassificationIssues` | formatters/PagasaToWikipedia.js:108-111 | On a fresh formatter, when classification records nothing, the result's `issues` is `false`, whatever rendering records. |
| `Formatter.MissingPageDropped` | formatters/PagasaToWikipedia.js:108-111 | For a bulletin whose only area, Bukidnon, has a region but no page: the as-written result says `false`, while the intended result reports the missing page. |
| `Formatter.OneAreaFillsItsField` | formatters/PagasaToWikipedia.js:104-111 | A bulletin with one signal 3 area, whose province the third region lists and whose page exists, gives a table with that region's header and the province bullet in PH3, every other signal field empty, and `false` for issues. |
| `Formatter.OnlyLevelThree` | formatters/PagasaToWikipedia.js:169-190 | When only signal 3 is present and its text records no issue, the other four levels are empty strings and the levels record nothing. |
| `Formatter.OnlyFieldThree` | formatters/PagasaToWikipedia.js:108-111 | A run that records no issue and writes text only for signal 3 returns `false` and a template in which PH3 holds that text trimmed and every other signal field is empty. |
| `Formatter.TemplateOfLevelThree` | formatters/PagasaToWikipedia.js:155-163 | With text only for signal 3, the template's PH5, PH4, PH2 and PH1 fields are empty and PH3 holds the trimmed text. |
| `Formatter.LevelFromBlocks` | formatters/PagasaToWikipedia.js:173-189 | A classified level with no unmatched entry is a line break followed by its region blocks. |
| `Formatter.QuietLevels` | formatters/PagasaToWikipedia.js:166-193 | Levels that each record no issue record none together. |
| `Formatter.SameTemplate` | formatters/PagasaToWikipedia.js:108-111 | The as-written and the corrected run write the same template. |
| `Formatter.ConvertReportsRunIssues` | formatters/PagasaToWikipedia.js:108-111 | The corrected result reports every issue of the run, in the order they were recorded. |
| `Formatter.RunIssuesExact` | formatters/PagasaToWikipedia.js:216-228 | The run's issues contain no notice. "Page not found" is recorded for P exactly when P's page is missing and P is the province of an area of levels 1 to 5. "Region not found" is recorded for an area exactly when it is an area of those levels, no region lists it, and it is not an island group. |
| `Formatter.ConvertReportsEverything` | formatters/PagasaToWikipedia.js:108-111 | The corrected result reports, in both directions, exactly the missing pages and unmatched non-island areas of the bulletin. |
| `Formatter.ClassificationReports` | formatters/PagasaToWikipedia.js:321-327 | Classifying levels 1 .. n records only extras and region issues. It records a region issue for an area exactly when the area belongs to those levels, no region lists it, and it is not an island group. It records "Extras detected." for extras `e` exactly when some level among 1 .. n has extras `e` that pass the literal test. |
| `Formatter.RenderingReports` | formatters/PagasaToWikipedia.js:166-193 | Rendering levels 1 .. n records only page issues. It records one for P exactly when P's page is missing and P is the province of an area of those levels. |
| `Formatter.LevelRenderingReports` | formatters/PagasaToWikipedia.js:169-189 | Rendering one level records exactly the missing pages among that level's areas. |
| `Formatter.ExtrasLevels` | formatters/PagasaToWikipedia.js:300-305 | A definition with no contract of its own: the number of levels among 1 .. n whose extras are `e` and pass the literal test. `ClassificationExtrasCounts` and `RunIssueCounts` use it. |
| `Formatter.LevelExtrasIssues` | formatters/PagasaToWikipedia.js:300-305 | A definition with no contract of its own: the single "Extras detected." issue of a level whose extras pass the literal test, or none. |
| `Formatter.LevelIssuesSplit` | formatters/PagasaToWikipedia.js:300-327 | A level's classification issues are its extras issue, if any, followed by the region issues of its loop over the level's areas. |
| `Formatter.ClassificationRegionCounts` | formatters/PagasaToWikipedia.js:321-327 | Classifying levels 1 .. n records "Region for P not found." for an area as many times as that area occurs in those levels when no region lists it and it is not an island group, and otherwise never. |
| `Formatter.ClassificationExtrasCounts` | formatters/PagasaToWikipedia.js:300-305 | Classifying levels 1 .. n records "Extras detected." for extras `e` once for each of those levels whose extras are `e` and pass the literal test. |
| `Formatter.RenderingCounts` | formatters/PagasaToWikipedia.js:166-193 | Rendering levels 1 .. n records "Page not found for province: P" once for each area of those levels that names P when P's page is missing, and otherwise never. |
| `Formatter.RunIssueCounts` | formatters/PagasaToWikipedia.js:104-111 | How often one run records each issue. "Extras detected." is recorded once per flagged level. A region issue is recorded once per occurrence of an unmatched, non-island area. A page issue for P is recorded once per area naming P when P's page is missing. No other multiplicity meets the contract. For example, an unmatched area listed twice gets two region issues. |
| `Formatter.RunMessages` | formatters/PagasaToWikipedia.js:99-324 | The `message` text of every issue of a run is "Extras detected.", "Region for P not found." for an unmatched non-island area of province P, or "Page not found for province: P" for an area whose province P has no page. Conversely, each flagged level, each unmatched non-island area and each area with a missing page has an issue with the corresponding message. |
| `Formatter.PagasaToWikipedia.DownloadProvinces` | formatters/PagasaToWikipedia.js:139-142 | The province titles become the category members' titles, in order; the issue list is untouched. |
| `Formatter.LevelClassified` | formatters/PagasaToWikipedia.js:283-287 | A present level's classification only uses keys that index the region table. |
| `Formatter.Reorganized` | formatters/PagasaToWikipedia.js:279-291 | The reorganized signals have exactly the five levels. |
| `Formatter.PagasaToWikipedia.SignalToRegions` | formatters/PagasaToWikipedia.js:283-287 | A level present in the bulletin is classified and pushes its classification issues. An absent level gives null and pushes nothing. |
| `Formatter.PagasaToWikipedia.ReorganizeSignals` | formatters/PagasaToWikipedia.js:279-291 | The result is the classification of levels 1 to 5 in order. The issue list grows by the classification issues of levels 1 to 5, in level order. |
| `Formatter.PagasaToWikipedia.LandmassesToRegions` | formatters/PagasaToWikipedia.js:293-336 | The buckets equal `Classify` of luzon, visayas and mindanao, concatenated. The issue list grows by the extras issue, when the literal test holds, then by the region issues of the entries in order. |
| `Formatter.PagasaToWikipedia.ClassifyEntry` | formatters/PagasaToWikipedia.js:309-333 | One loop turn places the entry as `Place` does and pushes its region issue, if it has one. |
| `Formatter.PagasaToWikipedia.PlaceInFirstRegion` | formatters/PagasaToWikipedia.js:310-319 | The region pass finds a region exactly when one lists the province, and then pushes the entry onto the first such region's bucket. Otherwise nothing changes. |
| `Formatter.PagasaToWikipedia.ToWikitext` | formatters/PagasaToWikipedia.js:166-193 | The texts are those of `LevelText` for levels 1 to 5, and the issue list grows by their issues in level order. |
| `Formatter.PagasaToWikipedia.LevelToWikitext` | formatters/PagasaToWikipedia.js:169-189 | One level's text and pushed issues are those of `LevelText`. |
| `Formatter.PagasaToWikipedia.AppendRegionBlocks` | formatters/PagasaToWikipedia.js:183-189 | Walking the region buckets in ascending key order appends exactly the region blocks' text and pushes exactly their issues; the province titles are untouched. |
| `Formatter.PagasaToWikipedia.GetRegionsWikitext` | formatters/PagasaToWikipedia.js:195-205 | A block's text and pushed issues are those of `RegionText`: the header, then one bullet line per area. |
| `Formatter.PagasaToWikipedia.GetProvinceAsBullet` | formatters/PagasaToWikipedia.js:212-257 | The line and the pushed issues are those of `BulletLine`. |
| `Classifier.FirstRegion` | formatters/PagasaToWikipedia.js:311-312 | The result is the lowest index of a region listing the province. It is None exactly when no region lists it. |
| `Classifier.Mixed` | formatters/PagasaToWikipedia.js:294-298 | The concatenation is as long as the three lists together; a null list counts as empty. |
| `Classifier.Classify` | formatters/PagasaToWikipedia.js:307-335 | Every bucket key indexes the region table. |
| `Classifier.Place` | formatters/PagasaToWikipedia.js:309-332 | A definition with no contract of its own: one loop turn, pushing the entry onto its first region's bucket or onto `"_"`. `PlaceBucket` and `PlaceAddsOne` state what it changes. |
| `Classifier.LevelIssues` | formatters/PagasaToWikipedia.js:300-327 | A definition with no contract of its own: the extras issue when the literal test holds, then the loop's region issues. `ClassifyIssuesExact` and `Formatter.ClassificationReports` state which issues occur. `ClassifyIssuesCount`, `Formatter.ClassificationRegionCounts` and `Formatter.ClassificationExtrasCounts` state how many of each. |
| `Classifier.ClassifyBucketsAreFilters` | formatters/PagasaToWikipedia.js:309-319 | Bucket k is exactly the input entries whose first matching region is k, in input order. |
| `Classifier.ClassifyBucketsPresent` | formatters/PagasaToWikipedia.js:313-316 | A region bucket exists exactly when something was pushed into it. |
| `Classifier.ClassifyUnclassified` | formatters/PagasaToWikipedia.js:321-332 | The `"_"` bucket is exactly the entries no region lists, in input order, and exists only when there are some. |
| `Classifier.ClassifyIsFilter` | formatters/PagasaToWikipedia.js:309-332 | The three statements above together: every bucket, and whether it exists, is the corresponding filter of the input. |
| `Classifier.InRegionMembers` | formatters/PagasaToWikipedia.js:310-318 | An entry is in region k's filter exactly when it is an input entry whose first matching region is k. |
| `Classifier.UnmatchedMembers` | formatters/PagasaToWikipedia.js:321-332 | An entry is in the unmatched filter exactly when it is an input entry that no region lists. |
| `Classifier.FirstMatchWins` | formatters/PagasaToWikipedia.js:310-318 | An entry in bucket k has its province listed by region k and by no earlier region, and it is in no other bucket and not in `"_"`. |
| `Classifier.PlaceBucket` | formatters/PagasaToWikipedia.js:313-316 | Placing an entry appends it to its own bucket and leaves every other bucket unchanged. |
| `Classifier.PlaceAddsOne` | formatters/PagasaToWikipedia.js:309-332 | One loop turn adds exactly the entry to the buckets, read in rendering order, as a multiset. |
| `Classifier.ClassifyKeepsEntries` | formatters/PagasaToWikipedia.js:294-332 | The buckets, read in rendering order, hold the same multiset as the concatenated landmass lists. |
| `Classifier.ClassifyPartition` | formatters/PagasaToWikipedia.js:294-332 | The classification partitions luzon, visayas and mindanao: each entry is kept as often as it occurs, and the bucket sizes sum to the input length. Extras are not part of the input, so they are in no bucket. |
| `Classifier.ClassifyIssuesExact` | formatters/PagasaToWikipedia.js:321-327 | The loop records only region issues. It records one for an entry exactly when the entry is an input entry that no region lists and whose province does not end in "Island"/"Islands". There are never more of them than unmatched entries. |
| `Classifier.ClassifyIssuesCount` | formatters/PagasaToWikipedia.js:321-327 | The loop records "Region for P not found." for an entry as many times as the entry occurs in the input when no region lists it and its province does not end in "Island"/"Islands", and otherwise never. |
| `Bulletin.ArrayExtrasNeverFlagged` | formatters/PagasaToWikipedia.js:300 | The test `Object.keys(extras) > 0` never holds for an array of extras, whatever its length. |
| `Bulletin.ExtrasFlagged` | formatters/PagasaToWikipedia.js:300 | A definition with no contract of its own: one key made of decimal digits, not all zero. `ArrayExtrasNeverFlagged` states that an array of extras never passes. |
| `Bulletin.Issue.Message` | formatters/PagasaToWikipedia.js:99-324 | A definition with no contract of its own: the `message` text of each issue. "Extras detected." is line 302. "Region for P not found." is line 324. "Page not found for province: P" is line 223. A notice is its own string, as on line 99. `Formatter.RunMessages` and `Formatter.NoTyphoonRun` state the run's messages through it. |
| `Renderer.ProvinceLink` | formatters/PagasaToWikipedia.js:216-232 | A province that is a title, "Metro Manila" or an island group links as `[[P]]` when it is not empty, and is written as the empty text when it is. Otherwise a known "P (province)" title links as `[[P (province)|P]]`. Otherwise the link is the plain name. A "Page not found" issue is recorded exactly in that last case, and it is the only issue. |
| `Renderer.BulletLine` | formatters/PagasaToWikipedia.js:234-256 | The line's issues are the province link's. With no `part`, the line is the bullet, a space, the link and a line break. With `part` and a term that lower-cases to "mainland", it is the bullet, " Mainland ", the link and a line break. With a term that lower-cases to "rest", it is the bullet, " rest of ", the link and a line break. With any other term, it is the bullet, the part word ("undefined" when absent), the term, "of", the link, the municipality suffix and a line break. |
| `Renderer.UpperCaseMainland` | formatters/PagasaToWikipedia.js:237-240 | The term is compared in lower case: "MAINLAND" gives the " Mainland " line. |
| `Renderer.CapitalisedRest` | formatters/PagasaToWikipedia.js:237-244 | "Rest" gives the " rest of " line. |
| `Renderer.RegionHeader` | formatters/PagasaToWikipedia.js:207-210 | The unclassified block's header is a bare line break. A region's header starts with `* '''[[page|name]]''' ` when the page is present and non-empty, and with `* '''[[name]]''' ` otherwise. It ends with `{{small|(designation)}}` and a line break when there is a designation, and with `]]''' ` and a line break otherwise. Its length is exactly that prefix and that ending together, so nothing else is written between them. |
| `Renderer.LevelText` | formatters/PagasaToWikipedia.js:169-189 | A level's text is empty exactly when the level is null; otherwise it starts with a line break. Its full text is given by `Renderer.LevelTextByFilters`. |
| `Renderer.LevelTextByFilters` | formatters/PagasaToWikipedia.js:173-189 | A classified level's text and issues are read off its input. First comes a line break. Then comes the block of the entries no region lists, when there are any. Then, for each region in ascending order that is the first match of some entries, comes its header and those entries' bullets in input order. |
| `Renderer.RegionBlocksAreFilterBlocks` | formatters/PagasaToWikipedia.js:183-189 | When the buckets are the first-match filters of the input, the region blocks in ascending key order are the filter blocks. |
| `Renderer.RegionTextIssues` | formatters/PagasaToWikipedia.js:195-205 | A block records the page issues of its areas, in order. |
| `Renderer.RegionText` | formatters/PagasaToWikipedia.js:195-205 | A definition with no contract of its own: the header, then one bullet line per area. `RegionTextParts` and `RegionTextIssues` state its text and issues. |
| `Renderer.BulletsIssues` | formatters/PagasaToWikipedia.js:200-202 | The bullet lines record the page issues of their areas, in order. |
| `Renderer.LinkIssuesAppend` | formatters/PagasaToWikipedia.js:200-202 | The page issues of two area lists in sequence are those of the first, then those of the second. |
| `Renderer.RegionBlocksIssues` | formatters/PagasaToWikipedia.js:183-189 | The region blocks record the page issues of the region buckets, read in ascending index. |
| `Renderer.LevelIssuesFollowFlatten` | formatters/PagasaToWikipedia.js:176-189 | A level records page issues in the order it writes its areas: unclassified first, then region by region. |
| `Renderer.LinkIssuesExact` | formatters/PagasaToWikipedia.js:216-228 | Only page issues are recorded. One is recorded for P exactly when P's page is missing and some area names P. |
| `Renderer.LinkIssuesSameMembers` | formatters/PagasaToWikipedia.js:216-228 | Area lists holding the same entries report the same issues. |
| `Renderer.LevelReportsMissingPages` | formatters/PagasaToWikipedia.js:169-189 | A present level reports exactly the missing pages among its input areas, whichever bucket each area was classified into. |
| `Renderer.ProvinceCount` | formatters/PagasaToWikipedia.js:216-228 | A definition with no contract of its own: the number of areas in a list that name province P. |
| `Renderer.ProvinceCountAppend` | formatters/PagasaToWikipedia.js:216-228 | The count for two lists in sequence is the sum of their counts. |
| `Renderer.ProvinceCountPerm` | formatters/PagasaToWikipedia.js:169-189 | Area lists holding the same entries, whatever their order, have the same count for every province. |
| `Renderer.LinkIssuesCount` | formatters/PagasaToWikipedia.js:216-228 | Linking a list of areas records "Page not found for province: P" once per area naming P when P's page is missing, and otherwise never. |
| `Renderer.LevelPageIssuesCount` | formatters/PagasaToWikipedia.js:169-189 | Rendering a classified level records "Page not found for province: P" once per input area naming P when P's page is missing, whichever bucket each area was put in. |
| `Renderer.EmptyLevelEmptyField` | formatters/PagasaToWikipedia.js:157-161 | A null level and a level without areas both leave their template field empty after trimming. |
| `Renderer.TemplateFramed` | formatters/PagasaToWikipedia.js:155-163 | The template opens with `{{TyphoonWarningsTable` and a line break, then has the time and PH5 .. PH1 fields, and ends with the PAGASA source line and `}}`. |
| `Renderer.Template` | formatters/PagasaToWikipedia.js:145-164 | A definition with no contract of its own: the template with the time line and the five trimmed texts. Its properties are stated by `TemplateFramed`, `TimeFieldPadded`, `EmptyLevelEmptyField` and `Formatter.TemplateOfLevelThree`. |
| `Renderer.TimeFieldPadded` | formatters/PagasaToWikipedia.js:150-151 | The UTC hours and minutes are written as two digits each, separated by a colon. |
| `JsStrings.TwoDigits` | formatters/PagasaToWikipedia.js:150-153 | `("0" + n).slice(-2)` always has two characters. Below 100 they are the two decimal digits of n. |
| `JsStrings.TrimCutsOnlyWhiteSpace` | formatters/PagasaToWikipedia.js:157-161 | `trim` keeps a factor of the text that neither starts nor ends with white space, and removes only white space around it. |
| `JsStrings.TrimLineBreaks` | formatters/PagasaToWikipedia.js:157-161 | A text between two line breaks that neither starts nor ends with white space trims to itself. |
| `JsStrings.Trim` | formatters/PagasaToWikipedia.js:157-161 | A definition with no contract of its own: `trim`. `TrimCutsOnlyWhiteSpace` and `TrimLineBreaks` state what it keeps and what it cuts. |
| `JsStrings.IsIslandName` | formatters/PagasaToWikipedia.js:322 | A definition with no contract of its own: the name ends in "Island" or "Islands". `Classifier.ClassifyIssuesExact` and `Formatter.RunIssuesExact` use it to state which areas get a region issue. |
| `JsStrings.LowerCaseIs` | formatters/PagasaToWikipedia.js:237 | A definition with no contract of its own: the text lower-cases to the given word. `Renderer.UpperCaseMainland` and `Renderer.CapitalisedRest` state its effect on the bullet line. |
| `JsStrings.JoinSnoc` | formatters/PagasaToWikipedia.js:273 | Joining one more part appends the separator and that part. |
| `JsStrings.DecimalString` | formatters/PagasaToWikipedia.js:150 | The numeral of a number has at least one digit. |
| `Normalizer.LinkMunicipalities` | formatters/PagasaToWikipedia.js:259-277 | The suffix is empty exactly when the municipality list is missing or empty. |
| `Normalizer.MunicipalityLinks` | formatters/PagasaToWikipedia.js:262-272 | There is one link per municipality, in order, each `[[T, P|M]]`. |
| `Normalizer.TwoMunicipalities` | formatters/PagasaToWikipedia.js:262-273 | Two municipalities give both links, in order, joined by ", " inside ` {{small|(...)}}`. |
| `Normalizer.MunicipalitiesWrapped` | formatters/PagasaToWikipedia.js:261-273 | Any non-empty municipality list gives ` {{small|(`, its links in order separated by ", ", and `)}}`, whatever its length. |
| `Normalizer.LinksJoined` | formatters/PagasaToWikipedia.js:272-273 | Joining the links with ", " gives each link after the one before it and a ", ", for any number of names. |
| `Normalizer.LinkShowsRawName` | formatters/PagasaToWikipedia.js:271 | Each link shows the raw municipality name, whatever its target. |
| `Normalizer.AliasWins` | formatters/PagasaToWikipedia.js:41-47 | A raw name in the alias table links to its alias whatever the rewrites give; "Albuena" links to "Albuera". |
| `Normalizer.PlainNameLinksToItself` | formatters/PagasaToWikipedia.js:263-269 | A name outside the alias table that none of the three patterns matches links to itself. |
| `Normalizer.LinkTarget` | formatters/PagasaToWikipedia.js:263-269 | A definition with no contract of its own: the alias when the raw name has one, otherwise the rewritten name. `AliasWins`, `PlainNameLinksToItself`, `SantaExample` and `UnescapedDotExample` state its cases. |
| `Normalizer.Rewritten` | formatters/PagasaToWikipedia.js:263-266 | A definition with no contract of its own: the three rewrites in the source's order. `PlainNameLinksToItself`, `SantaExample` and `UnescapedDotExample` state what it gives. |
| `Normalizer.ReplaceAbbreviation` | formatters/PagasaToWikipedia.js:264-265 | A definition with no contract of its own: the global replacement of the stem and the character after it. `AbbreviationFreeUnchanged`, `SantaExpanded` and `StoWithoutDotExpanded` state what it does. |
| `Normalizer.StripDirections` | formatters/PagasaToWikipedia.js:266 | A definition with no contract of its own: the global deletion of the directional pattern. `DirectionFreeUnchanged`, `RootFreeUnchanged`, `LowerCaseDirectionExample` and `CapitalisedDirectionExample` state what it does. |
| `Normalizer.AbbreviationFreeUnchanged` | formatters/PagasaToWikipedia.js:264-265 | Where `/Sta./` (or `/Sto./`) matches nowhere, the replacement leaves the text unchanged. |
| `Normalizer.DirectionFreeUnchanged` | formatters/PagasaToWikipedia.js:266 | Where the directional pattern matches nowhere, stripping leaves the text unchanged. |
| `Normalizer.RootFreeUnchanged` | formatters/PagasaToWikipedia.js:266 | A text in which no compass root starts is left unchanged by the directional pattern. |
| `Normalizer.SantaExpanded` | formatters/PagasaToWikipedia.js:264 | "Sta. Ana" becomes "Santa Ana"; the dot after the stem is replaced too. |
| `Normalizer.SantaAnaStable` | formatters/PagasaToWikipedia.js:265-266 | "Santa Ana" is unchanged by the `Sto` replacement and by the directional pattern. |
| `Normalizer.SantaExample` | formatters/PagasaToWikipedia.js:263-269 | "Sta. Ana" links to "Santa Ana". |
| `Normalizer.StoWithoutDotExpanded` | formatters/PagasaToWikipedia.js:264-265 | The unescaped dot also swallows a space: "Sto Tomas" becomes "SantoTomas". |
| `Normalizer.SantoTomasStable` | formatters/PagasaToWikipedia.js:266 | "SantoTomas" is unchanged by the directional pattern. |
| `Normalizer.UnescapedDotExample` | formatters/PagasaToWikipedia.js:263-269 | "Sto Tomas" links to "SantoTomas". |
| `Normalizer.LowerCaseDirectionExample` | formatters/PagasaToWikipedia.js:266 | "northern Samar" becomes "Samar": the root, "ern" and the space are removed. |
| `Normalizer.CapitalisedDirectionExample` | formatters/PagasaToWikipedia.js:266 | The pattern is case-sensitive: "Northern Samar" is unchanged. |

## Left out

- Network access: the Wikipedia parse request of `getParsedWarningSignalsTemplate` (`formatters/PagasaToWikipedia.js:57-88`) is not modelled. The category query of `_downloadWikipediaProvinces` is replaced by its result: the list of titles is a parameter of `DownloadProvinces` and `GetWarningSignalsTemplate`.
- Fetching the bulletin with the scraper when none is given, and `JSON.parse` of a string bulletin (`:91-94`): the bulletin is a parameter, already parsed. The scraper is not part of this model.
- Loading `wp-regions.json` (`:40`): the region table is a constructor parameter. `axiosOptions` is only used for requests and is left out.
- Date handling in `_generateTemplate` (`:146-148`): `getHours` and `getMinutes` depend on the host's time zone, so the four clock readings are a `Clock` parameter. Their two-digit padding is modelled.
- `async`/`await`: the model runs each step to completion in order; there is no interleaving.
- Aliasing of the returned issue array: the result's list and the formatter's field are one array in JavaScript, so later runs also grow a result already returned. The model returns the list's contents at the end of the run.
- An area with `part` true and no `includes` makes the source throw; the model's areas always carry `includes`, read only when `part` holds.
- `extras: null` makes `Object.keys` throw; the model has no null extras.
- An `includes.term` that is missing or not a string makes `toLowerCase` throw (`:237`), and an `includes.part` that is JSON `null` is written as "null" (`:247`). The model's term is always a string, and its part is an `Option`: None stands for a missing part and is written "undefined". It has no null part.
- A region whose `designation` is JSON `null`: the source tests only against `undefined`, so it writes `{{small|(null)}}`. The model's designation is an `Option`, with None standing for a missing designation, and has no null designation.
- Bulletin.ExtrasFlagged: weaker than the source's test. Single keys that JavaScript also reads as positive numbers ("0x1", "1e2", " 7") are treated as not flagged; decimal keys and every key count are exact.
- Property names inherited from `Object.prototype` (such as "constructor") also pass the alias test `!== undefined` in the source; the model's alias table holds only its five entries.
- The clearing `tcwsRegions["_"] = undefined` (`:180`) after the unclassified block is rendered: it changes the classification object after its last use, so the model keeps the classification as a value and skips the key.
- Region keys outside the region table cannot arise from the classifier (`Classifier.Classify` proves every key is below the table size); `LevelText` and `ToWikitext` require it rather than modelling `this.regions[k]` being undefined.
- Case mapping beyond ASCII in `toLowerCase`: `JsStrings.LowerCaseIs` folds only A-Z. This is exact for comparisons with "mainland" and "rest": the only other characters whose lower case contains an ASCII letter are U+0130, which also yields a combining dot, and U+212A, which yields 'k'.
- Normalizer.ReplaceAbbreviation: the model works on Unicode characters, but JavaScript's `.` without the `u` flag matches one UTF-16 code unit. After "Sta" or "Sto", a character outside the Basic Multilingual Plane loses only its high surrogate in the source, which leaves a lone low surrogate; the model replaces the whole character.
- The `forEach` callbacks and the body of the level loop are separate methods (`PlaceInFirstRegion`, `ClassifyEntry`, `SignalToRegions`, `LevelToWikitext`, `AppendRegionBlocks`); `forEach`'s index argument is unused in the source and not modelled.

## Findings

| source | as written | input that shows it | evidently intended | confidence | as-written member | corrected member |
|---|---|---|---|---|---|---|
| formatters/PagasaToWikipedia.js:108-111 | The `issues` field of the returned object is evaluated before `template`, which is when the levels are rendered and page issues are pushed. If classification recorded nothing, the list is still undefined at that point and the result says `false`. | A fresh formatter, a region table listing "Bukidnon", no province titles, and a bulletin whose only area is Bukidnon at signal 1: rendering records "Page not found for province: Bukidnon", but the result's issues is `false`. | The result reports every issue recorded during the run, rendering issues included. | high, not executed | `Formatter.ConvertAsWritten` (shown by `Formatter.MissingPageDropped`) | `Formatter.Convert` (proved by `Formatter.ConvertReportsEverything`) |
