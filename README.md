# requiem-calculator data passes and allocation rules, in Dafny

requiem-calculator builds a JSON store (`data.json`) holding a game's races, first jobs,
specs, skills and DNA entries. A browser page then lets a player spend skill points on that
data. The store comes from a one-shot extraction over archived calculator pages
(`extract_data.py`). Standalone passes then repair and enrich it:

- `comprehensive_name_fix.py`: manual corrections first, then fuzzy matching against the wiki titles.
- `convert_skill_names.py`: exact re-keying on the lower-case, space-free name, plus DNA-name spelling.
- `enrich_with_full_requirements.py`: prerequisites and the "Level needed" row.
- `enrich_with_skill_stats.py`: the info table and the progression table.
- `extract_requirements_from_wiki.py`: the "Prerequisite Level" row.
- `cleanup_dna.py`: drops placeholder DNA entries.

Every pass reads the whole store and walks the per-spec lists in file order. It overwrites a
field only when the new value differs, counts the overwrites, and writes the file back only
when the count is positive. The page (`app.js`) keeps an allocation map of skill and DNA
levels. It gates each `+`/`-` click by the points cap, level caps, per-rank character levels
and prerequisites.

The model follows the program's structure:

- **Store and shared helpers**
  - `CanonicalStore` (`store.dfy`): the store as a value, and the rewrite-and-count loop every pass runs.
  - `Text`: Python `str` operations.
  - `Dicts`: a dict built by repeated assignment.
  - `Wiki`: cache file names and pre-parsed pages, plus the index keyed by normalised title.
- **One module per script**: `NameFix`, `ConvertNames` with `DnaNames`, `FullRequirements`,
  `SkillStats`, `WikiLevels`, `CleanupDna` and `Skeleton`.
- **The page**: `CalcPoints`, `CalcRequirements` and `Calculator`. The page's state is a
  `Calculator.Calculator` object whose methods are the click handlers and the race select.
  It holds the allocation and the current race, job and spec. It also holds the store's skill
  lists, because a refused `+` writes resolved ids into them, and the reverse map from the last
  time the skill grid was drawn. A `-` reads that map, so it can be stale.

Each pass is a method over the store value. It returns the new store, the count, and whether
it writes back. Its postcondition ties the new store to a specification function. Lemmas then
state what the pass promises:

- only the named field changes;
- it changes only to the value the source computes;
- the count is zero exactly when nothing changed;
- a second run changes nothing.

The similarity ratio of the fuzzy matcher is a parameter `sim` into `[0, 1]`. Wiki pages
arrive already parsed into the cell texts the scripts read. The character level is the
integer typed into the level box.

One behaviour is worth knowing. A store skill's `requires` is an object keyed by "job" or
"skill" with `{name, level, id}` values. `normalizeRequirements` reads such an object through
its `id`, `skillId` or `0` key, so it yields no requirement (`CalcRequirements.ObjectWithoutId`).
The page's gates therefore read `requires` directly, as `canIncrease` and `canDecrease` do.

The Russian-name override table of `convert_skill_names.py` (lines 17-72) is written entry
by entry as its words (`DnaNames.DnaTable`). The dict key is the words run together and the
value is the words joined by spaces, so the two agree by construction, as every literal in
the source does.

## Model

| member | source | states |
|---|---|---|
| Text.NormalizeNameIdempotent | enrich_with_full_requirements.py:13-14 | the loose name key holds only `[a-z0-9]`, and normalising it again changes nothing |
| Text.FirstInt | enrich_with_full_requirements.py:44 | `re.search(r'(\d+)')` finds nothing exactly when the text has no digit |
| Text.SplitStripParts | enrich_with_full_requirements.py:40 | at least one part; no part has outer whitespace or a comma, each holds only characters of its raw piece, and the raw pieces joined by `,` give back the cell |
| Text.SpaceBeforeCapitalsChanges | convert_skill_names.py:96-97 | the capital-spacing substitution changes a name exactly when it has an upper-case letter after the first character |
| Text.SpaceBeforeCapitalsNotIdempotent | convert_skill_names.py:96-100 | a name the substitution changes is changed again by a second application |
| Text.SpaceBeforeCapitalsSpaced | convert_skill_names.py:96 | after the substitution every inner capital follows a space |
| Text.SpaceBeforeCapitalsDespaced | convert_skill_names.py:96 | the substitution only inserts spaces: with spaces deleted, input and output agree |
| Text.LexTotal | extract_data.py:45-51 | Python string order is total and asymmetric, so the snapshot sort key compares any two paths |
| Text.LexTransitive | extract_data.py:45-51 | Python string order is transitive |
| Wiki.MatchFileName | convert_skill_names.py:8 | `site_pages_[A-Z0-9]_(.+)\.html\.html` matches exactly when the header is present and some greedy group end is followed by the suffix; the group is the longest such |
| Wiki.FileTitle | convert_skill_names.py:8-11 | a title exists exactly when the file name matches, and it is non-empty with no `_` left (each is read as a space) |
| Wiki.WikiSkillNames | comprehensive_name_fix.py:6-17 | the list of titles of the matching files, in listing order |
| Wiki.TitlesMembers | comprehensive_name_fix.py:10-15 | a title is listed exactly when some listed file carries it |
| Wiki.BuildSkillMap | convert_skill_names.py:5-14 | the loop builds the spaceless-lower-case-key -> title map, later files overwriting |
| Wiki.SkillMapKeys | convert_skill_names.py:5-14 | every key is its title's lower-case space-free form, and a key is present exactly when some file's title has that form |
| Wiki.SkillMapLastWins | convert_skill_names.py:7-13 | the title under a key comes from the last file with that key |
| Wiki.Stem | enrich_with_full_requirements.py:99 | the file stem is the name without its final `.html` |
| Wiki.PageOf | enrich_with_full_requirements.py:126-130 | a record reaches a page exactly when its normalised name is non-empty and indexed, and then it gets that page |
| Wiki.BuildIndex | enrich_with_full_requirements.py:91-104 | the index loop files every readable page under its normalised title (heading, else stem) |
| Wiki.IndexLastWins | enrich_with_full_requirements.py:91-104 | a key is indexed exactly when some readable page normalises to it, and it holds the last such page |
| CanonicalStore.RewriteEntries | comprehensive_name_fix.py:82-100 | one list rewritten entry by entry, counting exactly the entries whose value changes |
| CanonicalStore.RewriteLists | comprehensive_name_fix.py:81-100 | every spec's list rewritten in file order, counting every changed entry |
| CanonicalStore.ListsChangedZero | comprehensive_name_fix.py:158-167 | the count is zero exactly when the rewrite leaves every list as it was, so writing only on a positive count loses no change |
| CanonicalStore.IdempotentRewrite | enrich_with_skill_stats.py:93-116 | when the per-entry rewrite is idempotent, a second pass changes and counts nothing |
| CanonicalStore.RewriteSpecNames | comprehensive_name_fix.py:142-156 | every spec of a job renamed in order, counting each real change |
| CanonicalStore.RewriteJobNames | comprehensive_name_fix.py:125-156 | every job of one race renamed with its specs, counting each real change |
| CanonicalStore.RewriteJobName | comprehensive_name_fix.py:126-156 | a job's own name, then each spec's name, counting each real change |
| CanonicalStore.RewriteJobLists | comprehensive_name_fix.py:125-156 | every race's jobs and specs renamed, with the count of real changes |
| CanonicalStore.JobListsChangedZero | comprehensive_name_fix.py:125-158 | the job and spec count is zero exactly when nothing was renamed |
| NameFix.FindBestMatch | comprehensive_name_fix.py:22-32 | returns no match exactly when no candidate scores at least the threshold (and above 0); otherwise a candidate with that score |
| NameFix.BestMatchChoice | comprehensive_name_fix.py:26-30 | the match has the highest score of all candidates, clears the threshold, and is the earliest with that score; no match has score 0 |
| NameFix.ManualIdempotent | comprehensive_name_fix.py:34-65 | no corrected value is itself a key, so applying the table twice equals applying it once |
| NameFix.ManualFirst | comprehensive_name_fix.py:86-95 | a name with a manual correction gets it whatever the wiki titles and similarity are |
| NameFix.FuzzyStrict | comprehensive_name_fix.py:91-95 | an uncorrected name is replaced only by a title scoring strictly above the bound and no worse than any other title; a best score equal to the bound replaces nothing |
| NameFix.EntryFixerChangesOnlyName | comprehensive_name_fix.py:97-100 | an entry changes only in its name, and exactly when a non-empty, different replacement exists |
| NameFix.FixAllNames | comprehensive_name_fix.py:67-167 | skills and DNA at 0.8, jobs and specs at 0.9, manual table first; the count of overwritten names; write exactly when the store changed |
| NameFix.FixCountZero | comprehensive_name_fix.py:158-167 | the count is zero exactly when the pass leaves the store unchanged |
| DnaNames.Lookup | convert_skill_names.py:16-73 | a name has an entry exactly when some table entry's key equals it, and the entry found has that key |
| DnaNames.DnaName | convert_skill_names.py:16-73 | a DNA name has an override exactly when it is a table key |
| DnaNames.DnaNameDespaced | convert_skill_names.py:17-72 | removing the spaces from an override's value gives back its key |
| DnaNames.OverriddenNameHasNoSpace | convert_skill_names.py:17-72 | only a space-free name can have an override |
| ConvertNames.OverrideApplies | convert_skill_names.py:88-93 | an override key becomes the mapped value, which is the key with spaces put back |
| ConvertNames.DnaStatsKept | convert_skill_names.py:88-94 | a name containing "DNA Stats" is never rewritten |
| ConvertNames.FallbackNeverMarked | convert_skill_names.py:94-96 | the fallback's output never contains "DNA Stats" |
| ConvertNames.FallbackNotIdempotent | convert_skill_names.py:94-100 | an unmapped, unmarked name changes exactly when it has an inner capital, and then a rerun changes it again |
| ConvertNames.ConvertNamesFromRussian | convert_skill_names.py:76-107 | only DNA names change, each by override or fallback; the count of changed names; write exactly when the store changed |
| ConvertNames.SkillMapKeyed | convert_skill_names.py:5-14 | the wiki map files each title under its own spaceless lower-case form |
| ConvertNames.RenamedOnlyByKey | convert_skill_names.py:120-158 | a skill or job is renamed only to the title under its own key (skills also to "radiant" from "radient"), and the rename keeps the key |
| ConvertNames.SkillAndJobIdempotent | convert_skill_names.py:120-150 | with the wiki-built map, converting a skill or job name twice equals converting once |
| ConvertNames.RadientRedirect | convert_skill_names.py:132-164 | with both titles in the wiki, a spec named by the "radient" title still moves to "radiant", while a skill or job keeps it |
| ConvertNames.ConvertNames | convert_skill_names.py:109-172 | skills, jobs and specs renamed by exact key, DNA untouched; the count of renames; write exactly when the store changed |
| ConvertNames.SkillConversionSettles | convert_skill_names.py:120-131 | a second skill conversion over its own output renames nothing |
| FullRequirements.RowKey | enrich_with_full_requirements.py:34 | a row key holds no colon |
| FullRequirements.ParsePrereqs | enrich_with_full_requirements.py:17-52 | a result that is present is never empty |
| FullRequirements.ParseRequirementParts | enrich_with_full_requirements.py:40-48 | the comma parts read left to right into a record |
| FullRequirements.ParseRow | enrich_with_full_requirements.py:29-50 | one row contributes a record only with two or more cells, a job or skill key, and at least one field read |
| FullRequirements.ParsePrereqsTable | enrich_with_full_requirements.py:17-52 | the table loop; no table gives `None` |
| FullRequirements.ApplyPartFields | enrich_with_full_requirements.py:42-48 | a level part with a number sets only `level`, a level part without one sets nothing, any other part sets only `name` |
| FullRequirements.ReadPartsName | enrich_with_full_requirements.py:42-48 | the name is the last part not mentioning a level, and is absent when every part does |
| FullRequirements.ReadPartsLevel | enrich_with_full_requirements.py:42-48 | the level is the first integer of the last level part that has one, and is absent when none has |
| FullRequirements.RowRecordKey | enrich_with_full_requirements.py:34-37 | a contributing row's key is colon-free and contains "job" or "skill" |
| FullRequirements.ParsePrereqsRows | enrich_with_full_requirements.py:28-52 | `None` exactly when no row contributes; otherwise the keys are those of contributing rows |
| FullRequirements.Filled | enrich_with_full_requirements.py:71-80 | one entry per cell |
| FullRequirements.ParseLevelNeededRow | enrich_with_full_requirements.py:55-88 | the forward-fill loop and padding compute the level list |
| FullRequirements.PadLevels | enrich_with_full_requirements.py:82-86 | the padding loop appends the last level up to length five |
| FullRequirements.LastLevelMeaning | enrich_with_full_requirements.py:73-80 | `last_level` is the value of the last digit cell so far, null before the first one |
| FullRequirements.LevelNeededShape | enrich_with_full_requirements.py:65-88 | `None` exactly when the row has no cells; otherwise one forward-filled level per cell, padded with the last to five, with a null first entry when the first cell is not a number |
| FullRequirements.BuildNameIds | enrich_with_full_requirements.py:119-122 | the loop builds the normalised-name -> id map |
| FullRequirements.AddNameIds | enrich_with_full_requirements.py:121-122 | one list's skills filed under their normalised names |
| FullRequirements.NameIdsLastWins | enrich_with_full_requirements.py:119-122 | a key is present exactly when some skill normalises to it, and it maps to the last such skill's id |
| FullRequirements.LinkedIds | enrich_with_full_requirements.py:138-143 | linking sets only `id`, and sets it exactly when the requirement's normalised name has an id |
| FullRequirements.EnrichedChanges | enrich_with_full_requirements.py:124-157 | a skill changes only in `requires` and `lvlReq`, only when its normalised name is non-empty and indexed, each to the page's non-empty value |
| FullRequirements.EnrichWithFullRequirements | enrich_with_full_requirements.py:107-167 | only skills are enriched; the count of changed skills; write exactly when the store changed |
| FullRequirements.EnrichSettles | enrich_with_full_requirements.py:124-163 | a second run over its own output changes no skill and writes nothing |
| SkillStats.ParseInfo | enrich_with_skill_stats.py:14-46 | a present info record is never empty |
| SkillStats.ParseSkillInfoTable | enrich_with_skill_stats.py:14-46 | the row loop computes the info record; no table gives `None` |
| SkillStats.InfoPairKinds | enrich_with_skill_stats.py:27-43 | a recognised row sets one of the seven keys; only `levels` holds a count, present exactly when the text is all digits, and only `weapons` holds a list |
| SkillStats.ParseInfoRows | enrich_with_skill_stats.py:21-46 | `None` exactly when no row is recognised; otherwise a key is present exactly when some row sets it, holding the last such value |
| SkillStats.AddRow | enrich_with_skill_stats.py:66-71 | one full row appends its cells, `+`-stripped numbers or raw text, under their headers |
| SkillStats.ParseProgressionTable | enrich_with_skill_stats.py:48-73 | the row loop computes the stats map; no table gives `None` |
| SkillStats.ColumnSize | enrich_with_skill_stats.py:61-71 | a column holds one value per kept row and per column with that header |
| SkillStats.ProgressionShape | enrich_with_skill_stats.py:48-73 | `None` exactly when there is no table or the first header is not "level"; otherwise the keys are exactly the later headers, and each list has one value per full-width row for every column carrying its header |
| SkillStats.WithStatsChanges | enrich_with_skill_stats.py:93-116 | a skill changes only in `info` and `progression`, only when it has a page, each to the page's non-empty value, and a second application changes nothing |
| SkillStats.EnrichWithSkillStats | enrich_with_skill_stats.py:88-122 | only skills are enriched; the count of changed skills; write exactly when the store changed |
| SkillStats.StatsSettles | enrich_with_skill_stats.py:104-116 | a second run changes no skill |
| WikiLevels.PrereqLevels | extract_requirements_from_wiki.py:16-25 | `None` exactly when there is no row or no number in it; otherwise one level per digit run |
| WikiLevels.WithLevelsChanges | extract_requirements_from_wiki.py:48-61 | a skill changes only in `lvlReq`, only when its page has a non-empty level row, to that row's numbers in order; a second application changes nothing |
| WikiLevels.ExtractRequirementsFromWiki | extract_requirements_from_wiki.py:42-67 | only skills change, never DNA; the count of changed skills; write exactly when the store changed |
| WikiLevels.LevelsSettle | extract_requirements_from_wiki.py:57-61 | a second run changes no skill |
| CleanupDna.Cleaned | cleanup_dna.py:14-30 | every spec keeps its key and its place |
| CleanupDna.FilterDna | cleanup_dna.py:18-28 | one list filtered to its meaningful records in order, with the removed and kept counts |
| CleanupDna.CleanupDnaStore | cleanup_dna.py:7-43 | only `dna` changes, each list to its meaningful records; removed + kept equals the records before; write exactly when the store changed |
| CleanupDna.KeptCounts | cleanup_dna.py:19-27 | a list's kept and removed counts add up to its length |
| CleanupDna.CleanedCounts | cleanup_dna.py:10-27 | over all specs, removed plus kept equals the number of records before the pass |
| CleanupDna.KeptMembers | cleanup_dna.py:19-24 | a record is kept exactly when it is in the list and meaningful, unchanged |
| CleanupDna.KeptAppend | cleanup_dna.py:19-24 | the filter splits over concatenation, so kept records keep their order |
| CleanupDna.RemovedZero | cleanup_dna.py:23-27 | a list loses nothing exactly when all its records are meaningful |
| CleanupDna.RemovedZeroKept | cleanup_dna.py:23-30 | a list loses nothing exactly when it is kept whole |
| CleanupDna.RemovedNone | cleanup_dna.py:36-43 | nothing removed exactly when the store is unchanged |
| CleanupDna.CleanupSettles | cleanup_dna.py:36-43 | the cleanup of its own output removes nothing and writes nothing |
| Skeleton.SpaceFromCamel | extract_data.py:23-24 | the result has no outer whitespace |
| Skeleton.SpaceFromCamelShape | extract_data.py:23-24 | the spacing only inserts spaces, and a key with no inner capital and no outer whitespace comes back unchanged |
| Skeleton.RaceIdShape | extract_data.py:82-83 | a race id has the name's length, no space and no capital, and deriving it again changes nothing |
| Skeleton.SpecsShape | extract_data.py:95-100 | one spec per subclass link with the link's id; each name has no outer whitespace and holds only the key's characters and spaces, and a key with no inner capital and no outer whitespace is kept as it is |
| Skeleton.CollectSpecs | extract_data.py:96-100 | the link loop builds the specs in link order |
| Skeleton.PutKeys | extract_data.py:85 | dict assignment keeps key order, adds a new key last, and keeps keys distinct |
| Skeleton.PutGet | extract_data.py:85 | dict assignment changes only the value under its key |
| Skeleton.GetDefault | extract_data.py:102 | an absent key reads as the default |
| Skeleton.GroupIds | extract_data.py:85-172 | the `groups` list has no race twice, lists a race exactly when some block has it, and follows the key order of the race -> first-job lists |
| Skeleton.AddBlock | extract_data.py:80-106 | one block records its race and appends its first job under it |
| Skeleton.ParseGroupsAndSubclasses | extract_data.py:55-109 | the block loop builds the race dict and the race -> first-job lists |
| Skeleton.GroupsAndJobs | extract_data.py:75-109 | races and job lists share keys in order with no repeats; a race is present exactly when some block has it, and its list is its blocks' first jobs in page order |
| Skeleton.LastSegment | extract_data.py:29 | the text after the last `/`, with no `/` in it |
| Skeleton.DropExtension | extract_data.py:30 | the text before the last `.`, or all of it without one |
| Skeleton.SkillBase | extract_data.py:29-30 | the base name has no `/` |
| Skeleton.WithoutDna | extract_data.py:33-34 | dropping `DNA_` adds no character |
| Skeleton.WithoutMarker | extract_data.py:31 | dropping the trailing marker adds no character |
| Skeleton.FinishChars | extract_data.py:36-37 | after `_` becomes a space and the result is stripped, neither `_` nor `/` remains |
| Skeleton.CleanedNameShape | extract_data.py:27-37 | the cleaned name has neither `_` nor `/` |
| Skeleton.WrittenNameShape | extract_data.py:27-37 | the cleaner as written has neither `_` nor `/` either |
| Skeleton.GMarkerAsWritten | extract_data.py:31-34 | as written, `DNA_G<w>_G.png` becomes `DNA<w>` |
| Skeleton.GMarkerKept | extract_data.py:27-37 | the corrected cleaner turns `DNA_G<w>_G.png` into `G<w>` |
| Skeleton.GMarkerCorrected | extract_data.py:27-37 | the corrected cleaner turns `DNA_<w>_G.png` into `w` with `_` read as spaces, whatever `w` starts with |
| Skeleton.KeepFirst | extract_data.py:137-146 | one image of a type is appended exactly when its id was not seen for that type |
| Skeleton.ParseSkillsAndDna | extract_data.py:125-147 | type 0 images become skills and type 1 images DNA records, first occurrence of each id only, named by the cleaner as written; other codes are ignored |
| Skeleton.DnaRecordAsWritten | extract_data.py:136-146 | the image loop stores a DNA image `DNA_G<w>_G.png` as the record `DNA<w>` |
| Skeleton.FirstMatchesIds | extract_data.py:130-146 | the kept records of a type carry exactly the ids its images carry |
| Skeleton.FirstMatchesDistinct | extract_data.py:130-146 | no id is kept twice within a type |
| Skeleton.FirstMatchesOrigin | extract_data.py:130-146 | every kept record comes from the first image of its id and type |
| Skeleton.SkeletonRecords | extract_data.py:125-147 | a type's records have distinct ids, exactly that type's image ids, each built from the first image of its id with `maxLevel` 10 |
| Skeleton.KeyOrder | extract_data.py:45-51 | the `(folder number, path)` order is total, asymmetric and transitive |
| Skeleton.LatestSnapshot | extract_data.py:40-52 | no result exactly when there are no candidates; otherwise a candidate no other candidate's key exceeds |
| CalcPoints.CharLevel | app.js:34-35 | the level used is the entered level clamped to `[1, 90]` |
| CalcPoints.TableRising | app.js:27-30 | the points table has 90 strictly increasing entries |
| CalcPoints.CapMonotone | app.js:34-39 | the cap never drops as the entered level rises and is at least 1 |
| CalcPoints.CountAllocated | app.js:41-45 | the loop's sum is the sum of the allocated levels |
| CalcRequirements.NatToString | app.js:56 | `String(n)` is the digits of `n` without leading zeros |
| CalcRequirements.SkipJsSpace | app.js:57 | `parseInt` skips exactly the leading white space |
| CalcRequirements.ParseDigits | app.js:57 | `parseInt` of a run of digits is its value |
| CalcRequirements.ParseNegative | app.js:57 | `parseInt` of a minus sign and digits is the negated value |
| CalcRequirements.ParseIntToString | app.js:56-57 | `parseInt(String(n), 10) == n` for every integer |
| CalcRequirements.LevelOf | app.js:57 | a stored level is at least 1, or NaN |
| CalcRequirements.LevelOfParsed | app.js:57 | a truthy level is parsed from its string and raised to at least 1 |
| CalcRequirements.LevelOfFalsy | app.js:57 | a falsy level becomes 1 |
| CalcRequirements.LevelOfNumber | app.js:57 | a numeric level is kept, raised to at least 1 |
| CalcRequirements.LevelOfDigits | app.js:57 | a digit-string level is its value, raised to at least 1 |
| CalcRequirements.PushTruthy | app.js:54-59 | `push` with a truthy id stores one requirement with the id's string and the parsed level |
| CalcRequirements.MatchReqString | app.js:68 | a match is all digits, optionally followed by `:` and more digits |
| CalcRequirements.MatchReqStringComplete | app.js:68 | both accepted string shapes match with the expected groups |
| CalcRequirements.ReqsOf | app.js:62-72 | each element contributes at most one requirement |
| CalcRequirements.MatchedString | app.js:67-69 | a matched string pushes its groups, level defaulting to 1 |
| CalcRequirements.DigitsRequirement | app.js:67-69 | `"<digits>"` is that id at level 1 |
| CalcRequirements.DigitsLevelRequirement | app.js:67-69 | `"<digits>:<digits>"` is that id at the second number, raised to at least 1 |
| CalcRequirements.OtherString | app.js:67-69 | any other string contributes nothing |
| CalcRequirements.NumberRequirement | app.js:70-71 | a number is that id at level 1, except 0, which is dropped |
| CalcRequirements.ObjectReqs | app.js:63-64 | an object pushes its first present id key with its first present level key |
| CalcRequirements.ObjectRequirement | app.js:63-64 | `{id, level}` with a truthy id gives that id at the level, raised to at least 1 |
| CalcRequirements.ObjectDefaultLevel | app.js:63-64 | an object with no level key gets level 1 |
| CalcRequirements.ObjectWithoutId | app.js:63-64 | an object with no `id`, `skillId` or `0` key contributes nothing |
| CalcRequirements.ArrayReqs | app.js:65-66 | an array pushes its first item with its second as the level |
| CalcRequirements.PairRequirement | app.js:65-66 | `[id, level]` gives that id at the level, raised to at least 1 |
| CalcRequirements.SingleRequirement | app.js:65-66 | `[id]` gives that id at level 1 |
| CalcRequirements.NormalizeRequirements | app.js:51-75 | the loop over the elements computes the normalised list |
| CalcRequirements.ReqsOfAllShape | app.js:61-73 | at most one requirement per element, each level at least 1 or NaN |
| CalcRequirements.NormalizedShape | app.js:51-75 | a falsy value gives nothing; otherwise at most one requirement per element, each level at least 1 or NaN |
| CalcRequirements.AddDependentStep | app.js:86-87 | adding an id under a required id keeps the map exact: every required id a key, its skills listed once |
| CalcRequirements.DependentsUnique | app.js:77-91 | two maps exact for the same skills agree on keys, members and lengths |
| CalcRequirements.RecordRequirements | app.js:85-88 | one skill is listed under every id its requirements name |
| CalcRequirements.BuildDependencyIndex | app.js:77-91 | `requiresById` holds each skill's non-empty requirements; `dependentsById` lists under each required id exactly the skills requiring it, once each |
| CalcRequirements.DependencyIndexMeaning | app.js:81-88 | an id is listed under `r` exactly when that skill's normalised requirements name `r` |
| CalcRequirements.RequiresIndexMeaning | app.js:84 | `requiresById` has a key exactly for the ids of skills with some requirement |
| CalcRequirements.RecordPrereqs | app.js:247-254 | one skill is listed under every id its prerequisites name |
| CalcRequirements.BuildReverseDependencyMap | app.js:243-257 | each named id maps to exactly the skills whose prerequisites name it, once each |
| CalcRequirements.ReverseMapMeaning | app.js:246-255 | a skill is listed under `r` exactly when a prerequisite of it names `r` by id; an id nothing names has no key |
| Calculator.CheckIncrease | app.js:335-367 | raising is allowed exactly when points remain, the skill is below its maximum, the per-rank character level is met and no prerequisite blocks |
| Calculator.IncreaseRefused | app.js:337-342 | no raise when the points are spent or the skill is at its maximum |
| Calculator.IncreaseNeedsPrereq | app.js:354-359 | no raise while a skill prerequisite is allocated below its level |
| Calculator.FindById | app.js:379 | the first skill with the id, or none exactly when no skill has it |
| Calculator.NeededLevel | app.js:381-389 | the largest level a dependent's prerequisites referring to the skill ask for, 0 when none does |
| Calculator.CheckDependent | app.js:376-392 | one listed dependent allows the lower level exactly when it is not invested, not found, or needs no more |
| Calculator.CheckDependents | app.js:375-393 | the loop allows exactly when every listed dependent allows |
| Calculator.CheckDecrease | app.js:369-395 | lowering is allowed exactly when the skill is allocated and every invested skill naming it by id still has its prerequisites met one level lower |
| Calculator.DependentBlocks | app.js:390-392 | a listed dependent that refuses blocks the decrease |
| Calculator.DependentsAllow | app.js:374-394 | when every listed dependent allows, the decrease is allowed |
| Calculator.IncreaseKeepsBounds | app.js:423-440 | a raise adds exactly one level when allowed, touches no other skill, and keeps the total within the cap and the skill within its maximum |
| Calculator.LoweredMeaning | app.js:415-421 | a `-` takes one level off an allocated id, drops the key at 0, leaves every other id, and keeps no zero key |
| Calculator.DecreaseKeepsDependents | app.js:369-421 | after an allowed decrease every invested dependent still has its prerequisites met |
| Calculator.DnaIncreaseBounds | app.js:480-485 | a DNA `+` adds one level only below the maximum, with no points cap, touching no other id |
| Calculator.Calculator.Render | app.js:301-307 | drawing the grid rebuilds the reverse map so that it describes the shown skills, and changes nothing else |
| Calculator.Calculator.ChooseGroup | app.js:117-172 | a race change makes the race's first job and its first spec current, keeps the allocation, and redraws; with no job only the race changes |
| Calculator.FindByName | app.js:287-288 | the first skill with the normalised name, or none exactly when no skill has it |
| Calculator.CachedPrereq | app.js:282-290 | a prerequisite with a name and no id takes the id of the first skill of that normalised name; any other stays as it was |
| Calculator.CachedIds | app.js:277-290 | after a refusal only the skill's prerequisites change, each as resolved, with the same keys |
| Calculator.CachingGate | app.js:354-362 | a prerequisite resolved by name turns from a character-level gate into a gate on the found skill's allocation |
| Calculator.RefusalAddsGate | app.js:354-362 | after a refusal, a prerequisite with a name and no level, which never blocked, blocks while its skill is unallocated |
| Calculator.CachingStalesReverseMap | app.js:289-307 | a refusal that resolves a new id leaves the drawn reverse map no longer describing the shown skills |
| Calculator.ListedAllowExact | app.js:369-395 | with an exact reverse map, the listed dependents allow exactly when `canDecrease` does |
| Calculator.ListedDecreaseExact | app.js:369-421 | with an exact reverse map, the page's `-` is the gated lowering |
| Calculator.Calculator.constructor | app.js:17-21 | the page starts with nothing allocated and nothing chosen, over the loaded skill lists |
| Calculator.Calculator.ChooseJob | app.js:140-172 | choosing a job empties the allocation, shows its first spec, keeps the race and the store, and redraws the reverse map |
| Calculator.Calculator.ChooseSpec | app.js:164-170 | choosing a spec empties the allocation, keeps the job, and redraws the reverse map |
| Calculator.Calculator.Reset | app.js:514-521 | reset empties the allocation, keeps the choices, and redraws the reverse map |
| Calculator.Calculator.IncreaseSkill | app.js:423-440 | a skill `+` applies the gated raise; a refused one writes the resolved ids into that skill in the store and leaves the reverse map as drawn; no zero key appears |
| Calculator.Calculator.DecreaseSkill | app.js:369-421 | a skill `-` lowers as the drawn reverse map's dependents allow, which is the gated lowering while that map describes the shown skills; nothing else changes |
| Calculator.Calculator.IncreaseDna | app.js:480-485 | a DNA `+` raises below the maximum, nothing else changes |
| Calculator.Calculator.DecreaseDna | app.js:473-479 | a DNA `-` lowers and drops the key at 0, nothing else changes |

## Findings

| source | as written | input that shows it | evidently intended | confidence | as-written member | corrected member |
|---|---|---|---|---|---|---|
| extract_data.py:31 | every `_G` in the base name is deleted, also one that begins the skill name, before the `DNA_` test | `DNA_Gun_G.png` gives `DNAun` | only the trailing `_G` marker is removed, giving `Gun` | medium; not executed | Skeleton.GMarkerAsWritten | Skeleton.GMarkerKept |

The image loop (`Skeleton.ParseSkillsAndDna`) follows the code: it names records with the
cleaner as written (`Skeleton.CleanSkillFilenameAsWritten`), and `Skeleton.DnaRecordAsWritten`
shows the effect on a stored record. The corrected cleaner is `Skeleton.CleanSkillFilename`,
stated by `Skeleton.GMarkerKept` and `Skeleton.GMarkerCorrected`. `Skeleton.Records` and
`Skeleton.SkeletonRecords` take the cleaner as a parameter, so the corrected records are
`Records(FirstMatches(ms, code), CleanSkillFilename)`, with the same proved shape.

## Left out

- File and JSON I/O, `print`, `argparse` and `os.chdir`. A pass returns its new store, its count and a write flag.
- BeautifulSoup, `html.unescape` and the regex HTML scans. Each page or snapshot arrives already parsed into the cell texts, headings, digit runs or regex groups the scripts read.
- `difflib.SequenceMatcher.ratio` (`similarity`): a floating-point library metric. It is the parameter `sim`.
- scrape_wiki.py, fetch_wayback_ajax.py and fetch_wayback_sources.py: network crawling. They are not part of this model.
- `build_data` and `main` of extract_data.py: the file globbing and per-spec page reading that feed the modelled parsers.
- The block-end search of `parse_groups_and_subclasses`: each group match arrives with its own subclass links.
- The informational `corrections_made` map and the `skills_with_reqs` counter: they are only printed.
- The page's DOM, tooltips, the message lines of `unmetRequirementsMessage`, `flashRequirementByAny`, `updatePoints`, `fetch` and event wiring. The id writes that `unmetRequirementsMessage` makes are modelled (`Calculator.CachedIds`).
- `initUI`'s choice of the first race: it is a `Calculator.Calculator.ChooseGroup` call with the first group.
- Text: case mapping (`lower`) and `isdigit` are ASCII; Unicode letters and digits are not modelled. The whitespace set of `strip()` (`Text.IsSpace`) is Python's full Unicode one.
- Skeleton.TsKey: `int()` of a folder name is modelled for plain digit strings. Surrounding whitespace, a sign or underscores, which Python also accepts, are read as 0.
- CalcPoints.CharLevel: the level box is an integer parameter. A box that `parseInt` reads as NaN (which gives a cap of 0 in the page) is not modelled.
- CalcRequirements.ReqsOf: JSON numbers are integers. Fractional numbers and `String()` of numbers with magnitude of 1e21 or more are not modelled.
- CalcRequirements.BuildDependencyIndex: states the members of each dependents list and that none repeats, not their order.
- CalcRequirements.BuildReverseDependencyMap: states the members of each dependents list and that none repeats, not their order.
- Calculator.CheckIncrease: store ids are strings, `lvlReq` entries are whole numbers or null, and `maxLevel` 0 stands for a missing one.
- NameFix.FuzzyStrict: the fuzzy call sites accept only a score strictly above 0.8 or 0.9 (comprehensive_name_fix.py:93, 133), so a best score exactly at the bound renames nothing; a reading of the bounds as "at least" is not modelled.
- Wiki.BuildIndex: one index model serves all three `build_wiki_index` functions. Where a page is unreadable or fails to parse, the `readable` flag stands for the skipped `try` branch.
