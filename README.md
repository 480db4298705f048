# IPSW firmware comparer: the diff-and-classify engine

This project models the analysis engine of the IPSW Comparer, a desktop tool
that compares two extracted iOS firmware archives (IPSW files). It models
these steps:

- **Tree comparison** (`_compare_directories`, `_files_differ`). Files of
  the two extracted trees go into four lists: added, removed, modified or
  unchanged. Contents are compared by SHA-256 digest. Every file lands in
  exactly one list except where a path is a file in one tree and a
  directory in the other (see Findings). The corrected comparison puts
  every file in exactly one list.
- **Component analysis** (`_analyze_component`). A file name is resolved
  against the component knowledge base: `kernelcache`, `iBoot`,
  `trustcache`, `root_hash`. Then three artifact rules apply:
  `dmg.trustcache`, `.root_hash`, `.plist`.
- **Detailed analysis** (`_generate_detailed_analysis`). Each modified file
  is classified against the pattern table of five categories: security,
  performance, boot, system, critical. The step counts every match and
  renders three text blocks: summary, technical details and impact. The
  summary carries the update priority HIGH, MEDIUM or LOW.
- **Insights** (`_perform_ai_analysis`). A second, rule-based pass over
  three themes, with component interactions, a large-update note and its
  own priority: High, Medium or Low.
- **The run** (`_run_comparison`). It compares the trees. When the
  comparison raises, the run ends with that error. Otherwise it analyses
  the changes and appends the insights to the impact block.

## Modules

- `Text`: ASCII case mapping, `str.title`, substring search, decimal
  rendering and `"\n".join`.
- `TreeDiff`: the tree comparison, in two versions. One is as written,
  where existence is `os.path.exists`. The other is corrected, where
  existence means "is a file of the other tree" (see Findings).
- `Version`: the version extracted from an archive name, using the pattern
  `\d+\.\d+[._]\d+`.
- `ComponentKnowledge`: the knowledge base, and `Resolve`, the specification
  of `_analyze_component`. `Resolve` returns the analysis together with the
  knowledge base afterwards.
- `Classifier`: the pattern table, the loop as left folds, the closed-form
  counters and lists, the priority, and the report text.
- `Insights`: the insight rules, stated over `Note` values. `Render` gives
  each note's exact wording.
- `Engine`: the class `FirmwareComparer`. Its field `knowledge` is the
  mutable knowledge base. Its methods follow the source's loops, and each
  is proved equal to the specification function above it. The run comes
  in two versions: as written (`Comparison`, a `Result` whose error is the
  comparison's) and corrected (`CorrectedComparison`).

## Behaviour of the code worth knowing (the model follows the code)

- **Lists and counters grow once per matching pattern.** The critical,
  security and system lists get one entry per matching pattern, not per
  file. The counters count matching patterns too. For example,
  `kernelcache` matches both `kernel` and `cache` and adds 2 to the
  performance counter (`Classifier.KernelcacheHits`). A reader might
  expect each path once per list and each counter to count files.
- **Component analysis writes into the knowledge base.** The analysis takes
  the knowledge base's own impact dictionary. The artifact rules then write
  into that dictionary, so later analyses see the write
  (`ComponentKnowledge.ImpactCarriesOver`). The analysis therefore is not
  a pure lookup: it changes the comparer's state.
- **The artifact rules always run**, not only when no keyword matched.
  They replace the description that the keyword supplied
  (`ComponentKnowledge.ResolveArtifact`).
- **The new-capability note follows the insights' `features` theme**
  (`framework`, `api`, `service`, `capability`, `function`), not the
  `system` category of the classifier.

Two further points about the code:

- The `feature` counter of the change statistics is never incremented. No
  pattern category feeds it (`Classifier.ChangeStats.Add`).
- The summary priority and the insight priority follow different rules and
  can contradict each other in one report (`Engine.PrioritiesDisagree`).

## Model

| member | source | states |
|---|---|---|
| TreeDiff.FilesDifferIffBytesDiffer | ipsw_firmware_tool.py:962-968 | with a collision-free digest, two files differ exactly when their bytes differ |
| TreeDiff.FilesDiffer | ipsw_firmware_tool.py:962-968 | two files differ iff their digests differ; with a collision-free digest, iff their bytes differ (`FilesDifferIffBytesDiffer`) |
| TreeDiff.CompareDirectories | ipsw_firmware_tool.py:921-960 | the two walks, existence tested as written, give exactly `DiffAsWritten` (including the error of hashing a directory); on trees with no file/directory clash this equals the corrected change set |
| TreeDiff.CompareTrees | ipsw_firmware_tool.py:921-960 | the two walks with the corrected existence test give exactly `Diff`, whose partition and membership properties are proved |
| TreeDiff.WalkFirst | ipsw_firmware_tool.py:934-946 | the walk of tree 1 gives exactly `FirstPass`, failing at the first path that exists in tree 2 but is not a file there |
| TreeDiff.WalkSecond | ipsw_firmware_tool.py:949-953 | the walk of tree 2 gives exactly `SecondPass`: the absent paths, in walk order |
| TreeDiff.DiffAsWritten | ipsw_firmware_tool.py:921-960 | `_compare_directories` as written: it raises at the first walked tree-1 file that tree 2 has as a directory (`FirstPassFailsAt`, `DiffAsWrittenAborts`), loses tree-2 files at tree-1 directory paths (`DirectoryClashAsWritten`), and equals `Diff` when no path clashes (`NoClashAgree`) |
| TreeDiff.Diff | ipsw_firmware_tool.py:921-960 | the corrected change set: a partition of both trees (`DiffPartition`), each path in the list its presence and digest call for, in walk order (`DiffMembership`); a tree against itself is all unchanged (`DiffIdentical`) |
| TreeDiff.FirstPass | ipsw_firmware_tool.py:934-946 | the walk of tree 1 sorts each file into removed, modified or unchanged by presence and digest (`FirstPassMembers`), in walk order (`FirstPassOrder`), each file once (`FirstPassCounts`); it fails at a blocked path (`FirstPassFailsAt`, `FirstPassBlocked`) |
| TreeDiff.SecondPass | ipsw_firmware_tool.py:949-953 | the walk of tree 2 collects exactly the absent paths (`SecondPassMembers`), in walk order (`SecondPassOrder`) |
| TreeDiff.FirstPassFailsAt | ipsw_firmware_tool.py:938-946 | after a successful prefix, a blocked path makes the whole first walk fail with that path |
| TreeDiff.FirstPassOk | ipsw_firmware_tool.py:934-946 | the walk of tree 1 cannot fail when nothing is blocked, and it adds nothing to `added` |
| TreeDiff.FirstPassPrefixErr | ipsw_firmware_tool.py:934-946 | once a step of the first walk has raised, the result is that error |
| TreeDiff.FirstPassBlocked | ipsw_firmware_tool.py:938-946 | a walk that reaches a path which exists in tree 2 but is not a file there fails, whatever precedes it |
| TreeDiff.DiffAsWrittenAborts | ipsw_firmware_tool.py:938-946 | a tree-1 file that is a directory of tree 2 makes the comparison as written raise |
| TreeDiff.FirstPassUnblocked | ipsw_firmware_tool.py:934-946 | paths that are not directories of tree 2 are sorted as in the corrected walk |
| TreeDiff.SecondPassIgnoresAbsent | ipsw_firmware_tool.py:949-953 | the second walk's result ignores presence facts about paths it does not visit |
| TreeDiff.NoClashAgree | ipsw_firmware_tool.py:921-960 | with no file/directory clash, the as-written comparison equals the corrected one |
| TreeDiff.FirstPassCounts | ipsw_firmware_tool.py:934-946 | removed, modified and unchanged together are the walk of tree 1 as a multiset |
| TreeDiff.FirstPassMembers | ipsw_firmware_tool.py:938-946 | a tree-1 file is modified or unchanged exactly when tree 2 has it, chosen by digest; otherwise removed |
| TreeDiff.FirstPassOrder | ipsw_firmware_tool.py:934-946 | removed, modified and unchanged each keep the order of the walk of tree 1 |
| TreeDiff.SecondPassMembers | ipsw_firmware_tool.py:949-953 | added holds exactly the tree-2 paths absent from tree 1, each at most as often as walked |
| TreeDiff.SecondPassOrder | ipsw_firmware_tool.py:949-953 | added keeps the order of the walk of tree 2 |
| TreeDiff.DiffMembership | ipsw_firmware_tool.py:921-960 | each path lands in the list its presence and digest call for, in walk order |
| TreeDiff.DiffPartition | ipsw_firmware_tool.py:921-960 | removed+modified+unchanged is tree 1 and added+modified+unchanged is tree 2, each file exactly once |
| TreeDiff.FirstPassSame | ipsw_firmware_tool.py:934-946 | walking a tree against itself marks every file unchanged, in walk order |
| TreeDiff.SecondPassAllPresent | ipsw_firmware_tool.py:949-953 | when every walked path is present, nothing is added |
| TreeDiff.DiffIdentical | ipsw_firmware_tool.py:921-960 | comparing a tree with itself reports every file unchanged and nothing else, as written and corrected |
| TreeDiff.DirectoryClashAsWritten | ipsw_firmware_tool.py:938-953 | a tree-2 file at a tree-1 directory path is in no list; the converse clash raises; the corrected comparison reports an addition and a removal |
| Version.Basename | ipsw_firmware_tool.py:1424-1425 | the base name is the suffix after the last `/` and contains no `/` |
| Version.LastSlash | ipsw_firmware_tool.py:1424-1425 | the index of the last `/`, or -1 when there is none; no `/` follows it |
| Version.MatchEndAtSound | ipsw_firmware_tool.py:1428-1429 | what the scan at a start returns is a match of the pattern, with a maximal final digit run |
| Version.RunEndOf | ipsw_firmware_tool.py:1428-1429 | a digit run followed by a non-digit ends where the greedy scan stops |
| Version.MatchEndAtComplete | ipsw_firmware_tool.py:1428-1429 | wherever the pattern matches, the scan at that start succeeds and reaches at least as far |
| Version.RunEndReaches | ipsw_firmware_tool.py:1428-1429 | the greedy scan covers every digit run that starts at the same place |
| Version.SearchFromLeftmost | ipsw_firmware_tool.py:1428-1429 | the search returns the leftmost start with a match, or none when nothing matches |
| Version.NoMatchAt | ipsw_firmware_tool.py:1428-1429 | where the greedy scan fails no match starts at all |
| Version.VersionSpec | ipsw_firmware_tool.py:1428-1430 | the version is `Unknown` iff the pattern matches nowhere; otherwise it is the leftmost match, with a maximal last run |
| Version.SearchFrom | ipsw_firmware_tool.py:1428-1429 | a match it finds starts at or after the starting index and ends inside the name; it is the leftmost one (`SearchFromLeftmost`) |
| Version.ExtractVersion | ipsw_firmware_tool.py:1428-1430 | `Unknown` iff the pattern matches nowhere in the name; otherwise the leftmost match with a maximal last digit run (`VersionSpec`), never `Unknown` then (`MatchNotUnknown`) |
| Text.Lower | ipsw_firmware_tool.py:1491 | `str.lower` keeps the length and leaves no upper-case letter |
| Text.Upper | ipsw_firmware_tool.py:1514 | `str.upper` keeps the length and leaves no lower-case letter |
| Text.Title | ipsw_firmware_tool.py:1522 | `str.title` keeps the length and starts with no lower-case letter |
| Text.ContainsExtend | ipsw_firmware_tool.py:1497 | a keyword that occurs in a text still occurs once more text is appended |
| Text.NatToString | ipsw_firmware_tool.py:1543-1547 | a counter renders as a non-empty string of digits |
| Text.NatToStringRoundTrip | ipsw_firmware_tool.py:1543-1547 | reading the rendered counter back gives the counter |
| Text.JoinContainsLine | ipsw_firmware_tool.py:1582-1586 | every line of a `"\n".join` occurs in the joined text |
| Text.JoinContainsMember | ipsw_firmware_tool.py:1582-1586 | every member line occurs in the joined text |
| Text.KeysOf | ipsw_firmware_tool.py:1083 | the keys of a dictionary, one per entry, in insertion order |
| ComponentKnowledge.Put | ipsw_firmware_tool.py:1091-1098 | `d[k] = v` keeps an existing key's place or adds the key last, maps `k` to `v` and leaves other keys alone |
| ComponentKnowledge.PutIdempotent | ipsw_firmware_tool.py:1091-1098 | writing the same entry twice equals writing it once |
| ComponentKnowledge.FirstKeyMatch | ipsw_firmware_tool.py:1083-1087 | the result is a keyword contained case-insensitively in the name, and no earlier keyword is; none means no keyword is |
| ComponentKnowledge.ResolveKeepsKeyword | ipsw_firmware_tool.py:1083-1098 | the artifact rules never change the component type |
| ComponentKnowledge.ResolveComponentType | ipsw_firmware_tool.py:1076-1087 | the type is the first contained keyword in table order, or `unknown` when none is contained |
| ComponentKnowledge.ResolveUnknown | ipsw_firmware_tool.py:1076-1100 | with no keyword and no artifact marker: `unknown`, empty description, empty impact, table unchanged |
| ComponentKnowledge.ArtifactMarkers | ipsw_firmware_tool.py:1090-1098 | the markers are tried in the order `dmg.trustcache`, `.root_hash`, `.plist`; each has its own description and impact entry; a name with no marker has no rule |
| ComponentKnowledge.ResolveArtifact | ipsw_firmware_tool.py:1089-1098 | with a marker, the analysis keeps the keyword's type, takes the rule's description and maps the rule's key to its text, whatever keyword matched; with none it is the keyword analysis |
| ComponentKnowledge.ArtifactStepTable | ipsw_firmware_tool.py:1085-1098 | the artifact write changes only the matched entry, and only its impact, which becomes the analysis's impact |
| ComponentKnowledge.ResolveTableEffect | ipsw_firmware_tool.py:1085-1098 | resolution keeps keywords and descriptions; only the matched entry changes, and its impact is the analysis's impact (one object) |
| ComponentKnowledge.FirstKeyMatchShape | ipsw_firmware_tool.py:1083-1087 | the keyword scan depends on keywords only |
| ComponentKnowledge.ResolveHistoryIndependent | ipsw_firmware_tool.py:1083-1098 | type and description do not depend on earlier writes into the table |
| ComponentKnowledge.ResolveIdempotent | ipsw_firmware_tool.py:1074-1100 | analysing the same name again gives the same analysis and leaves the table as it was |
| ComponentKnowledge.ImpactCarriesOver | ipsw_firmware_tool.py:1085-1098 | an artifact write made for one file shows up in a later analysis of a file with the same keyword |
| ComponentKnowledge.InitialTable | ipsw_firmware_tool.py:167-201 | the declared knowledge base: keywords `kernelcache`, `iBoot`, `trustcache`, `root_hash` (`Engine.ShapeKeys`), each entry with a non-empty impact (`InitialImpactsFilled`) |
| ComponentKnowledge.InitialImpactsFilled | ipsw_firmware_tool.py:167-201 | every entry of the declared knowledge base has a non-empty impact dictionary |
| ComponentKnowledge.ArtifactRule | ipsw_firmware_tool.py:1089-1098 | each marker has its own description and impact entry, tried in the order of the code (`ArtifactMarkers`) |
| ComponentKnowledge.Resolve | ipsw_firmware_tool.py:1074-1100 | `_analyze_component`: the type is the first contained keyword (`ResolveComponentType`), the artifact rules override the description and add an impact entry (`ResolveArtifact`), only the matched entry of the table changes (`ResolveTableEffect`), and a second call changes nothing (`ResolveIdempotent`) |
| ComponentKnowledge.DescribedShape | ipsw_firmware_tool.py:1083-1098 | whether a name matches a keyword or carries an artifact marker depends on the keywords only |
| ComponentKnowledge.ArtifactStepFilled | ipsw_firmware_tool.py:1085-1098 | on a knowledge base whose profiles all have impact entries, the artifact write keeps them so, and a matched keyword or an applied rule hands out impact entries |
| ComponentKnowledge.ResolveImpactDescribed | ipsw_firmware_tool.py:1076-1100 | an analysis with impact entries comes from a keyword or an artifact marker |
| ComponentKnowledge.ResolveImpactFilled | ipsw_firmware_tool.py:1074-1100 | on a filled knowledge base, a name with a keyword or an artifact marker gets impact entries, and the base stays filled |
| ComponentKnowledge.ResolveImpact | ipsw_firmware_tool.py:1074-1100 | a non-empty impact means the name matched a keyword or carries an artifact marker; when every entry has a non-empty impact the converse holds, and that stays so after the call |
| Classifier.ChangeStats.Add | ipsw_firmware_tool.py:1498 | `change_stats[category] += n` raises that counter by `n` and leaves the others, `feature` included |
| Classifier.MatchCount | ipsw_firmware_tool.py:1496-1497 | a category cannot match more often than it has patterns |
| Classifier.ImpactLines | ipsw_firmware_tool.py:1521-1522 | one `- Type: text` line per impact entry, in dictionary order |
| Classifier.PatternsFoldTally | ipsw_firmware_tool.py:1496-1507 | a category's pattern loop adds one count and one list entry per matching pattern |
| Classifier.MatchStepTally | ipsw_firmware_tool.py:1497-1507 | a matching pattern adds one count and one list entry, for its own category only |
| Classifier.Keywords | ipsw_firmware_tool.py:1449-1483 | the pattern table: `kernelcache` hits two performance patterns and a critical one (`KernelcacheHits`) |
| Classifier.Hits | ipsw_firmware_tool.py:1496-1497 | a category matches a file at most once per pattern (`MatchCount`), and at least once iff one of its keywords occurs in the lower-cased path (`MatchCountPositive`) |
| Classifier.TallyOf | ipsw_firmware_tool.py:1490-1507 | the closed form of the loop's counters and lists, equal to the loop (`FilesFoldTally`); each list is as long as its counter (`CategoryListLength`) |
| Classifier.CategoriesFoldTally | ipsw_firmware_tool.py:1495-1507 | a file's category loop applies each category's matches in table order |
| Classifier.RecordFileOrder | ipsw_firmware_tool.py:1495 | the category loop visits security, performance, boot, system, critical |
| Classifier.RecordFileAll | ipsw_firmware_tool.py:1490-1507 | one more file extends the closed-form tally by exactly that file's matches |
| Classifier.RecordChain | ipsw_firmware_tool.py:1495-1507 | the five category steps of one file each touch only their own counter and list |
| Classifier.FilesFoldRecords | ipsw_firmware_tool.py:1490-1507 | the file loop's tally does not depend on what the analyses write into the table |
| Classifier.RecordFilesClosed | ipsw_firmware_tool.py:1490-1507 | the file-by-file tally from zero equals the closed form |
| Classifier.FilesFoldTally | ipsw_firmware_tool.py:1490-1507 | the loop's counters and lists equal the closed form: per category, the sum of matching patterns; each list repeats a file once per match |
| Classifier.CategoryListLength | ipsw_firmware_tool.py:1498-1507 | each component list is as long as its counter |
| Classifier.MatchCountPositive | ipsw_firmware_tool.py:1496-1497 | some pattern of a category matches iff one of its keywords occurs |
| Classifier.CategoryListMembers | ipsw_firmware_tool.py:1502-1507 | a path is in a category's list iff it is a modified file that matches the category |
| Classifier.CategoryCountPositive | ipsw_firmware_tool.py:1498 | a counter is positive iff some modified file matches the category |
| Classifier.CategoryCountAppend | ipsw_firmware_tool.py:1490-1498 | counters add up over concatenated file lists |
| Classifier.CategoryCountBound | ipsw_firmware_tool.py:1490-1498 | a counter is at most the number of files times the category's pattern count |
| Classifier.KernelcacheHits | ipsw_firmware_tool.py:1459-1484 | `kernelcache` counts twice as performance and at least once as critical |
| Classifier.MatchStepGrows | ipsw_firmware_tool.py:1510-1522 | a match only appends technical and impact lines, and keeps the table's shape |
| Classifier.PatternsFoldGrows | ipsw_firmware_tool.py:1496-1522 | the pattern loop only appends lines |
| Classifier.CategoriesFoldGrows | ipsw_firmware_tool.py:1495-1522 | the category loop only appends lines |
| Classifier.FilesFoldGrows | ipsw_firmware_tool.py:1490-1522 | the whole loop only appends lines and keeps the table's keywords and descriptions |
| Classifier.PatternsFoldNames | ipsw_firmware_tool.py:1513 | a matching pattern emits the file's `Component:` line |
| Classifier.CategoriesFoldNames | ipsw_firmware_tool.py:1513 | a file that matches any category gets a `Component:` line |
| Classifier.FilesFoldNames | ipsw_firmware_tool.py:1490-1513 | every modified file that matches a category appears in the technical lines |
| Classifier.TechnicalBlockLines | ipsw_firmware_tool.py:1512-1516 | a match emits `\nComponent: file` then `Category: CATEGORY`, and `Description: d` exactly when the description is non-empty; each of these lines occurs once in the block |
| Classifier.LinesInjective | ipsw_firmware_tool.py:1512-1516 | different files, categories or descriptions give different technical lines |
| Classifier.TotalHitsSum | ipsw_firmware_tool.py:1495-1497 | a file's total number of matching patterns is the sum over the five categories, positive iff some category matches |
| Classifier.MatchStepTechnical | ipsw_firmware_tool.py:1510-1516 | a match appends its file's technical block, whose description does not depend on earlier writes into the table |
| Classifier.PatternsFoldTechnical | ipsw_firmware_tool.py:1496-1516 | a category's pattern loop appends one technical block per matching pattern, with the file's description |
| Classifier.CategoriesFoldTechnical | ipsw_firmware_tool.py:1495-1516 | a file's category loop appends each category's blocks in table order |
| Classifier.FilesFoldTechnical | ipsw_firmware_tool.py:1490-1516 | the file loop appends each file's blocks in order; descriptions do not depend on earlier writes into the table |
| Classifier.TechnicalOfFold | ipsw_firmware_tool.py:1490-1516 | the loop's technical lines are the closed form `TechnicalOf` |
| Classifier.TechnicalOfCount | ipsw_firmware_tool.py:1490-1516 | the line `\nComponent: f` occurs (copies of `f` among the modified files) times (its matching patterns over all categories); `Category: C` occurs as often as C's counter |
| Classifier.TechnicalOfDescriptions | ipsw_firmware_tool.py:1490-1516 | a `Description: d` line occurs iff some modified file with a matching pattern resolves to description `d` |
| Classifier.FilesFoldTechnicalCount | ipsw_firmware_tool.py:1490-1516 | the loop's technical lines: the closed form, the component and category line counts, and the description iff |
| Classifier.ImpactBlockHeading | ipsw_firmware_tool.py:1519-1520 | a match's impact lines hold the heading of `f` iff `f` is the matched file and its impact is non-empty |
| Classifier.MatchStepHeading | ipsw_firmware_tool.py:1510-1522 | a match adds the heading of its file iff the resolved impact is non-empty |
| Classifier.PatternsFoldHeadings | ipsw_firmware_tool.py:1496-1522 | a heading added by a pattern loop belongs to its file, which has a matching pattern and a non-empty resolved impact |
| Classifier.CategoriesFoldHeadings | ipsw_firmware_tool.py:1495-1522 | a heading added by a file's category loop belongs to that file, with a matching pattern and a non-empty resolved impact |
| Classifier.FilesFoldHeadings | ipsw_firmware_tool.py:1490-1522 | a heading added by the file loop names a modified file with a matching pattern and a non-empty resolved impact; with all table impacts non-empty, every such file gets one |
| Classifier.FilesFoldImpactHeadings | ipsw_firmware_tool.py:1490-1522 | the impact heading of `f` appears only if `f` is modified, matches some pattern and matches a keyword or artifact marker; from a table whose impacts are all non-empty, as declared, the converse holds |
| Classifier.PriorityOfFiles | ipsw_firmware_tool.py:1558-1560 | HIGH iff some file is critical or more than 2 security matches; MEDIUM and LOW exactly in the remaining cases |
| Classifier.PriorityMonotone | ipsw_firmware_tool.py:1558-1560 | more modified files never lower the summary priority |
| Classifier.SummaryPriority | ipsw_firmware_tool.py:1558-1560 | HIGH iff a critical match or more than 2 security matches; MEDIUM and LOW in the remaining cases (`PriorityOfFiles`); monotone in the files (`PriorityMonotone`) |
| Classifier.ListLines | ipsw_firmware_tool.py:1527-1528 | one `- path` line per critical entry, in order |
| Classifier.DetailedAnalysisKeepsShape | ipsw_firmware_tool.py:1490-1522 | the analysis leaves the knowledge base's keywords and descriptions as they were |
| Classifier.DetailedAnalysisPriority | ipsw_firmware_tool.py:1557-1561 | the summary states the priority that the counters call for |
| Classifier.SummaryCounters | ipsw_firmware_tool.py:1542-1547 | the summary states the priority and the five category counters of the modified files |
| Classifier.SummaryTotals | ipsw_firmware_tool.py:1550-1554 | the summary states the numbers of added, removed, modified and unchanged files |
| Classifier.SummaryCritical | ipsw_firmware_tool.py:1525-1529 | the summary lists every modified file that matches a critical pattern |
| Classifier.CriticalListed | ipsw_firmware_tool.py:1525-1529 | every entry of the critical list gets its `- path` line |
| Classifier.DetailedAnalysisStates | ipsw_firmware_tool.py:1417-1586 | the summary states priority, counters, totals and every critical file; the technical block names every matching file; the table keeps its shape |
| Classifier.DetailedAnalysisTechnical | ipsw_firmware_tool.py:1490-1586 | the report's technical section is the closed form `TechnicalOf` of the modified files, joined with line breaks |
| Classifier.SummaryLines | ipsw_firmware_tool.py:1432-1580 | the summary states priority and counters (`SummaryCounters`), totals (`SummaryTotals`) and every critical file (`SummaryCritical`) |
| Classifier.DetailedAnalysis | ipsw_firmware_tool.py:1417-1586 | `_generate_detailed_analysis`: its properties are `DetailedAnalysisStates`, `DetailedAnalysisTechnical`, `DetailedAnalysisPriority` and `DetailedAnalysisKeepsShape` |
| Insights.AnyHitIff | ipsw_firmware_tool.py:1120-1123 | the pattern loop reaches its `break` iff some keyword occurs |
| Insights.Bump | ipsw_firmware_tool.py:1122 | `change_types[th] += 1` raises that count by one, leaves the others and keeps first-insertion order |
| Insights.TouchCount | ipsw_firmware_tool.py:1115-1123 | a theme touches at most every modified file |
| Insights.BumpWellCounted | ipsw_firmware_tool.py:1122 | incrementing keeps each theme listed once with a positive count |
| Insights.ConsWellCounted | ipsw_firmware_tool.py:1122 | a new theme with a positive count, put in front, keeps the counter well formed |
| Insights.WellCountedEntries | ipsw_firmware_tool.py:1148-1149 | each entry's count is that theme's count and is positive |
| Insights.FileCountsEffect | ipsw_firmware_tool.py:1119-1123 | a file adds one to each theme it touches, at most once per theme |
| Insights.ChangeTypesCount | ipsw_firmware_tool.py:1112-1123 | each theme's count is the number of files that touch it, at most the number of files |
| Insights.ChangeTypes | ipsw_firmware_tool.py:1112-1123 | each theme's count is the number of files that touch it (`ChangeTypesCount`), positive iff one does (`TouchCountPositive`), additive over file lists (`TouchCountAppend`) |
| Insights.FileComponentsMembers | ipsw_firmware_tool.py:1135-1137 | a file contributes exactly the keywords it contains case-insensitively |
| Insights.ComponentSetMembers | ipsw_firmware_tool.py:1133-1137 | `component_changes` holds exactly the keywords some modified file contains case-insensitively |
| Insights.ComponentSet | ipsw_firmware_tool.py:1133-1137 | exactly the keywords some modified file contains case-insensitively (`ComponentSetMembers`) |
| Insights.LargeScaleIff | ipsw_firmware_tool.py:1129-1130 | the large-update note appears iff more than 20 files changed |
| Insights.InsightNotesMember | ipsw_firmware_tool.py:1126-1172 | a note is in the insights iff it is the banner, the large-update note when more than 20 files changed, or a note of one of the sections |
| Insights.InteractionNotesTwo | ipsw_firmware_tool.py:1140-1145 | each of the two interactions is reported iff all its components changed |
| Insights.InteractionIff | ipsw_firmware_tool.py:1133-1145 | an interaction's impact is reported iff each of its components occurs case-insensitively in some modified file |
| Insights.FiresIff | ipsw_firmware_tool.py:1133-1145 | an interaction fires iff each of its components occurs case-insensitively in some modified file |
| Insights.ImpactNoteIff | ipsw_firmware_tool.py:1140-1145 | an interaction's impact line appears iff it fires |
| Insights.ThemeNotesMember | ipsw_firmware_tool.py:1148-1152 | a positive count yields the theme's heading, explanation and count lines |
| Insights.ThemeEntry | ipsw_firmware_tool.py:1148 | a theme that some file touches has an entry in the counter |
| Insights.ThemeNotesStated | ipsw_firmware_tool.py:1147-1152 | a touched theme gets its heading, explanation and the number of files that touch it |
| Insights.InsightPriorityStated | ipsw_firmware_tool.py:1165-1167 | High iff more than 2 files touch security; else Medium iff more than 10 files; else Low; the line is emitted |
| Insights.PriorityLevels | ipsw_firmware_tool.py:1165-1167 | the insight priority is High iff the security count exceeds 2, Medium iff not and more than 10 files, Low otherwise |
| Insights.PriorityNoteListed | ipsw_firmware_tool.py:1164-1167 | the insights state the insight priority |
| Insights.SecurityNotesOfCounts | ipsw_firmware_tool.py:1155-1172 | re-authentication and backup notes appear iff the security count is positive |
| Insights.SecurityNotesCount | ipsw_firmware_tool.py:1156-1170 | the two security notes appear iff the security count is positive |
| Insights.SecurityNotesIff | ipsw_firmware_tool.py:1115-1170 | the re-authentication and backup notes appear iff some modified file touches the security theme |
| Insights.TouchCountPositive | ipsw_firmware_tool.py:1115-1123 | a theme's count is positive iff some file touches it |
| Insights.TouchCountAppend | ipsw_firmware_tool.py:1115-1123 | counts add up over concatenated file lists |
| Insights.InsightPriorityMonotone | ipsw_firmware_tool.py:1165-1166 | more modified files never lower the insight priority |
| Insights.InsightPriority | ipsw_firmware_tool.py:1165-1166 | High iff the security count exceeds 2, Medium iff not and more than 10 files, Low otherwise (`PriorityLevels`); monotone in the files (`InsightPriorityMonotone`) |
| Insights.InsightNotes | ipsw_firmware_tool.py:1126-1172 | a note is present iff it is the banner, the large-update note, or a section note (`InsightNotesMember`); the interaction, theme, security and priority notes appear under the conditions proved above |
| Insights.InsightText | ipsw_firmware_tool.py:1102-1174 | the insights as text: the rendered notes of `InsightNotes`, joined with line breaks; computed by `Engine.FirmwareComparer.PerformAiAnalysis` |
| Engine.ShapeKeys | ipsw_firmware_tool.py:167-201 | a knowledge base with the initial shape lists `kernelcache`, `iBoot`, `trustcache`, `root_hash` |
| Engine.AnalysisStates | ipsw_firmware_tool.py:859-868 | a run's summary and technical blocks are the detailed analysis's; its impact block is the analysis's impact block, a blank line and the insights over the four component keywords; the knowledge base keeps its shape |
| Engine.Analysis | ipsw_firmware_tool.py:862-868 | what the run makes of a change set, whose sections `AnalysisStates` states |
| Engine.Comparison | ipsw_firmware_tool.py:855-878 | the run as written: the error of `_compare_directories` when it raises (`ComparisonFails`), which it does when a tree-1 file is a tree-2 directory (`ComparisonAborts`); otherwise the analysis of its change set, equal to the corrected run when no path clashes (`ComparisonAgrees`) |
| Engine.CorrectedComparison | ipsw_firmware_tool.py:855-868 | the run over the corrected change set `TreeDiff.Diff`, which cannot fail |
| Engine.ComparisonFails | ipsw_firmware_tool.py:855-878 | the run fails iff the comparison as written raises, with the same error, which goes to the handler |
| Engine.ComparisonAborts | ipsw_firmware_tool.py:859-878 | a tree-1 file that is a directory of tree 2 makes the run as written fail |
| Engine.ComparisonAgrees | ipsw_firmware_tool.py:855-868 | with no file/directory clash, the run as written succeeds with the corrected run's report and knowledge base |
| Engine.PrioritiesDisagree | ipsw_firmware_tool.py:1558-1560 | with at most two modified files, one of them critical, the summary says HIGH while the insights say Low |
| Engine.KernelcacheAloneDisagrees | ipsw_firmware_tool.py:1558-1560 | a run that modifies only `kernelcache` is HIGH in the summary and Low in the insights |
| Engine.FirmwareComparer.constructor | ipsw_firmware_tool.py:163-201 | the comparer starts with the declared knowledge base |
| Engine.FirmwareComparer.WriteImpact | ipsw_firmware_tool.py:1091-1098 | the impact write reaches the matched table entry through the shared dictionary |
| Engine.FirmwareComparer.AnalyzeComponent | ipsw_firmware_tool.py:1074-1100 | the keyword loop with `break` and the artifact rules give exactly `Resolve`'s analysis and new table, keeping the knowledge base's shape |
| Engine.FirmwareComparer.KeywordScan | ipsw_firmware_tool.py:1083-1087 | the keyword loop with `break` stops at the first contained keyword and copies that entry |
| Engine.FirmwareComparer.ApplyArtifacts | ipsw_firmware_tool.py:1090-1098 | the artifact rule sets the description and writes its impact entry into the shared dictionary |
| Engine.FirmwareComparer.ImpactBlockOf | ipsw_firmware_tool.py:1519-1522 | the impact loop emits the heading and one line per impact entry |
| Engine.FirmwareComparer.TechnicalBlockOf | ipsw_firmware_tool.py:1512-1516 | the lines it appends are `TechnicalBlock`: component line first, upper-cased category second, the description line iff the description is non-empty (`Classifier.TechnicalBlockLines`) |
| Engine.FirmwareComparer.CountMatch | ipsw_firmware_tool.py:1498-1507 | one match raises its counter and appends the file to its category's list |
| Engine.FirmwareComparer.RecordMatch | ipsw_firmware_tool.py:1497-1522 | the body of a match is one step of the specification fold, table write included |
| Engine.FirmwareComparer.ClassifyCategory | ipsw_firmware_tool.py:1496-1522 | the pattern loop equals the pattern fold |
| Engine.FirmwareComparer.ClassifyFile | ipsw_firmware_tool.py:1495-1522 | the category loop equals the category fold |
| Engine.FirmwareComparer.ClassifyFiles | ipsw_firmware_tool.py:1490-1522 | the file loop equals the file fold |
| Engine.FirmwareComparer.CriticalBlock | ipsw_firmware_tool.py:1525-1529 | the critical-components block, with its loop over the list |
| Engine.FirmwareComparer.SummaryOf | ipsw_firmware_tool.py:1432-1580 | the summary lines are exactly `SummaryLines`, whose contents `SummaryCounters`, `SummaryTotals` and `SummaryCritical` state |
| Engine.FirmwareComparer.GenerateDetailedAnalysis | ipsw_firmware_tool.py:1417-1586 | the report and the new knowledge base are exactly `DetailedAnalysis`'s, whose properties are proved in Classifier; the shape is kept |
| Engine.FirmwareComparer.CountChangeTypes | ipsw_firmware_tool.py:1112-1123 | the counting loops with `break` give `ChangeTypes` |
| Engine.FirmwareComparer.CountFileThemes | ipsw_firmware_tool.py:1119-1123 | the theme loop for one file gives `FileCounts` |
| Engine.FirmwareComparer.ThemeHit | ipsw_firmware_tool.py:1120-1123 | the pattern loop of one theme reaches its `break` iff some keyword of the theme occurs |
| Engine.FirmwareComparer.ComponentChanges | ipsw_firmware_tool.py:1133-1137 | the nested loops give `ComponentSet` over the knowledge base's keywords |
| Engine.FirmwareComparer.InteractionNotesOf | ipsw_firmware_tool.py:1140-1145 | the interaction loop gives `InteractionNotes` |
| Engine.FirmwareComparer.ThemeNotesOf | ipsw_firmware_tool.py:1148-1152 | the theme loop gives `ThemeNotes` |
| Engine.FirmwareComparer.BehaviorSection | ipsw_firmware_tool.py:1155-1161 | the behavioural section gives `BehaviorNotes` |
| Engine.FirmwareComparer.RecommendationSection | ipsw_firmware_tool.py:1164-1172 | the recommendations, with their inline priority, give `AdviceNotes` |
| Engine.FirmwareComparer.PerformAiAnalysis | ipsw_firmware_tool.py:1102-1174 | the insight text is exactly `InsightText` over the knowledge base's keywords, whose properties are proved in Insights |
| Engine.FirmwareComparer.AnalyseChanges | ipsw_firmware_tool.py:862-868 | the analysis and the appended insights give exactly `Analysis`'s report and knowledge base; the knowledge base keeps its shape |
| Engine.FirmwareComparer.RunComparison | ipsw_firmware_tool.py:855-878 | the run as written: when `Comparison` fails, the same error and an untouched knowledge base; otherwise its report and knowledge base; the shape is kept |
| Engine.FirmwareComparer.RunCorrected | ipsw_firmware_tool.py:855-868 | the run with the corrected comparison gives exactly `CorrectedComparison`'s report and knowledge base; the shape is kept |

## Left out

- The GUI: windows, themes, menus, file dialogs, exporters, the about and
  documentation windows, and the update check. None of it is part of the
  analysis.
- Threading, progress reporting, logging, and the temporary directory. The
  model covers the comparison proper.
- Archive extraction (`_extract_ipsw`, zip). A run starts from the two
  extracted trees, given as values.
- File system access. A tree is a value holding its walk, its file contents
  and its directory paths. The walk order is whatever the tree gives.
  Symbolic links, permission errors and read failures are not modelled.
- SHA-256. The digest is the function parameter `hash`. Collision-freedom
  appears only as a lemma hypothesis.
- The clock. `datetime.now().strftime(...)` is the string parameter `now`.
- Version.VersionSpec: `\d` is modelled as the ASCII digits `0`-`9`
  (`Text.IsDigit`, `Version.DigitRun`). Python's `re` on a `str` also
  matches other Unicode decimal digits, such as Arabic-Indic digits. A name
  whose version uses them is `Unknown` in the model.
- TreeDiff.DiffPartition: existence is exact path membership
  (`TreeDiff.Exists`, and set membership in `TreeDiff.FirstPass` and
  `TreeDiff.SecondPass`). On a case-insensitive file system, the macOS
  default, `os.path.exists` also finds `foo` when asked for `Foo`. There, a
  file renamed only in case is compared as one file. In the model it is
  removed and added.
- Version.Basename: the archive's base name is POSIX `os.path.basename`,
  which splits at `/` only. On Windows, where the tool is also built,
  `ntpath.basename` also splits at `\` and after a drive letter such as
  `C:`. For `C:\fw\16.0.1\iPhone_17.0.1_Restore.ipsw` the code there shows
  version `17.0.1` and the bare file name, while the model keeps the whole
  path and finds `16.0.1`.
- Unicode case mapping. `Text.Lower`, `Text.Upper` and `Text.Title` map
  ASCII letters only. Python maps every Unicode letter.
- Classifier.MatchCount: a pattern `.*kw.*` tried with `re.match` is
  modelled as a substring test. In Python, `.` does not match a line break,
  so a path with a line break before the keyword does not match there. The
  model ignores line breaks in paths.
- `_run_comparison`'s status updates, logging, the cleanup and
  `_show_results`. The exception handler is modelled as the `Err` result
  of `Engine.Comparison`, carrying the path whose hashing failed. What
  `_handle_error` shows is not modelled.
- `_perform_ai_analysis`'s exception branch (lines 1176-1178). No step
  modelled here raises.
- Insights: reading `change_types['security']` on the `defaultdict` inserts
  a zero entry. This happens after the theme loop, so the text does not
  change, and the model does not insert the entry.
- The `security_focused` and `feature_update` entries of `change_patterns`.
  The code never reads them.
- Interaction names are split at `" + "` in the code. The model stores the
  split lists in `Insights.Interactions`.
- The character encoding of the report. The source file spells the arrow,
  check mark and bullet as mis-decoded byte sequences. They are kept as the
  same code points (`Classifier.Arrow`, `Classifier.CheckMark`,
  `Insights.Bullet`).
- `build.py` (packaging) is not part of this model.

## Findings

| source | as written | input that shows it | evidently intended | confidence | as-written member | corrected member |
|---|---|---|---|---|---|---|
| ipsw_firmware_tool.py:940-952 | existence of the counterpart path is tested with `os.path.exists`, which is also true for a directory | tree 1 has a directory `Firmware`, tree 2 a file `Firmware`: the file is in no list. The other way round, hashing the directory raises and the run fails | a path counts as present only when the other tree has a file there, so every file lands in exactly one list | medium, not executed | TreeDiff.DirectoryClashAsWritten | TreeDiff.DiffPartition |

The code as written is `TreeDiff.DiffAsWritten`, computed by
`TreeDiff.CompareDirectories`. The run as written, `Engine.Comparison`
(computed by `Engine.FirmwareComparer.RunComparison`), uses it and fails
with its error (`Engine.ComparisonAborts`). The corrected differencer is
`TreeDiff.Diff`, computed by `TreeDiff.CompareTrees`. The corrected run,
`Engine.CorrectedComparison` (computed by
`Engine.FirmwareComparer.RunCorrected`), uses it. On trees where no path is
a file in one tree and a directory in the other, the two agree
(`TreeDiff.NoClashAgree`, `Engine.ComparisonAgrees`).
