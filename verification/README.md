# AI code reviewer: analyzer, auto-fixer, review engine and CLI checks in Dafny

This project models the core of a Python code-review tool:

- **The code-quality analyzer** (`CodeQualityAnalyzer`).
  - It walks a parsed module breadth-first, as `ast.walk` does.
  - Ten smell detectors report `CodeSmell` records: long methods, god classes, deep nesting, long parameter lists, missing type hints, unused imports, many local variables, feature envy, exception swallowing and unreachable code.
  - It computes `count_lines`, the nesting depth, cyclomatic complexity, the simplified Halstead volume, the maintainability index and the per-file quality score.
  - It keeps the `files` dictionary and the project-wide smell list.
  - It aggregates them into the project report.
- **The auto-fix engine.**
  - The line-level fixer comments out the lines that unused-import smells point at.
  - The AI fixer cuts a definition's source out of the file, splices in the AI's rewrite, and rolls the whole file back when the patched text no longer parses.
- **The review engine.**
  - It writes one comment per smell.
  - The text comes from OpenRouter, then Ollama, then the rule-based templates.
  - The severity is normalised to `info`, `warning` or `critical`.
- **The computing parts of the command-line front end.**
  - Docstring coverage, overall and per file.
  - The `--min-coverage` abort.
  - The quality gate.

Everything outside the program's own logic is a parameter:

- the file system: `read` gives a file's text, and `SourceFile.tree` says what a file parses to;
- the parser: `parse`;
- the natural and binary logarithms: `ln`, `log2`;
- the AI engines: `ai`, `openrouter`, `ollama`;
- the rule-based templates: `rule`.

What the fixers write comes back as a list of `Write(path, text)` records, in order.

Modules, in dependency order:

| module | file | models |
|---|---|---|
| `Wrappers` | wrappers.dfy | `Option` and `Result` |
| `Syntax` | syntax.dfy | the Python syntax tree the detectors read (parameter lists, `match` cases and `try ... except*` included), and its child order |
| `Traversal` | walk.dfy | `ast.walk` as a breadth-first enumeration, with pre-order as its structural reference |
| `Text` | text.dfy | `join`, `splitlines`, `strip`, `lower`, `split('.')[0]` |
| `Smells` | smells.dfy | severities and their weights, smell kinds, `CodeSmell` |
| `Metrics` | metrics.dfy | `count_lines`, `find_max_nesting`, `cyclomatic_complexity`, `halstead_volume`, `calculate_mi`, quality score |
| `Detectors` | detectors.dfy | smell detectors 1 to 9 |
| `Unreachable` | unreachable.dfy | detector 10 and `_mark_unreachable_in_block` |
| `Analyzer` | analyzer.dfy | `analyze_file`, `files`/`smells` state, `compute_project_metrics`, `analyze_project` |
| `Fixer` | autofix.dfy | `apply_fixes`, `_get_ai_fix`, `_get_node_source`, `_replace_node_source`, `_find_target_node`, `apply_ai_fixes` |
| `Review` | review.dfy | `_normalize_severity`, `generate_review_comments` |
| `Cli` | cli.dfy | `compute_docstring_coverage`, per-file percentages, `--min-coverage`, `gate` |

## Model

| member | source | states |
|---|---|---|
| Traversal.WalkTally | code_quality_analyzer.py:411-419 | summing any per-node measure over the breadth-first `ast.walk` order equals the sum over the tree's structure, so every walk-based count is a property of the tree alone |
| Traversal.WalkPermutesPreorder | code_quality_analyzer.py:78 | `ast.walk` yields a permutation of the tree's pre-order: every node exactly once |
| Traversal.WalkMember | code_quality_analyzer.py:85-86 | a node is visited by `ast.walk` exactly when it occurs in the tree |
| Traversal.WalkCount | code_quality_analyzer.py:382-384 | counting the nodes of the walk that satisfy a predicate equals the structural count |
| Traversal.FlatMapOfOptional | code_quality_analyzer.py:85-98 | a detector that reports at most one smell per node reports exactly one smell for each node meeting its condition, and nothing else |
| Text.SplitUnlines | autofix_engine.py:49 | splitting text written as newline-terminated lines gives those lines back |
| Text.SplitJoin | autofix_engine.py:111 | splitting newline-joined lines gives them back when the last line is not empty |
| Text.JoinThenNewline | autofix_engine.py:92 | `"\n".join(lines) + "\n"` of a non-empty list is the newline-terminated text of those lines |
| Text.LStrip | autofix_engine.py:61 | `lstrip` removes exactly a blank prefix and leaves a non-blank first character |
| Text.Lower | ai_review_engine.py:36 | `lower` keeps the length and lower-cases each ASCII letter in place |
| Text.BeforeFirst | code_quality_analyzer.py:175 | `split('.')[0]` is a dot-free prefix that stops at the first dot |
| Smells.PenaltyBounds | code_quality_analyzer.py:52-54 | every smell adds between 1 and 5 penalty points |
| Smells.PenaltyByCounts | code_quality_analyzer.py:330 | the smell penalty is 1·low + 2·medium + 3·high + 5·critical |
| Smells.PenaltyAppend | code_quality_analyzer.py:330 | the penalty of two smell lists together is the sum of their penalties |
| Smells.SeverityCountsPartition | code_quality_analyzer.py:477 | the four severity counts add up to the number of smells |
| Metrics.DefLinesCountItself | code_quality_analyzer.py:382-384 | `count_lines` of a `def` with a flat body is the body length plus one, because the `def` counts itself |
| Metrics.NestingShift | code_quality_analyzer.py:393-409 | starting the nesting scan deeper shifts its result by the same amount |
| Metrics.DefIsTransparent | code_quality_analyzer.py:401-407 | a `def` or `class` neither deepens nor resets nesting: its body is measured at its own level |
| Metrics.IfDeepens | code_quality_analyzer.py:401-404 | both branches of an `if` are measured one level deeper, so each `elif` nests one level further |
| Metrics.ComplexityAtLeastOne | code_quality_analyzer.py:411-419 | on parser-built trees the complexity is at least 1, and it equals one plus the structural count of decision points |
| Metrics.OperatorCount | code_quality_analyzer.py:423 | the fixed operator vocabulary has eight distinct entries |
| Metrics.LogFloorIsDead | code_quality_analyzer.py:423-451 | with eight fixed operators the `log2` argument is always at least 9, so the floor of 2 never applies |
| Metrics.MaintainabilityIndex | code_quality_analyzer.py:454-459 | the index lies in [0, 100] for every logarithm |
| Metrics.MiAntitoneInComplexity | code_quality_analyzer.py:454-459 | more cyclomatic complexity never raises the index |
| Metrics.QualityScore | code_quality_analyzer.py:329-331 | the file score is never negative, is at most `mi/20`, and is at most 5 for an index in range |
| Metrics.QualityScoreAntitone | code_quality_analyzer.py:329-331 | adding smells never raises a file's score, and a smell-free file scores exactly `mi/20` |
| Detectors.LongMethods | code_quality_analyzer.py:84-98 | one smell per plain `def` whose statement count exceeds 20, and no other |
| Detectors.LongMethodThresholds | code_quality_analyzer.py:84-98 | for a flat body, the smell fires from 20 body statements on, is critical from 50, and is low up to 24 |
| Detectors.MethodSeverityMonotone | code_quality_analyzer.py:386-391 | a longer method never gets a lower severity |
| Detectors.GodClasses | code_quality_analyzer.py:100-118 | one smell per class with more than 100 statements or more than 10 plain `def`s anywhere inside it |
| Detectors.ClassOutnumbersItsMethods | code_quality_analyzer.py:104-105 | a class always counts more statements than it holds methods |
| Detectors.DeepNestingSmells | code_quality_analyzer.py:120-132 | at most one smell per file, exactly when the maximal nesting exceeds 4; it is at line 1 and is high exactly above 6 |
| Detectors.LongParameterLists | code_quality_analyzer.py:134-148 | one smell per plain `def` with more than four positional parameters |
| Detectors.KeywordOnlyParamsIgnored | code_quality_analyzer.py:137 | positional-only parameters, `*args`, keyword-only parameters and `**kwargs` never change whether the smell fires |
| Detectors.MissingHints | code_quality_analyzer.py:150-165 | one smell per plain `def` with no annotated positional parameter and no return annotation |
| Detectors.OneHintSuffices | code_quality_analyzer.py:152-155 | one annotated positional parameter silences the smell; annotations on other parameters do not |
| Detectors.UnusedInOrder | code_quality_analyzer.py:168-182 | the unused names are exactly the imported top-level names never read, each listed once |
| Detectors.UnusedImportSmells | code_quality_analyzer.py:167-193 | at most one low smell at line 1, exactly when some import is unused, naming min(3, #unused) distinct unused names joined by ", " |
| Detectors.TupleNames | code_quality_analyzer.py:208-211 | a tuple target binds exactly the bare names directly inside it |
| Detectors.ManyLocals | code_quality_analyzer.py:195-233 | one smell per plain `def` that assigns more than eight distinct names |
| Detectors.FirstMax | code_quality_analyzer.py:261 | `max` picks the first base with the highest count |
| Detectors.EnviedBase | code_quality_analyzer.py:244-264 | a base is reported exactly when some foreign base is used at least 5 times and at least twice as often as `self`; it is the most-used foreign base |
| Detectors.EnvyInMethod | code_quality_analyzer.py:240-276 | a method of a class yields one smell exactly when it is a plain `def` that envies a foreign base |
| Detectors.EnvyInClass | code_quality_analyzer.py:236-276 | a class's envy smells are those of the methods written directly in its body |
| Detectors.FeatureEnvySmells | code_quality_analyzer.py:235-276 | every envy smell comes from a class of the file, and every class's envy smells are reported |
| Detectors.SwallowedIn | code_quality_analyzer.py:280-311 | a `try` yields one high smell per handler that is bare or `except Exception` and whose body is empty or a lone `pass` |
| Detectors.SwallowingSmells | code_quality_analyzer.py:278-311 | the file's swallowing smells are exactly those of its `try` statements |
| Unreachable.MarkBlockIsPieces | code_quality_analyzer.py:336-377 | the scan flags a statement exactly when an earlier statement of the same block is a return, raise, break or continue, and recurses into nested blocks |
| Unreachable.FlatBlockAfterTerminator | code_quality_analyzer.py:339-356 | in a flat block, every statement after the first terminator is flagged, in order, and nothing else |
| Unreachable.ReturnInsideIfIsNotTerminal | code_quality_analyzer.py:355-377 | an `if` whose branches both return does not make the following statements unreachable |
| Unreachable.MarkedSmellsShape | code_quality_analyzer.py:343-352 | every flagged statement becomes a medium unreachable-code smell of the file and the function |
| Unreachable.UnreachableSmells | code_quality_analyzer.py:312-320 | a smell is reported exactly when scanning the body of some plain `def` of the tree reports it; every one is medium, of the file, and named after that `def` |
| Analyzer.DetectSmells | code_quality_analyzer.py:84-320 | all ten detectors' smells belong to the analysed file |
| Analyzer.MeasureFile | code_quality_analyzer.py:72-331 | a file's `loc` is its statement count, its index lies in [0, 100], its score in [0, 5], and a smell-free file scores `mi/20` |
| Analyzer.Find | code_quality_analyzer.py:333 | finds the position of the first stored file with the given path, or reports that there is none |
| Analyzer.Lookup | code_quality_analyzer.py:333 | `files.get` finds an entry exactly when a stored file has that path |
| Analyzer.Store | code_quality_analyzer.py:333 | storing under a path makes it map to the new metrics; every other path keeps its entry; paths stay unique |
| Analyzer.AnalyzeFile | code_quality_analyzer.py:72-334 | the project smell list grows by the file's smells, the path maps to the file's metrics, and other paths are untouched |
| Analyzer.ReanalysisDoubleCounts | code_quality_analyzer.py:333-334 | analysing a path twice keeps one entry for it but appends its smells twice |
| Analyzer.ReanalysisInflatesReport | code_quality_analyzer.py:333-334 | re-analysing a stored path leaves the file count alone and raises the smell count |
| Analyzer.SumBounds | code_quality_analyzer.py:470-475 | the weighted MI sum is at most 100 per statement, and the score sum is at most 5 per file |
| Analyzer.Distribution | code_quality_analyzer.py:477 | the histogram holds exactly the severities that occur, each with its count |
| Analyzer.ComputeProjectMetrics | code_quality_analyzer.py:461-491 | both averages are zero when there are no files, and the project MI alone is zero when the files hold no statements; otherwise both averages stay in range; the histogram agrees with the smell list and sums to the total |
| Analyzer.AnalyzeAll | code_quality_analyzer.py:62-65 | the scan succeeds exactly when every public file parses, and otherwise fails with `SyntaxError` |
| Analyzer.PublicParseCons | code_quality_analyzer.py:62-65 | every public file parses exactly when the first one does (if public) and every later one does |
| Analyzer.AnalyzeAllStores | code_quality_analyzer.py:62-65 | a successful scan keeps the state valid, keeps every path stored before it, and stores every public path it read |
| Analyzer.AnalyzeAllFrames | code_quality_analyzer.py:62-65 | a successful scan leaves the entry of every path that no public file has untouched |
| Analyzer.AnalyzeProject | code_quality_analyzer.py:56-70 | a run reports exactly the public paths found, with averages in range, and fails on any unparsable public file |
| Fixer.Bound | autofix_engine.py:109-111 | a Python slice bound is clamped into the list and is unchanged when it is already inside it |
| Fixer.NodeSource | autofix_engine.py:107-111 | a node's source splits back into exactly its lines, and is empty past the end of the file |
| Fixer.ReplaceNodeSource | autofix_engine.py:113-120 | the lines before the node and after it are kept, and the new code's lines sit in between |
| Fixer.ReplaceWithOwnSource | autofix_engine.py:107-120 | putting a node's own source back changes nothing |
| Fixer.ShiftedSource | autofix_engine.py:107-120 | a node below a replaced span keeps its source, moved by as many lines as the replacement added or removed: `ReplaceNodeSource`'s last clause gives the kept suffix, and this lemma turns it into the node's source at the moved position |
| Fixer.StaleLineNumbers | autofix_engine.py:170-191 | one instance of that shift: once a patch adds a line above a node, the node's source looked up at its position in the unpatched tree, as the loop does, is the line above it |
| Fixer.FirstMatch | autofix_engine.py:127-134 | none is found exactly when no node matches; otherwise the result is the first matching `def`/`class` in walk order |
| Fixer.FindTarget | autofix_engine.py:122-134 | a found target is always a `def`, `async def` or `class` |
| Fixer.FilesOf | autofix_engine.py:40-44 | the files are grouped in order of first mention, each once, exactly the smells' files |
| Fixer.SmellsIn | autofix_engine.py:40-42 | a file's group holds exactly that file's smells |
| Fixer.MarkedIsCommented | autofix_engine.py:61-76 | a line the fixer has marked counts as commented, so no line is marked twice |
| Fixer.CommentOutSound | autofix_engine.py:51-90 | the loop keeps every line either as it was or marked once, and every fix well formed and traceable to a smell |
| Fixer.FixLines | autofix_engine.py:51-90 | a line is marked exactly when it was not a comment and an unused-import smell points at it; one fix per in-range unused-import smell |
| Fixer.FileFixes | autofix_engine.py:49-90 | the fixes of one readable file are well formed and come from that file's smells |
| Fixer.Readable | autofix_engine.py:44-47 | the files processed are exactly the readable ones |
| Fixer.FixesOf | autofix_engine.py:44-90 | every fix belongs to one of the processed files |
| Fixer.ApplyFixes | autofix_engine.py:36-94 | every fix is well formed and for an unused-import smell of a readable file; each readable smell file is written exactly once, with its fixed text, and no other file is written |
| Fixer.UntouchedFileKeepsText | autofix_engine.py:49-92 | the text written back for a non-empty, newline-terminated file with no unused-import smell is its original text |
| Fixer.EmptyFileGainsNewline | autofix_engine.py:49-92 | an empty file is written back as one newline |
| Fixer.ChooseFixer | autofix_engine.py:99-105 | fixes come from OpenRouter when it is configured, else from Ollama, else from nowhere |
| Fixer.NoFallbackForFixes | autofix_engine.py:101-102 | a configured OpenRouter without an answer leaves the smell unfixed even when Ollama could answer |
| Fixer.AiFoldSound | autofix_engine.py:166-203 | each attempted smell records one failure or one tentative patch, and without a patch the lines are unchanged |
| Fixer.RollBack | autofix_engine.py:217-219 | rolling back withdraws every tentative patch and keeps everything else about it |
| Fixer.AiFixFile | autofix_engine.py:149-220 | an unparsable file is skipped; otherwise something is written and it parses; one fix per attempted smell; patches survive only if the patched text parses, else the original is written back and every patch is withdrawn |
| Fixer.AiFileOutcome | autofix_engine.py:149-220 | a readable file is written once exactly when it parses, with parsable text |
| Fixer.Parsable | autofix_engine.py:158-162 | the files kept are exactly the readable ones that parse |
| Fixer.AiOver | autofix_engine.py:149-220 | the written paths are exactly the parsable files, in order |
| Fixer.ApplyAiFixes | autofix_engine.py:139-222 | fixes are only for allowed smell types (the default list when none is given) of the smells' files; every parsable smell file is written exactly once, no other file is written, and every write parses |
| Fixer.SilentAiChangesNothing | autofix_engine.py:174-220 | when the AI never answers, every attempt is a failure and the file keeps its lines |
| Review.LevelOf | ai_review_engine.py:39-46 | the fallback mapping always yields a level |
| Review.NormalizeSeverity | ai_review_engine.py:35-46 | the AI's severity is used when it is a level after lower-casing and stripping; otherwise low→info, medium→warning, high/critical→critical, and anything else→warning |
| Review.NormalizeIdempotent | ai_review_engine.py:35-46 | normalising a normalised severity again keeps it |
| Review.StaticSeverityLevels | ai_review_engine.py:39-46 | without an AI severity, each analyzer severity maps to its fixed level |
| Review.Consult | ai_review_engine.py:61-69 | OpenRouter's answer wins; Ollama is asked only when OpenRouter is off or silent; there is no answer exactly when both are off or silent |
| Review.CommentFor | ai_review_engine.py:61-90 | a comment sits at its smell's file and line with a level; OpenRouter's or the rule engine's text comes with the mapped analyzer severity |
| Review.GenerateReviewComments | ai_review_engine.py:48-94 | one comment per smell, in order, at its file and line, with a level; OpenRouter's or the rule engine's text comes with the mapped analyzer severity |
| Review.OllamaAnswersSecond | ai_review_engine.py:67-79 | when only Ollama answers, the comment carries its text and its normalised severity |
| Review.CommentAsWritten | ai_review_engine.py:61-90 | one smell's comment, as written, fails exactly when OpenRouter answers; otherwise it sits at the smell's file and line |
| Review.GenerateAsWritten | ai_review_engine.py:48-94 | as written, a review that succeeds has one comment per smell, in order, at its file and line; the lemmas below say when it fails and that it agrees with the corrected review otherwise |
| Review.OpenRouterAnswerFails | ai_review_engine.py:76-77 | as written, any OpenRouter answer aborts the whole review with an unpacking error |
| Review.AsWrittenAgreesWithoutOpenRouter | ai_review_engine.py:48-94 | as written and corrected agree whenever OpenRouter never answers |
| Cli.CountFile | cli.py:201-213 | a file's documented count never exceeds its total, and both are structural counts of its definitions |
| Cli.Scanned | cli.py:181-188 | a `.py` file is read alone; a directory contributes exactly its files whose names do not start with `__` |
| Cli.PerFile | cli.py:194-213 | exactly the files that parse get an entry |
| Cli.SumDocumented | cli.py:211-212 | the documented total never exceeds the overall total |
| Cli.ComputeCoverage | cli.py:179-216 | the totals are the sums of the per-file entries; the percentage is in [0, 100], 0 when there are no definitions, and 100 exactly when all are documented |
| Cli.Percent | cli.py:215 | the percentage lies in [0, 100] and is 100 exactly when all are documented |
| Cli.FilePercent | cli.py:163-168 | the per-file percentage is 100 exactly when all of the file's definitions are documented, including files with none |
| Cli.EmptyProjectFailsMinimum | cli.py:163-175 | a project without definitions reports 0% and fails any positive minimum, while each of its files shows 100% |
| Cli.FullCoverageNeverAborts | cli.py:170-175 | full coverage passes any minimum up to 100 |
| Cli.GatePassMeans | cli.py:236-242 | passing the gate means the average quality meets the minimum and there is not one high or critical smell |
| Cli.CountSeverityPositive | cli.py:239-240 | a smell of a severity makes that severity's count positive |
| Cli.DefaultGateAlwaysFails | cli.py:221-242 | with the default minimum of 6.0 the gate always fails, since no file scores above 5 |

## Left out

- File I/O is not modelled: reading, writing, `rglob` discovery, `is_file` checks and decode errors. Texts and trees are inputs, and writes are returned as data.
- The parser, `ast.get_docstring` beyond its first-statement rule, and `ast.parse` failures are not modelled. They are inputs: a tree or `None`.
- Console output, progress messages and `time.sleep` between requests are not modelled. They have no effect on results.
- The JSON, CSV and HTML report rendering is not modelled. It only formats the report.
- The HTTP calls, prompts and JSON parsing of the OpenRouter and Ollama engines, and the rule-based templates, are not modelled. They are the parameters `openrouter`, `ollama`, `ai` and `rule`.
- Configuration loading and the `click` wiring of the commands are not modelled.
- The `gate` command calls `scan` with keyword names that `scan` does not declare (cli.py:229). This is left out because it concerns the command wiring, not the gate's logic.
- Floating point is modelled with exact reals. The logarithms are parameters, so only the bounds that hold for every logarithm are proved.
- Strings are simplified: `lower` and `strip` act on ASCII only, and `splitlines` splits on `\n` only.
- Detectors.UnusedImportSmells: the unused names shown in the smell are listed in first-import order. Python iterates the set `imported_names - used_names` in hash order, which depends on string hashing, so the model fixes one order instead. Dict insertion order is modelled: a re-analysed path keeps its place in `files`, and feature envy picks the first of equally frequent bases.
- Analyzer.AnalyzeFile: re-analysing a path appends its smells again. code_quality_analyzer.py:333 overwrites `files[path]`, while :334 extends `self.smells` once more; the model follows the code, and `Analyzer.ReanalysisDoubleCounts` states the difference.
- Metrics.MaintainabilityIndex: states only the [0, 100] bounds and monotonicity, not values, because `ln` is a parameter.
- Metrics.QualityScore: the model keeps the 0-5 scale that the code computes (code_quality_analyzer.py:331), not the 0-10 that the comment at :329 claims. Since the code is consistent with itself, it is not listed as a finding.
- Cli.DefaultGateAlwaysFails: a consequence of that 0-5 scale. It compares the unrounded average, since the one-decimal rounding of the report cannot lift a value of at most 5 to 6.
- Cli.GatePassMeans: reads the rounded average as an exact real; the rounding to one decimal is not modelled.
- Detectors.FeatureEnvySmells: states which smells are reported, not their order.
- Detectors.SwallowingSmells: states which smells are reported, not their order.
- Fixer.ApplyFixes: states which fixes and writes happen, not their order across files.
- Fixer.ApplyAiFixes: states which fixes and writes happen, not their order across files or how many fixes there are.
- Fixer.ChooseFixer: the AI answer is modelled as a function of the smell and the node source. Retries and timeouts inside the engines are not modelled.
- Analyzer.AnalyzeProject: the files found are an input in discovery order. `rglob` itself is not modelled.

## Findings

| source | as written | input that shows it | evidently intended | confidence | as-written member | corrected member |
|---|---|---|---|---|---|---|
| ai_review_engine.py:76-77 | every AI answer is unpacked into four fields, but the OpenRouter engine returns three (openrouter_engine.py:57-83) | any smell for which OpenRouter is enabled and returns a parsed answer: unpacking raises `ValueError` and the whole review call fails | use the three fields of an OpenRouter answer with no AI severity, so the analyzer's severity is mapped | high; not executed | Review.GenerateAsWritten, Review.OpenRouterAnswerFails | Review.GenerateReviewComments, Review.AsWrittenAgreesWithoutOpenRouter |
