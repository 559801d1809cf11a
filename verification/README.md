# Proved models of the repository's algorithmic core

This Dafny project models the parts of the repository that carry algorithms of their own, and proves
what they promise. Each part follows its source: loops over state are methods with invariants, objects
with fields are classes, and each method is proved to compute a function (or to meet a relation) about
which the lemmas then state the properties.

- **The comment-hygiene gate** (`Text`, `Printing`, `Pieces`, `Gate`; `RustLexer`, `RustTiling`,
  `RustRoundTrip`, `RustLimits`; `TomlLexer`, `TomlRoundTrip`; `ShellLexer`, `ShellText`, `ShellTokens`,
  `ShellProperties`, `ShellRoundTrip`; `NixLexer`, `NixTokens`, `NixTiling`, `NixProperties`). The four
  scanners work line by line and carry state from line to line; each is proved to report exactly what a
  lexer finds in one pass over the whole text. For each, printing tokens and scanning the result gives
  back exactly the comments, for any nesting of the language's quotes, substitutions, interpolations,
  here-documents and comments. Block comments are found with their extent and marked as continuing;
  here-documents are first-in first-out; closing a substitution or an interpolation brings back the
  state at its opening.
- **Base58** (`Base58`): both codecs compute positional notation, and undo one another exactly when the
  data are not all zeros and the string is not all ones.
- **The SKILL.toml migration** (`Migration`, `MigrationRerun`, `MigrationTables`, `MigrationMeaning`,
  `MigrationFinalLine`, `MigrationKept`, `MigrationLines`; `TomlReading`, `MigrationToml`,
  `MigrationLayout`, `MigrationSound`, `MigrationRows`, `MigrationExample`): the planner and its
  idempotence; by its own reading of tables, what each table holds afterwards and exactly when rows are
  lost; what happens to a last line without its newline; and by TOML's reading, with values that go on
  over several lines, exactly when the migrated file is right.
- **The self-update** (`FileSystem`, `Update`, `Walk`, `WebDist`, `TreeSwap`, `FileSwap`). `FileSystem.Disk`
  is a file system in which any operation may fail at any time; it keeps the history of all states,
  including those in the middle of a copy, and a flag that says whether anything has failed. The
  contracts speak of every state in the history, of the result when nothing fails, and of everything
  else on the disk.
- **The bounded line reader and the alias lookup** (`CappedReader`, `AliasTarget`) of the command line.
- **The plugin archive** (`Archive`, `ManifestSearch`): byte accounting, and the search for the one manifest.
- **The dashboard planner** (`Planner`): what the validator accepts, the interpreter decides.

## What the code does that a reader may not expect

- In Rust, an apostrophe that opens no character literal hides what follows it when another apostrophe
  comes within twelve characters (`RustLimits.CommentAfterLifetime`). `RustLimits.TickExact` says when.
- `decodeBase58` starts from one zero byte, so that a string of ones (and the empty string) decodes to
  one zero too many.
- The migration's pattern for headers misses `[tools] # c`, `["tools"]`, `[a . b]` and `[[tools]]`, which
  end a table for TOML, and takes lines inside multi-line values for headers and keys. So a key that TOML
  has in another table can move to `[forge]` (`MigrationToml.CommentedHeader`), a file that has a
  `[forge] # c` can get a second `[forge]` (`CommentedForge`, `MigrationRows.SecondForge`), and `[forge]`
  can be written into a string, so that TOML has none (`MigrationExample.HeaderInString`).
  `MigrationToml.MovesRight`, `MigrationSound.RenamesRight` and `MigrationToml.GuardMisses` say exactly when
  the right lines move, the right headers are renamed and the guard fails; `MigrationSound.RightlyWhen`
  says exactly when the migrated file as a whole is right.
- A moved last line without a newline runs into the line after it exactly when its `[skill]` is not the
  first (`MigrationFinalLine.FinalNewline`). The header of a renamed sub-table that ends in another line break
  than the newline (a form feed, say) is written without one. It runs into the line below it, and that row
  is lost or spoilt, exactly when there is such a line and it is not blank (`MigrationKept.MeaningKept`,
  `MigrationKept.RunsOnExample`).
- A binary whose name ends in `.bak` is its own backup: the copy empties it once the system lets the running
  binary be opened for writing, even when the copy fails then, and otherwise the update stops with nothing
  done (`Update.BackUp`, `Update.Run`).
- To the shell scanner a backslash outside of quotes is nothing special: `\' # c` opens a string, and its
  comment is not found (`ShellText.BackslashPair`, `ShellText.BackslashExample`).
- `read_capped_line` reports an empty line as the end of the input (`CappedReader.EmptyLineIsEof`), and
  drops the line after one of exactly `cap` bytes (`CappedReader.LeavesTheRest`, `DroppedLineExample`).

## Model

| member | source | states |
|---|---|---|
| Text.CutTiles | src/scripts/ci/comment_hygiene_gate.py:54-70 | a comment is cut at line ends without loss: its pieces joined are the stretch of text it covers, and carry its number and family |
| RustLexer.RustComments | src/scripts/ci/comment_hygiene_gate.py:43-145 | for every text the line-by-line scanner, with its depth, raw-string end and string flag carried over line ends, reports exactly what the one-pass lexer of the whole text finds |
| RustLexer.GuardsLocal | src/scripts/ci/comment_hygiene_gate.py:92-123 | every test the scanner makes on a line (raw-string opener, byte string, character window, comment openers) has the same answer on the whole text |
| RustLexer.ConsumeBlock | src/scripts/ci/comment_hygiene_gate.py:129-139 | the inner loop reaches the end of the nested block comment, or the end of the line with the depth the whole text has there |
| RustTiling.CommentsInOrder | src/scripts/ci/comment_hygiene_gate.py:54-143 | the comments found in any text are disjoint and in order; line comments run to the end of the line, and blocks are numbered from one on |
| RustTiling.CommentsTile | src/scripts/ci/comment_hygiene_gate.py:54-143 | the pieces reported with one number, joined, are one stretch that opens with a block comment and whose nesting first reaches zero at its end, or never does, and then it is the last one |
| RustTiling.BlockUnique | src/scripts/ci/comment_hygiene_gate.py:54-70 | the extent of a block comment is determined by its start |
| RustTiling.BlockContinues | src/scripts/ci/comment_hygiene_gate.py:506-518 | among the pieces of a block comment all but the last are marked as continuing |
| RustRoundTrip.RoundTrip | src/scripts/ci/comment_hygiene_gate.py:72-144 | scanning the printed form of a list of tokens (plain code, lifetimes, strings, raw strings with any number of hashes, characters, comments, nested blocks) finds and reports exactly its comments, with place and text |
| RustLimits.TickExact | src/scripts/ci/comment_hygiene_gate.py:106-119 | a lone apostrophe is passed as one character if and only if no other unescaped one follows within twelve characters on the line |
| RustLimits.TickHides | src/scripts/ci/comment_hygiene_gate.py:106-119 | whatever stands between two apostrophes at most twelve apart is skipped, comment openers included |
| RustLimits.CommentAfterLifetime | src/scripts/ci/comment_hygiene_gate.py:106-119 | a concrete lifetime followed by a comment whose comment is not found |
| RustLimits.TwoLifetimes | src/scripts/ci/comment_hygiene_gate.py:106-119 | two lifetimes with only code between them lose nothing |
| TomlLexer.TomlComments | src/scripts/ci/comment_hygiene_gate.py:173-216 | the line-by-line TOML scanner reports exactly what the one-pass lexer finds; multi-line strings survive line ends |
| TomlRoundTrip.RoundTrip | src/scripts/ci/comment_hygiene_gate.py:156-216 | scanning printed bare text, four kinds of strings and comments finds exactly the comments and reports them with their texts; a closing run of three to five quotes is taken whole |
| ShellLexer.ParseShellHeredoc | src/scripts/ci/comment_hygiene_gate.py:225-284 | the parser computes the delimiter with its quoting removed, the tab flag and the end, or nothing |
| ShellText.ShellComments | src/scripts/ci/comment_hygiene_gate.py:287-385 | for every text the line-by-line scanner, with its quoting, stack, arithmetic depth and queue carried over line ends, reports exactly what the one-pass lexer of the whole text finds |
| ShellText.ScanRefines | src/scripts/ci/comment_hygiene_gate.py:294-385 | at each line end the comments reported so far and those the lexer finds from there on are together those of the whole text |
| ShellText.OperatorShift | src/scripts/ci/comment_hygiene_gate.py:225-284 | a here-document operator is read in its line as in any text that ends with that line |
| ShellText.BackslashPair | src/scripts/ci/comment_hygiene_gate.py:336-384 | outside of quotes a backslash and the character after it are passed with nothing changed, as the shell passes them, if and only if that character alone opens, closes or starts nothing |
| ShellText.BackslashExample | src/scripts/ci/comment_hygiene_gate.py:336-384 | a concrete line with an escaped apostrophe whose comment is not found |
| ShellTokens.RoundTrip | src/scripts/ci/comment_hygiene_gate.py:287-385 | scanning a printed script (words, both kinds of quotes, nested substitutions and groups, arithmetic, here-documents with their bodies, comments) finds exactly the comments and reports them with their texts; nothing in quotes, arithmetic or a body is reported, and a `#!` at the start is not |
| ShellTokens.CommentsOneLine | src/scripts/ci/comment_hygiene_gate.py:378-383 | a comment found in any script is not empty and lies on one line |
| ShellProperties.HeredocsFifo | src/scripts/ci/comment_hygiene_gate.py:295-302 | with delimiters pending, nothing is reported and nothing but the queue changes until lines ending them have come in the order in which they were queued; then, and only then, the queue is empty |
| ShellProperties.BodiesSilent | src/scripts/ci/comment_hygiene_gate.py:295-302 | so among the comments of a whole script none is on the lines of its here-documents, and the rest is scanned in the state in which they were queued |
| ShellProperties.ReportedSplit | src/scripts/ci/comment_hygiene_gate.py:294-385 | a scan can be split at any line: the second part goes on from the state of the first |
| ShellProperties.RunReaches | src/scripts/ci/comment_hygiene_gate.py:294-385 | the line-by-line scan is a run of the automaton, step by step |
| ShellProperties.CloseRestores | src/scripts/ci/comment_hygiene_gate.py:327-371 | in every run the step that closes a substitution brings back the stack and the quoting in force at its opening, for any nesting and across lines |
| ShellRoundTrip.OperatorBack | src/scripts/ci/comment_hygiene_gate.py:225-284 | a here-document operator written with any mixture of quoting is parsed back to its delimiter, and the parser stops exactly at its end |
| NixLexer.NixComments | src/scripts/ci/comment_hygiene_gate.py:388-483 | the line-by-line Nix scanner reports exactly what the one-pass lexer with its interpolation stack finds |
| NixTokens.RoundTrip | src/scripts/ci/comment_hygiene_gate.py:388-483 | scanning printed code, both kinds of strings with their escapes, nested interpolations and braces, and both kinds of comments finds and reports exactly the comments, with place, number and text |
| NixTiling.CommentsInOrder | src/scripts/ci/comment_hygiene_gate.py:388-483 | the comments found in any text are disjoint, in order and numbered in order, and each is a comment: from `#` to the end of the line, or a block |
| NixTiling.CommentsTile | src/scripts/ci/comment_hygiene_gate.py:398-405 | the pieces reported with one number are the lines of one block comment, which runs from its opener to the end of the first closer after it, or to the end of the text when there is none, and then it is the last one |
| NixTiling.BlockUnique | src/scripts/ci/comment_hygiene_gate.py:465-478 | the extent of a block comment is determined by its start |
| NixTiling.BlockContinues | src/scripts/ci/comment_hygiene_gate.py:506-518 | among the pieces of a block comment all but the last are marked as continuing |
| NixProperties.PassedAreFound | src/scripts/ci/comment_hygiene_gate.py:397-482 | what the lexer finds is what its steps pass, for runs of any length |
| NixProperties.GoodRun | src/scripts/ci/comment_hygiene_gate.py:416-456 | in every run stacked interpolations have depth at least one and return to one of the two string modes |
| NixProperties.CloseRestores | src/scripts/ci/comment_hygiene_gate.py:442-456 | in every run the step that closes an interpolation brings back the stack and the string mode at its opening |
| Gate.Extract | src/scripts/ci/comment_hygiene_gate.py:486-503 | the scanner is chosen by the suffix, and reports the comments of the whole text; for Python those of its tokenizer |
| Gate.MarkContinuations | src/scripts/ci/comment_hygiene_gate.py:506-518 | in place: a comment is marked exactly when a related one is on the next line of the same file, and nothing else is changed |
| Gate.LookupFinds | src/scripts/ci/comment_hygiene_gate.py:507-516 | looking in the index for the next line finds a related comment exactly when there is one |
| Base58.EncodeBase58 | solana-rpc-proxy/worker.js:71-98 | the division loop writes the base-58 notation of the big-endian number with one letter more for each leading zero byte |
| Base58.DecodeBase58 | solana-rpc-proxy/worker.js:101-122 | the multiply-add loop over little-endian bytes computes the same number back, or fails at the first foreign character |
| Base58.MultiplyAdd | solana-rpc-proxy/worker.js:106-114 | the two inner loops compute one multiply-add on base-256 digits and add at most one byte; inside, the carry is at most 57 |
| Base58.MulAddValue | solana-rpc-proxy/worker.js:106-114 | that multiply-add multiplies the number by 58 and adds the digit |
| Base58.DigitsUnique | solana-rpc-proxy/worker.js:82-93 | a number has one notation without leading zeros |
| Base58.DecodeEncode | solana-rpc-proxy/worker.js:71-122 | decoding undoes encoding if and only if the data have a nonzero byte; zeros come back with one more |
| Base58.EncodeDecode | solana-rpc-proxy/worker.js:71-122 | encoding undoes decoding if and only if the string has a letter other than the one for zero |
| Base58.EncodeInjective | solana-rpc-proxy/worker.js:71-98 | different data have different encodings, on all inputs |
| Base58.EncodedLength | solana-rpc-proxy/worker.js:71-98 | the text is at least as long as the data and at most eleven letters for eight bytes, rounded up |
| Migration.PlanMigration | src/scripts/migrate-skill-toml.py:80-229 | the planner's loops compute the plan: already migrated, nothing to move, or the new text with the moved keys and sub-tables |
| Migration.FlatSections | src/scripts/migrate-skill-toml.py:99-124 | bucketing by table loses and reorders no line |
| MigrationRerun.Idempotent | src/scripts/migrate-skill-toml.py:80-229 | for every text: planning on the output returns the output, and says it is migrated |
| MigrationKept.MeaningKept | src/scripts/migrate-skill-toml.py:126-222 | every table holds exactly its rows in order ([skill] what does not move, [forge] what does, the sub-tables of [forge] those of [skill] after their own, all others what they had) if and only if below no renamed header that ends in another line break than the newline stands a line that is not blank |
| MigrationKept.MeaningKeptAtEnd | src/scripts/migrate-skill-toml.py:126-222 | the same if-and-only-if for a file without its last line break |
| MigrationKept.RunsOnExample | src/scripts/migrate-skill-toml.py:157-162 | a concrete file, with a header that ends in a form feed, whose only row is in no table afterwards |
| MigrationLines.NoLineLost | src/scripts/migrate-skill-toml.py:174-222 | for all line breaks: the lines are conserved up to rewritten headers (with the lines they run into), one [forge] header and the blank lines put in, whose number is exact for lines that end in newlines and bounded otherwise |
| MigrationLines.NoLineLostAtEnd | src/scripts/migrate-skill-toml.py:174-222 | and for a file without its last line break |
| MigrationToml.WhatMoves | src/scripts/migrate-skill-toml.py:126-146 | what moves, read off the lines: those that look like provenance keys below a line that looks like [skill] |
| MigrationToml.HeadersAgree | src/scripts/migrate-skill-toml.py:46-46 | a line that is a header both to the pattern and to TOML names the same table, its name being the bare words of TOML's path joined by dots |
| MigrationToml.KeysAgree | src/scripts/migrate-skill-toml.py:51-51 | a line that the pattern takes for a key has to TOML that one bare key, or none, exactly when its spaces are not all blanks |
| MigrationToml.KeySplit | src/scripts/migrate-skill-toml.py:46-51 | the two readings differ about a key exactly for a line inside a value, a quoted or dotted provenance key, or one with other spaces than blanks |
| MigrationToml.MovesRight | src/scripts/migrate-skill-toml.py:46-51 | the lines that move are exactly those that TOML has for the provenance keys of [skill], their continuations included, if and only if none is misread: goes on with a value and looks like a key or the reverse, is a quoted or dotted key, has other spaces, or stands below a header that only one reading sees |
| MigrationLayout.LayoutTexts | src/scripts/migrate-skill-toml.py:174-222 | the sections written hold, in an order given line by line, lines of the old file, renamed headers, blank lines and one [forge] |
| MigrationLayout.NewLines | src/scripts/migrate-skill-toml.py:174-222 | so these are the lines of the new text |
| MigrationSound.RenamesRight | src/scripts/migrate-skill-toml.py:152-167 | the headers renamed are exactly those that TOML has for the two sub-tables of [skill] if and only if none of them stands inside a value and the pattern sees each of those |
| MigrationSound.RightlyWhen | src/scripts/migrate-skill-toml.py:80-229 | the migrated file is right by TOML's reading of it (every line is read as before, with its value whole, below the header it stood below, the provenance keys of [skill] below [forge] and the two sub-tables below their new headers) if and only if no value is open at the end, no line is misread, each line the file is cut at is a header to TOML, and the pattern sees the header of each of the two sub-tables |
| MigrationRows.ReadAsBefore | src/scripts/migrate-skill-toml.py:80-229 | then each line of the new file that is not put in is read as it was, and its nearest header is the one it is to have |
| MigrationRows.ForgeGetsItsOwn | src/scripts/migrate-skill-toml.py:126-198 | then the rows that TOML has below [forge] in the new file are exactly the lines that it had for the provenance keys of [skill], in order |
| MigrationExample.HeaderInString | src/scripts/migrate-skill-toml.py:107-190 | a concrete file of which no line is misread and in which [forge] is written into a string, so that TOML has none in the new file |
| MigrationExample.PlainFile | src/scripts/migrate-skill-toml.py:80-229 | a concrete file that meets the condition and is migrated rightly |
| MigrationToml.GuardMisses | src/scripts/migrate-skill-toml.py:85-97 | a file in which TOML has a [forge] is migrated all the same exactly when its header is one the pattern does not match, and no other line looks like it |
| MigrationRows.SecondForge | src/scripts/migrate-skill-toml.py:85-97 | a file that has a [forge] for TOML, and is migrated, and rightly so else, has two for TOML afterwards |
| MigrationToml.CommentedHeader | src/scripts/migrate-skill-toml.py:46-46 | a concrete file in which a key of another table moves |
| MigrationToml.CommentedForge | src/scripts/migrate-skill-toml.py:46-46 | a concrete file with a [forge] that is migrated all the same |
| MigrationFinalLine.FinalNewline | src/scripts/migrate-skill-toml.py:185-217 | without its final newline a file migrates as with it, up to a newline at the end, if and only if its last line is not a provenance key of a [skill] that is not the first |
| MigrationFinalLine.ChangedWhen | src/scripts/migrate-skill-toml.py:88-172 | the plan changes the file exactly when it has no [forge] and something moves |
| MigrationFinalLine.GluedExample | src/scripts/migrate-skill-toml.py:183-190 | a concrete file whose last line is glued to the next header |
| Update.BackupIsTarget | src/src/commands/update.rs:247-250 | the backup path is the binary itself if and only if its extension is `bak` |
| Update.BackUp | src/src/commands/update.rs:247-250 | while the backup is written the old binary is in place; a binary that is its own backup is emptied if and only if it is opened for writing, also when the copy fails after that, and otherwise untouched |
| Update.SwapBinaryUnix | src/src/commands/update.rs:845-854 | success puts the new bytes in place; no state differs outside the binary; fails only on a fault |
| Update.SwapBinaryWindows | src/src/commands/update.rs:856-877 | the same; after a failure the old binary is in place or in its sidecar; only sidecar names are swept |
| Update.RollbackBinaryUnix | src/src/commands/update.rs:880-887 | success puts the backup's bytes in place; fails only on a fault |
| Update.RollbackBinaryWindows | src/src/commands/update.rs:889-902 | the same on Windows |
| Update.SweepStaleSidecars | src/src/commands/update.rs:917-935 | only names with the sidecar prefix and suffix go; the binary stays |
| Update.SwapAndTest | src/src/commands/update.rs:260-317 | with a complete backup: safe in every state, restored after a failed swap or smoke test unless the restoring copy failed, and then the backup is whole |
| Update.Run | src/src/commands/update.rs:241-318 | in every state until the smoke test succeeds the old bytes are at the target or whole in the backup; errors leave them at the target unless the restoring copy failed; nothing else changes; without faults the result follows from the download and the smoke test; a binary that is its own backup is emptied, or the backup fails with nothing done, as it does when it cannot be opened |
| Walk.WalkFiles | src/src/commands/update.rs:675-696 | the explicit stack yields each regular file below the root that can be read exactly once, and nothing else; it terminates |
| Walk.Expand | src/src/commands/update.rs:678-693 | replacing a directory on the stack by its entries keeps found and to-do files apart and complete |
| WebDist.CopyDirRecursive | src/src/commands/update.rs:1323-1347 | success lays the tree without its links over what is at the new root and leaves all else there; no state differs outside that root; it fails only on a fault or where a file and a directory have the same place; it terminates |
| WebDist.MergedFresh | src/src/commands/update.rs:1323-1347 | where nothing was, the copy is the tree without its links, and nothing stands in its way |
| TreeSwap.SweepUpdateResidue | src/src/commands/update.rs:945-972 | takes away only what is at or below names with the residue prefix, and changes nothing |
| TreeSwap.Replace | src/src/commands/update.rs:1246-1269 | the renames: success puts the new tree in place; failure leaves the old one there, or aside when it could not be put back |
| TreeSwap.InstallWebDist | src/src/commands/update.rs:1216-1279 | success makes the target the staged tree (without links when copied) with nothing of the old one left; on failure the old tree is at the target or aside; at no moment is neither tree whole; without faults it succeeds, by copying exactly when the two are on different devices |
| FileSwap.SwapFile | src/src/commands/update.rs:1119-1204 | in no state is the target anything but the old file or the new one (on Windows the old one may be aside); failure leaves the old one; without faults it succeeds |
| CappedReader.DiscardUntilNewline | src/src/main.rs:95-108 | leaves exactly what follows the first newline, for any chunks |
| CappedReader.ReadCappedLine | src/src/main.rs:61-77 | for any content and chunks: which of the three results, the exact text, and what is left, with the exact case in which the next line is dropped |
| CappedReader.LossyEncode | src/src/main.rs:76-76 | the lossy conversion gives back every text from its encoding |
| CappedReader.TextLine | src/src/main.rs:61-77 | a line of text is read as it was written exactly when it fits with its newline |
| CappedReader.EmptyLineIsEof | src/src/main.rs:70-75 | the end is reported although there is input exactly when the line is empty and the cap is not zero |
| CappedReader.EmptyLineExample | src/src/main.rs:70-75 | a concrete input whose empty first line is taken for the end |
| CappedReader.LeavesTheRest | src/src/main.rs:61-77 | a call leaves what follows the line if and only if the line is not exactly at the cap with another line after it |
| CappedReader.DroppedLineExample | src/src/main.rs:61-77 | a concrete input whose second line is dropped |
| CappedReader.CapLineUtf8Safe | src/src/main.rs:83-87 | truncates at the last character boundary within the cap |
| CappedReader.CapKeepsCharacters | src/src/main.rs:83-87 | the encoding of a text is truncated to the encoding of its longest prefix of whole characters that fits |
| AliasTarget.MapKeyWhen | src/src/main.rs:2452-2458 | a key is found if and only if the path is section, key and field joined by dots, the key being non-empty and without dots |
| AliasTarget.AliasTargetForPath | src/src/main.rs:2471-2481 | the candidate section with the longest path is chosen, or none when there is none |
| AliasTarget.TargetUnique | src/src/main.rs:2471-2481 | that choice is unique: ties are between equal sections |
| AliasTarget.Config.EnsureMapKeyForPropPath | src/src/main.rs:2520-2559 | the alias is made exactly when it is new, allowed and resolves the path; otherwise nothing changes, unless taking it back fails; no alias is lost |
| Archive.CollectCappedChunks | src/src/plugin_registry.rs:130-148 | all chunks joined if and only if none fails and the total fits; otherwise nothing is read past the first offending one |
| Archive.CopyZipEntryCapped | src/src/plugin_registry.rs:259-281 | succeeds if and only if no read fails and the entry fits; the counter is what was written, and within the limit |
| Archive.ExtractZipSafe | src/src/plugin_registry.rs:169-204 | succeeds if and only if all names are safe, nothing fails, and claimed and real sizes fit at each entry; then exactly the archive's files are there with full content; the counter is always the bytes written |
| Archive.UnpackedFile | src/src/plugin_registry.rs:192-201 | the last entry of a name decides the content of its file |
| ManifestSearch.CollectManifestDirs | src/src/plugin_registry.rs:245-257 | the recursion appends every directory below that holds a manifest, each once |
| ManifestSearch.FindManifestDir | src/src/plugin_registry.rs:232-243 | a directory is returned only when it is the only one with a manifest; none and several are told apart |
| Planner.ValidateContract | src/scripts/github/project_dashboard_plan.py:162-208 | the validator's loops accept exactly the contracts with well-formed rules and a catch-all for each state |
| Planner.ClassifyIssue | src/scripts/github/project_dashboard_plan.py:219-226 | the plan is that of the first matching rule, and there is one if and only if some rule matches |
| Planner.AcceptedIsTotal | src/scripts/github/project_dashboard_plan.py:162-226 | an accepted contract decides every issue by exactly one rule, with an allowed status and confidence |
| Planner.NothingAfterCatchAll | src/scripts/github/project_dashboard_plan.py:116-129 | no rule after a catch-all of its state ever decides |

## Left out

- `python_comments` (src/scripts/ci/comment_hygiene_gate.py:148-153) calls Python's tokenizer, which is not part of this model: the tokens it yields are a parameter of `Gate.Extract`, and files it rejects are left out.
- The detectors, their regular expressions and the command line of the gate: they would only add easy members.
- Carriage returns: files are read in text mode, so that a text here has none; undecodable bytes are replaced before the text is seen.
- RustRoundTrip.RoundTrip: plain code may not run into the next token (a chunk ending in `r`, `b` or `#` right before a string, or in `/` right before a comment), and what a lone apostrophe hides up to another one within twelve characters must be plain code; `RustLimits` shows why the last is needed.
- ShellTokens.RoundTrip: the tokens are those of the scanner and not of the shell's grammar, which differ for an unquoted backslash (`ShellText.BackslashPair`); while a here-document is pending, line breaks stand only where its body follows.
- Signature checks, transactions and all network calls of `solana-rpc-proxy/worker.js`: foreign libraries and plumbing.
- MigrationKept.MeaningKept: tables and rows are those of the migration's own patterns, so that lines of values over several lines count as lines of their table; `MigrationSound.RightlyWhen` is about TOML's.
- MigrationToml.MovesRight: keys that reach [skill] from elsewhere (`skill.source = 1` in another table, inline tables) count for the table they stand in.
- MigrationSound.RightlyWhen: the file ends in a newline (`MigrationFinalLine.FinalNewline` says when one without migrates as one with it); TOML's reading is of headers, keys and of where values end, not of the values.
- Reading and writing of SKILL.toml files, the search for them and the summary.
- Phases 1 and 2 of the update (release lookup, download, checksums, unpacking) and running the binaries: `runs` and `stillRuns` stand for what `--version` returns.
- Update.Run: the binary and its backup are no symbolic links, paths are taken with links resolved, no other process interferes, and the companion artifacts that follow a success are separate members.
- Permission bits, asynchrony and file locks other than as failures of an operation.
- WebDist.CopyDirRecursive: the directory of the new root is there, and no symbolic links are below the root.
- TreeSwap.InstallWebDist: the staging name is fresh and the staged tree lies outside the directory of the target; where the target is (src/src/commands/update.rs:1296-1318) is a parameter.
- Walk.WalkFiles: what cannot be read is a parameter, the same for the whole walk; the root is no symbolic link (the update makes its staging directory itself).
- `version_is_newer` and `should_install`: one comparison and one disjunction, easy members.
- AliasTarget.Config.EnsureMapKeyForPropPath: the configuration is a map from sections to aliases, and `get_prop` a predicate on it; the real schema is not part of this model.
- Archive.ExtractZipSafe: decoding of zip files and the test for unsafe names are inputs; a write that fails half-way counts as a read that fails.
- ManifestSearch.FindManifestDir: an unpacked plugin holds no symbolic links, since extraction makes none.
- Planner.ClassifyIssue: the issue is given by its label names, state and state reason; parsing of the event and the output are left out.
