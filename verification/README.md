# A verified model of the deployment tools

This project models, in Dafny 4.11, the parts of the repository where one slip loses data, presses a
key that nobody holds, or changes what apt fetches. It states what those parts promise and proves it,
for every input, every run and every failing system call. `dafny verify dfyconfig.toml` checks
everything.

Code that works by loops and field updates is modelled as methods and classes with the same steps;
each is proved equal to a function, and the promises are lemmas about that function. What such a function
computes is stated once more on the characters, messages, paths and files themselves. Code made of
expressions is modelled as functions.

| files | what they model |
|---|---|
| `Text`, `Wrappers` | strings as the tools cut and join them; optional values and results |
| `AptModel`, `AptFormat` | both parsers and both printers of apt sources, `files/apt-srctools/apt-src-model.ts`; what a line, a stanza and a printed row mean, said of their text |
| `AptDeb822`, `AptStanza`, `AptRoundTrip`, `AptParsed` | deb822 round trips, from a model and from a parsed file |
| `AptClassic`, `AptConvert`, `AptList`, `FolderRun`, `AptFolder`, `FolderTurn` | the classic round trip; when the conversion gate opens, in both directions; the directory loop over a disk that fails, whatever it converts with, and the directory converter, turn by turn |
| `AptScheme`, `AptFlip`, `AptRewrite`, `AptSurgery`, `AptVerify`, `AptProcess`, `AptBlocks`, `AptAdopt`, `AptLines` | the in-place scheme switcher, its marker blocks and their adoption, line by line |
| `AptSources`, `AptSourcesFacts`, `AptRows` | the independent Python printer of the same format, read by the TypeScript parser |
| `Framing`, `Relay`, `RelayWorld`, `RelaySafety`, `RelayLayer`, `RelayTarget` | the key relay as a state machine over connects, chunks, timers, closes and stop, with a peer that holds one bit and a layer; when the key is held, said of the messages alone, and what each connection is told |
| `Delivery`, `Registration`, `RegistrationSlots`, `RegistrationSafety`, `RegistrationBatch` | atomic link and copy delivery, and the batch with its choice of slots and its rollback, on a disk where any call may fail |
| `Actions`, `ActionGraph`, `ActionRun`, `ActionOrder`, `ActionSpec`, `ActionAdmit`, `ActionCompile`, `ActionNames`, `ActionPlans` | action graphs: compiling, admitting, traversing, running, and the plans and names in between |
| `Links`, `LinksVerdict`, `LinksSafety` | link plans: resolving claims, classifying, applying until nothing changes |
| `Paths`, `Context`, `ContextPaths`, `ContextFreeze` | path selectors, binding a context, freezing a selection |
| `Catalog`, `CatalogFacts`, `FlowLoad`, `FlowFacts` | overlaying and scheduling a flow, and running it |
| `Loader`, `LoaderFacts`, `LoaderTokens` | projecting a Zim loader template, and shell quoting by sections 2.2.1 and 2.2.2 of the Shell Command Language of POSIX.1-2017 |

## What does not hold as documented

Each of these is proved from the code, with an input that shows it, and beside each stands the
condition under which the code does keep its promise, proved in both directions within the scope the
theorem names.

- An option named like an inherited object member (`constructor`, `toString`, ...) is found in the
  alias table, is printed as a malformed line, and makes the gate refuse a valid classic file
  (`AptConvert.InheritedSample`); so does a comma or a second bracket group in a uri, suite or component
  (`AptConvert.BracketGroupSample`). Exact: `AptConvert.GateExactly`.
- A deb822 option of several words (`Languages: en de`), which classic syntax writes with commas, is
  printed as several bracket words, so the gate refuses the file (`AptList.TwoLanguages`); so does
  `Trusted: 1`, which deb822 keeps as a text and a bracket reads as the flag (`AptList.TrustedOne`).
  Exact: `AptList.ListGateExactly`.
- A changed row inside a multi-row managed block is adopted although the comments promise a surgical
  fallback; that fallback can never be taken (`AptAdopt.FallbackUnreachable`) and the rewrite has nested
  markers. A later run with the same target has nothing to do, but one towards the other scheme stops at
  the markers (`AptAdopt.NestedRuns`). Exact: `AptAdopt.RescanExact`, `AptAdopt.RunTwice`.
- The scheme switcher never sees rows spelled `uris:`, which the parser reads
  (`AptProcess.OtherSpelling`). Exact: `AptProcess.RewriteAccepted`.
- The directory converter, onto a destination that links to the source, writes through the link and then
  removes the only copy, when it is forced or cannot read the destination, which it takes for absent
  (`FolderRun.LinkedDestLost`). Exact for every kind of run: `AptFolder.LossExactly`.
- The Python printer prints keyblocks with white space lines that the parser refuses
  (`AptSourcesFacts.SpacedFileSample`); exact: `AptSourcesFacts.PrintedReads`. Defaults that spell `Types`
  exactly so after another spelling with another value do not merge last-wins
  (`AptSourcesFacts.TwoSpellings`); exact: `AptSourcesFacts.BaseExact`.
- The registration preflight follows donor links by name. Where a directory on the way is itself a
  link, the name differs from where the kernel goes, and an admitted batch can destroy its donor
  (`RegistrationSafety.DetourLosesDonor`). Exact: `RegistrationSafety.DonorExact`.
- A record whose unchosen slot lies above a chosen slot of the same batch ends up with both its slots
  (`RegistrationBatch.BothSlots`). Exact: `RegistrationBatch.NeverBothExactly`.
- A missing slot above an earlier one of the batch cannot be rolled back
  (`RegistrationBatch.NestedSlotLost`). Exact on a disk without failing calls, and enough on any other:
  `RegistrationBatch.WithInputBatch`.
- A missing destination above that of a later record, recorded as absent, is reported as managed and
  then created as a directory (`LinksSafety.NestedAbsentLost`). Exact, with the case of a record delivered
  above a missing destination: `LinksSafety.ApplyAll`.
- Freezing a selection moves relative fuzing roots to `/` (`ContextFreeze.FuzingRootMoves`), and an
  accepted relative selector whose result holds `$` or `~` freezes to a path that can no longer be bound
  (`ContextFreeze.FrozenBinds`). Exact: `ContextFreeze.FreezingExact`.
- A child called `.` passes the compiler's containment test and is refused by the runtime
  (`ActionNames.ContainedExact`). Exact for whole specs: `ActionNames.CompiledAccepted`.

## Model

| member | source | states |
|---|---|---|
| Text.WordsOfJoin | files/apt-srctools/apt-src-model.ts:314-316 | splitting tokens that were joined by one separator gives the tokens back |
| Text.JoinOfSplit | files/apt-srctools/apt-src-model.ts:398 | splitting at line feeds loses nothing: the lines joined again are the text, and none holds a line feed |
| AptModel.ScanToken | files/apt-srctools/apt-src-model.ts:135-148 | the two inner scanning loops find where the token starting here ends: a bracket group at its closing bracket, a word at white space |
| AptModel.TokenizeClassic | files/apt-srctools/apt-src-model.ts:130-150 | the scanning loop yields exactly the bracket groups and words of the line, each with the offsets it has there; it throws exactly for a bracket that never closes |
| AptModel.ParseClassic | files/apt-srctools/apt-src-model.ts:184-258 | the loop over lines returns the entries the classic round trip is proved about, or the first error with its line |
| AptModel.EmitClassic | files/apt-srctools/apt-src-model.ts:279-295 | the nested loops print one line per type, uri and suite, in loop order, after the entry was validated |
| AptModel.ParseDeb822 | files/apt-srctools/apt-src-model.ts:395-431 | the line loop with its open stanza returns the entries the deb822 round trips are proved about |
| AptModel.EmitStanza | files/apt-srctools/apt-src-model.ts:436-468 | the pushed lines of one stanza are, in order, the lines the reading lemmas take back |
| AptModel.EmitDeb822 | files/apt-srctools/apt-src-model.ts:433-470 | the printed text is that of Deb822RoundTrip; the first invalid entry is the error |
| AptModel.ValidateExact | files/apt-srctools/apt-src-model.ts:111-122 | validation passes exactly when types, uris and suites are all there and every type is deb or deb-src |
| AptFormat.UnitsExact | files/apt-srctools/apt-src-model.ts:501-522 | the units of an entry are its types, uris and suites in all combinations, as many as there are, each with the parts of the entry that apt acts upon |
| AptFormat.SameExact | files/apt-srctools/apt-src-convert-dir.ts:161-166 | two lists of entries mean the same exactly when every unit stands in both as often |
| AptFormat.ClassifyExact | files/apt-srctools/apt-src-model.ts:404-428 | of what kind a line of a deb822 file is, and which name and value a field line has, character by character |
| AptFormat.UnstuffExact | files/apt-srctools/apt-src-model.ts:308-312 | a continuation line without its first blank, where a lone dot is an empty line |
| AptFormat.StanzaExact | files/apt-srctools/apt-src-model.ts:318-393 | the fields of a stanza are read as an entry if and only if no field stands twice and types, uris and suites are there on one line each, and then as the one entry they mean, field by field |
| AptFormat.BracketExact | files/apt-srctools/apt-src-model.ts:208-233 | the assignments of a bracket are read as what they mean: keyrings, architectures, the trusted flag by its last value, and every other option by its last one |
| AptFormat.ClassicReads | files/apt-srctools/apt-src-model.ts:184-258 | a line made of a type, a bracket, a uri, a suite and components is read as the source with just these, disabled behind a `#` |
| AptFormat.ActiveExact | files/apt-srctools/apt-src-model.ts:198-201 | the tokens that count are those in front of the first that starts a comment |
| AptFormat.OtherLines | files/apt-srctools/apt-src-model.ts:184-258 | blank lines and comments hold no source; an active line without a supported type, a uri or a suite is the error of that kind |
| AptFormat.PrintedLine | files/apt-srctools/apt-src-model.ts:279-295 | a source line as it is printed: the parts that are not empty with one blank between, behind a `#` when it is disabled |
| AptFormat.PrintedParts | files/apt-srctools/apt-src-model.ts:264-277 | the assignments a bracket is printed with for keyring, architectures and the trusted flag |
| AptFormat.PrintedKey | files/apt-srctools/apt-src-model.ts:448-455 | a key is printed on its field line, or as a block of lines in which a dot stands for an empty one |
| AptFormat.PrintedOption | files/apt-srctools/apt-src-model.ts:456-461 | the four options that have a deb822 field, and the field of each; every other option that is no inherited member is left out |
| AptFormat.PrintedFlags | files/apt-srctools/apt-src-model.ts:444-447 | `Enabled: no` exactly for a disabled entry, `Trusted: yes` or the trusted text |
| AptDeb822.NumbersOnlyInErrors | files/apt-srctools/apt-src-model.ts:395-431 | line numbers have no influence on the entries read |
| AptDeb822.StanzaEnds | files/apt-srctools/apt-src-model.ts:405-412 | a blank line after readable lines closes the stanza: its entry, then whatever the rest gives |
| AptDeb822.FieldLineReads | files/apt-srctools/apt-src-model.ts:420-427 | a printed `key: value` line is read as that field exactly when the value has no line terminator, else it is malformed |
| AptDeb822.EntryReads | files/apt-srctools/apt-src-model.ts:433-470 | the lines printed for a printable entry are read as exactly the fields they were meant to be |
| AptStanza.StanzaBack | files/apt-srctools/apt-src-model.ts:318-393 | the stanza reader turns the fields an entry prints into that entry, with aliased options moved to fields and a one-line key trimmed |
| AptStanza.PassRecord | files/apt-srctools/apt-src-model.ts:367-373 | fields outside the model pass through in order with their multi-line values put together again |
| AptRoundTrip.Reprinted | files/apt-srctools/apt-src-model.ts:395-470 | printing readable entries and parsing the text gives each in its reread form |
| AptRoundTrip.Deb822RoundTrip | files/apt-srctools/apt-src-model.ts:308-470 | model to deb822 text and back is the identity for comma- and space-free tokens, stuffable value lines, unmodelled field names and options empty or one trusted blob, multi-line keys included |
| AptParsed.ParsedImage | files/apt-srctools/apt-src-model.ts:318-431 | what every parsed entry is guaranteed to look like: word tokens, trimmed one-line keys, values that can be printed |
| AptParsed.ParsedSurvivesExactly | files/apt-srctools/apt-src-model.ts:318-470 | a parsed file survives printing and parsing again if and only if every entry names its types, uris and suites with supported types, and no one-line key has text that printing on one line would lose |
| AptClassic.BracketBack | files/apt-srctools/apt-src-model.ts:184-277 | reading back the parts an entry prints inside its bracket restores signed-by, arch, trusted and options |
| AptClassic.BracketToken | files/apt-srctools/apt-src-model.ts:130-150 | a printed bracket is a single token whose inner words are the parts that were put in |
| AptClassic.LineBack | files/apt-srctools/apt-src-model.ts:184-295 | one printed classic line parses to the one source it was printed for, commented out when it is disabled |
| AptClassic.ClassicRoundTrip | files/apt-srctools/apt-src-model.ts:279-295 | classic text of an expressible model parses to one single-type, single-uri, single-suite entry per triple in loop order, with the very same semantic units |
| AptConvert.MisfitRefused | files/apt-srctools/apt-src-convert-dir.ts:156-171 | an entry with a comma or bracketed white space in a token always makes the gate refuse |
| AptConvert.InheritedLineBad | files/apt-srctools/apt-src-model.ts:462-466 | an option named like an inherited object member is printed as a line the parser calls malformed |
| AptConvert.GateExactly | files/apt-srctools/apt-src-convert-dir.ts:156-171 | for every classic file the parser accepts, the gate lets the conversion through if and only if no uri, suite or component token holds a comma or white space and no option is named like an inherited object member |
| AptConvert.InheritedSample | files/apt-srctools/apt-src-model.ts:462-466 | a line with the option `constructor=x` that parses, whose tokens fit, and whose conversion is refused |
| AptConvert.BracketGroupSample | files/apt-srctools/apt-src-model.ts:135-141 | a line whose second bracket group is taken as the uri, so that its conversion is refused |
| AptList.ListGateExactly | files/apt-srctools/apt-src-convert-dir.ts:156-171 | towards classic the gate lets a list of entries through exactly when each has supported types, tokens that start no comment and close their brackets, keyring paths joined by single commas, options of one assignment each, and no trusted text that a bracket takes for the flag (`1`, but not `0`); option values that end the bracket, hold further assignments or end in white space are out of scope |
| AptList.TornRefused | files/apt-srctools/apt-src-model.ts:264-277 | an option that prints as several words of which one is no assignment refuses the file |
| AptList.TwoLanguages | files/apt-srctools/apt-src-model.ts:264-277 | a stanza with two languages: deb822 prints it and reads it back, and the gate towards classic refuses it |
| AptList.TrustedOne | files/apt-srctools/apt-src-model.ts:223-236 | a stanza with `Trusted: 1`: deb822 prints it and reads it back as a text, a bracket reads it as the flag, and the gate towards classic refuses it |
| AptFolder.Convert | files/apt-srctools/apt-src-convert-dir.ts:138-171 | an emitted text is only returned when it parses and apt makes the same of it as of the source |
| AptFolder.ConvertGate | files/apt-srctools/apt-src-convert-dir.ts:138-171 | towards deb822 the text comes out exactly when the file parses and the gate of GateExactly opens, towards classic exactly when it parses and the gate of ListGateExactly opens |
| AptFolder.Converter.ConvertEntry | files/apt-srctools/apt-src-convert-dir.ts:103-210 | one turn of the loop with every early `continue`, failing calls included; an uncaught removal error stops the program |
| AptFolder.Converter.ConvertAll | files/apt-srctools/apt-src-convert-dir.ts:95-214 | the whole loop: final disk and exit code, 1 exactly when some entry failed |
| FolderTurn.TurnStarts | files/apt-srctools/apt-src-convert-dir.ts:103-146 | a source that is missing, unreadable or cannot be converted fails, and a link is passed over, with nothing changed; by the plain names `STEM.list` and `STEM.sources` |
| FolderTurn.OthersPassed | files/apt-srctools/apt-src-convert-dir.ts:107-109 | a name with any other extension is passed over |
| FolderTurn.TurnEnds | files/apt-srctools/apt-src-convert-dir.ts:173-210 | the turn of a source that converts, for whatever stands at its destination and whatever calls fail: kept without force, completed in place when it is the same text, nothing in a dry run, else written where the destination's links lead, and the source removed in place only |
| FolderTurn.FinalExact | files/apt-srctools/apt-src-convert-dir.ts:176-205 | an open call ends at the path its links lead to, and at none exactly when they lead nowhere |
| FolderTurn.LoopExact | files/apt-srctools/apt-src-convert-dir.ts:103-214 | the entries are taken one after the other up to one whose removal ends the program, and the exit code is 0 exactly when no turn fails |
| FolderRun.DestInjective | files/apt-srctools/apt-src-convert-dir.ts:128-129 | different source files never share a destination |
| FolderRun.VisitFrame | files/apt-srctools/apt-src-convert-dir.ts:103-210 | one turn changes nothing but its own source and the path its destination lands on, links followed |
| AptFolder.NothingLost | files/apt-srctools/apt-src-convert-dir.ts:5-15 | whatever calls fail, forced or not, in place or into another directory: when no destination lands on a listed source and, in place, no two land on one path, every source stands unchanged at the end, or its destination reads as a text apt takes alike |
| AptFolder.LossExactly | files/apt-srctools/apt-src-convert-dir.ts:5-15 | for every kind of run over the entries of a directory, no pattern of failing calls loses any source if and only if it is a dry run, or no converting file's destination lands on a listed source and, in place, no two land on one path, all of which can be read off the disk before the run; where no file means what an empty one does, runs whose failing writes only empty a file decide the same |
| FolderRun.NoLinksApart | files/apt-srctools/apt-src-convert-dir.ts:128-129 | destinations that are no links never land on a source or on each other |
| AptFolder.ExitZeroConverts | files/apt-srctools/apt-src-convert-dir.ts:95-214 | an in-place run over such a directory that exits with 0 has converted every listed plain source: it is gone, and its destination reads as a text apt takes alike |
| FolderTurn.ExitZeroCopies | files/apt-srctools/apt-src-convert-dir.ts:95-214 | a run with `--out` that exits with 0, where no two destinations land on one path and none on a source: every listed plain source stands as it was and its copy reads as the converted text |
| FolderTurn.DryRunKeeps | files/apt-srctools/apt-src-convert-dir.ts:193-201 | a dry run changes nothing on the disk, whatever it reports |
| FolderRun.OthersUntouched | files/apt-srctools/apt-src-convert-dir.ts:103-210 | paths that are neither a listed source nor where a destination lands are never touched |
| FolderRun.UnforcedKept | files/apt-srctools/apt-src-convert-dir.ts:173-201 | without force nothing but the source changes when the destination reads as another text, or as any for an in-place conversion |
| FolderRun.LinkedDestLost | files/apt-srctools/apt-src-convert-dir.ts:202-206 | with a destination that links to its own source, a forced run, or any run that cannot read the destination, ends with the text gone from the disk and no failure reported |
| AptScheme.FindClassicUri | files/apt-srctools/apt-src-model.ts:155-182 | the scan finds the uri of a row with its offsets, in disabled rows too |
| AptScheme.PlanRows | files/apt-srctools/apt-src-scheme.ts:105-131 | the planner lists exactly the rows whose replacement differs, in file order |
| AptScheme.ScanBlocks | files/apt-srctools/apt-src-scheme.ts:133-157 | the marker scan returns the blocks with their content rows, or the same complaint about unbalanced markers |
| AptScheme.Render | files/apt-srctools/apt-src-scheme.ts:228-246 | the text with each planned row replaced and wrapped in markers where it is adopted |
| AptScheme.PlanAdoption | files/apt-srctools/apt-src-scheme.ts:289-297 | ids are given to the planned rows outside single-row blocks, starting past the largest id; only planned rows get one |
| AptFlip.FlipFacts | files/apt-srctools/apt-src-scheme.ts:90-96 | a flipped uri is on the target scheme, stays a word of the same kind, and is not flipped again |
| AptFlip.FlipExact | files/apt-srctools/apt-src-scheme.ts:90-96 | `http://` and any rest becomes `https://` and the same rest, and conversely; every other uri is left as it is |
| AptLines.WordsExact | files/apt-srctools/apt-src-model.ts:314-316 | the words of a text are the pieces it is cut into by white space, by commas or by both, in order and none of them empty |
| AptLines.RowExact | files/apt-srctools/apt-src-scheme.ts:105-131 | a classic row is changed if and only if its uri, the first word behind the type and at most one bracket group, is on the other scheme, and then only in that scheme; a `URIs:` row if and only if one of its uris is, and then into the same uris in order with just those changed |
| AptLines.PlanExact | files/apt-srctools/apt-src-scheme.ts:105-131 | the plan holds exactly the rows that change so, in file order |
| AptLines.MarkExact | files/apt-srctools/apt-src-scheme.ts:73-75 | which lines are markers: `# apt-scheme-`, a decimal number, `begin` or `end`, and nothing but blanks behind |
| AptLines.ScanExact | files/apt-srctools/apt-src-scheme.ts:133-157 | the scan finds exactly the stretches from a begin marker to the end marker of the same id with no marker between, and their lines without provenance; or it complains about the first line where a block begins inside another, ends that is not open, or is never ended |
| AptLines.AdoptExact | files/apt-srctools/apt-src-scheme.ts:289-297 | a planned row is adopted unless it is the only content of a block; the ids go on from the largest in use, one after the other in file order |
| AptLines.RewriteExact | files/apt-srctools/apt-src-scheme.ts:228-246 | the rewritten file line by line: every line once and in order, changed where RowExact says so, a begin and an end marker around it where it is adopted, and nothing else |
| AptLines.VerdictExact | files/apt-srctools/apt-src-scheme.ts:159-178 | the check of a written file passes exactly when it parses to as many entries with no uri on the other scheme; otherwise the problem is the first of these, and the uri the first in file order |
| AptFlip.ShapeOf | files/apt-srctools/apt-src-model.ts:155-182 | every row with a findable uri is its head, the uri word and the rest, and the uri is found right there |
| AptRewrite.LineFlips | files/apt-srctools/apt-src-scheme.ts:105-131 | a changed classic row parses to the same source with its uri flipped, and would not change again |
| AptRewrite.LineStays | files/apt-srctools/apt-src-scheme.ts:105-131 | an unchanged classic row parses to no flippable uri, so it already is its own flipped form |
| AptRewrite.RowFlips | files/apt-srctools/apt-src-scheme.ts:105-131 | every classic row after planning parses to the flipped form of what it parsed to before |
| AptSurgery.UrisFlip | files/apt-srctools/apt-src-scheme.ts:118-128 | a changed `URIs:` row is read as the same field with flipped values |
| AptSurgery.UrisSettle | files/apt-srctools/apt-src-scheme.ts:118-128 | a changed `URIs:` row does not change again and is no marker |
| AptSurgery.UrisStay | files/apt-srctools/apt-src-scheme.ts:118-128 | an unchanged row already is its own flipped form, where only a field spelled `URIs` is flipped |
| AptVerify.MarkerIsComment | files/apt-srctools/apt-src-scheme.ts:73-74 | both parsers take a marker line as a comment |
| AptVerify.CommentNotFound | files/apt-srctools/apt-src-model.ts:155-182 | a comment that does not start like a source type holds no uri, so provenance and marker lines are never planned |
| AptVerify.ClassicWrapped | files/apt-srctools/apt-src-scheme.ts:228-246 | wrapping a row in markers changes nothing for the classic parser |
| AptProcess.RewriteReads | files/apt-srctools/apt-src-scheme.ts:228-246 | where no stanza is overlooked, the rewritten file re-parses to the original entries, whichever rows were wrapped: each uri the same, or the same but for the scheme when it was on the other one |
| AptProcess.RewriteSeen | files/apt-srctools/apt-src-scheme.ts:228-246 | for every file, parseable or not, the rewritten text re-parses to the original entries with the uris flipped that come from a field spelled `URIs`, and all others as they were |
| AptProcess.RewriteAccepted | files/apt-srctools/apt-src-scheme.ts:159-178 | `verify` accepts the rewrite of a parseable file if and only if no stanza takes its uris from a field spelled `uris` that holds a uri off target |
| AptProcess.Verify | files/apt-srctools/apt-src-scheme.ts:159-178 | the loops over entries and uris find a problem exactly when the count is off or some uri is off target |
| AptProcess.SecondRunIdle | files/apt-srctools/apt-src-scheme.ts:105-131 | nothing is planned on a rewritten file: the tool is idempotent |
| AptProcess.VerifiedIsIdle | files/apt-srctools/apt-src-scheme.ts:159-178 | nothing is planned on a text that `verify` accepts, whoever wrote it |
| AptProcess.OtherSpelling | files/apt-srctools/apt-src-scheme.ts:118-120 | a whole file whose uris stand in a field spelled `uris`: nothing is planned, so a run reports nothing to do, and `verify` finds the uri off target in the file as it is and as rewritten |
| AptBlocks.ScansAgree | files/apt-srctools/apt-src-scheme.ts:133-157 | the index-based scan finds the same blocks, rows included, as a direct reading of the lines |
| AptBlocks.WrapScans | files/apt-srctools/apt-src-scheme.ts:133-157 | a wrapped text scans exactly when no wrapped row stands inside a block; its blocks are the old ones and one per wrapped row |
| AptAdopt.RowIsPlain | files/apt-srctools/apt-src-scheme.ts:105-131 | a planned row is neither a marker nor a provenance line |
| AptAdopt.FallbackUnreachable | files/apt-srctools/apt-src-scheme.ts:318-323 | every planned row is adopted or alone in its block, so the multi-row fallback is never taken |
| AptAdopt.FreshIds | files/apt-srctools/apt-src-scheme.ts:289-297 | adopted ids exceed every id in the file and grow in file order |
| AptAdopt.RescanExact | files/apt-srctools/apt-src-scheme.ts:285-317 | the rewrite scans again if and only if no changed row sits in a multi-row block, and then holds the old blocks and one fresh block per adopted row |
| AptAdopt.NestedSample | files/apt-srctools/apt-src-scheme.ts:297 | a file with two rows wrapped by hand, one to be changed: the scan of the rewritten text fails on nested markers |
| AptAdopt.NestedRuns | files/apt-srctools/apt-src-scheme.ts:273-357 | on such a file the run reports success, and the run back towards the other scheme stops at the markers without doing anything |
| AptAdopt.RunTwice | files/apt-srctools/apt-src-scheme.ts:273-357 | whatever the external editor made of the file: a file with rows to change and markers in order is rewritten exactly when no stanza is overlooked or the edited text verifies; after that a run with the same target has nothing to do, and a run towards the other scheme stops at the markers of a surgical rewrite if and only if the first run put markers into a block of several lines |
| AptAdopt.RowFlipsBack | files/apt-srctools/apt-src-scheme.ts:105-131 | a changed row is planned again towards the other scheme |
| AptAdopt.ProcessFile | files/apt-srctools/apt-src-scheme.ts:273-357 | the whole per-file procedure: unparsed, idle and unscanned exactly when parsing, planning or scanning says so, with its error; restored exactly when a stanza is overlooked and no acceptable outside result is given; the text written is the outside result when that verifies, else the surgical one, whose entries are the old ones with only schemes changed |
| AptSources.MergeInto | library/filter_plugins/apt_sources.py:29-34 | the inner loop merges one mapping over the fields at hand and fails on the first invalid name |
| AptSources.RenderRows | library/filter_plugins/apt_sources.py:38-62 | the row loop yields the lines of all shown fields in order, or fails on the first refused value |
| AptSources.RenderStanza | library/filter_plugins/apt_sources.py:23-63 | merge, check of required fields and rows of one stanza |
| AptRows.NameExact | library/filter_plugins/apt_sources.py:13-37 | a name is printed in the spelling of the documented one it equals but for case, else as it is; a valid name is a letter and then letters, digits and `-`; and which values count as lacking |
| AptRows.ShownExact | library/filter_plugins/apt_sources.py:39-52 | the text of a value: a flag as yes or no, a number in decimal, a text as it is, a list with blanks between parts that are flags, numbers or one-line texts; nothing, an empty list and components that are off have no row; all else is refused |
| AptRows.RowExact | library/filter_plugins/apt_sources.py:39-62 | the lines of a field: its name and text on one line; for a Signed-By that is a public key block its stripped lines behind a line of their own, a dot for an empty one; any other line feed and any carriage return is refused |
| AptSourcesFacts.MergeExact | library/filter_plugins/apt_sources.py:28-34 | merging keeps one field per name whatever its case, with the last value and the canonical spelling; it fails exactly for an invalid name |
| AptSourcesFacts.BaseExact | library/filter_plugins/apt_sources.py:70-72 | what a stanza falls back to is the value of the default by name whatever its case, else `Types: deb`, else the acquired key, if and only if it is not the types of defaults that spell them exactly `Types` last, after another spelling with another value |
| AptSourcesFacts.TwoSpellings | library/filter_plugins/apt_sources.py:70 | two spellings of Types in the defaults: the exact one moves to the front, so the last one is not in force |
| AptSourcesFacts.EntryMerged | files/apt-srctools/apt-src-model.ts:318-393 | the stanza printed for a mapping is read as the entry that holds exactly the values in force |
| AptSourcesFacts.FitsExactly | library/filter_plugins/apt_sources.py:54-60 | among all printed rows only a keyblock can fail to be read |
| AptSourcesFacts.PrintedExactly | library/filter_plugins/apt_sources.py:66-73 | printing succeeds exactly for a non-empty list whose merged mappings have valid names, everything required, and in force only values of the kinds and shapes the rows take |
| AptSourcesFacts.PrintedReads | library/filter_plugins/apt_sources.py:23-73 | for ASCII mappings the deb822 parser accepts the printed text if and only if no line inside a keyblock is white space only, and then reads one entry per mapping holding the case-insensitive merge |
| AptSourcesFacts.LinesKept | library/filter_plugins/apt_sources.py:57-60 | the stripped keyblock comes back exactly when no line of it is a lone dot and lines break at line feeds only |
| AptSourcesFacts.SpacedKeySample | library/filter_plugins/apt_sources.py:57-60 | a keyblock with a line of one space is a row that is printed and that cannot be read |
| AptSourcesFacts.SpacedFileSample | library/filter_plugins/apt_sources.py:66-73 | a whole text is printed for such a mapping, and the deb822 parser refuses it |
| Framing.FramesSplit | files/kanata-dial/protocol.ts:11-25 | reading on from where a push stopped equals reading all at once; a failure of the first part is a failure of the whole |
| Framing.ChunkIndependence | files/kanata-dial/protocol.ts:11-25 | for every cutting of a byte stream the chunks are accepted exactly when one push is, with the same messages and the same tail, which stays within the limit |
| Framing.FramesExact | files/kanata-dial/protocol.ts:11-25 | whatever lines went over the wire, each ended by byte 10, are accepted if and only if each is a message of its own within the limit and so is the unfinished rest in length; the messages are then the values of the lines in order |
| Framing.WireOf | files/kanata-dial/protocol.ts:11-25 | every stream of bytes is such lines and such a rest |
| Framing.JsonLines.Push | files/kanata-dial/protocol.ts:11-25 | one push: the messages and the new tail of the framing function; a throw leaves the pending bytes alone |
| Relay.PrecisionRelay.Send | files/kanata-dial/relay.ts:67-75 | a write on an open socket; backpressure destroys the socket after the command went out |
| Relay.PrecisionRelay.ApplyHeld | files/kanata-dial/relay.ts:77-82 | the wanted key action is sent when it differs from the last one, and remembered only when the write succeeded |
| Relay.PrecisionRelay.HandleConnect | files/kanata-dial/relay.ts:116-120 | the first query of a connection by its role |
| RelayTarget.ConnectAsks | files/kanata-dial/relay.ts:116-120 | the target is asked for its keys, the source for its layer |
| Relay.PrecisionRelay.HandleSource | files/kanata-dial/relay.ts:128-135 | one source message: the layer decides what is held, a malformed one throws; RelayLayer.SourceHears says which |
| RelayLayer.SourceHears | files/kanata-dial/relay.ts:128-135 | a source message that names a layer makes the key held exactly when it is the precision layer; one that is broken, or shows a layer without a name, closes the source and changes nothing else |
| RelayTarget.ApplyTells | files/kanata-dial/relay.ts:77-82 | a press or a release is handed to the adopted target exactly when the other one was sent before, and counts as sent only when it was taken |
| RelayTarget.AskedForNames | files/kanata-dial/relay.ts:136-145 | the names reply: a target that does not list the key is closed, one that does is handed the release and the layer query behind it; any other message moves it nowhere |
| RelayTarget.BehindRelease | files/kanata-dial/relay.ts:146-160 | behind the release only an answer naming the fallback layer adopts the target, which is then told at once to press when the source holds; an answer naming another layer is asked again within 25 ms; one without a name closes it |
| RelayTarget.Served | files/kanata-dial/relay.ts:161-171 | an adopted target is polled again after an answer that names a layer or lists keys, is closed by one without a layer name or a broken message, and nothing else counts |
| RelayTarget.ServeIs | files/kanata-dial/relay.ts:161-171 | what counts as an answer to a poll, and what a malformed one does |
| Relay.PrecisionRelay.HandleTarget | files/kanata-dial/relay.ts:136-160 | one target message: release then query, and adoption only on the fallback layer |
| Relay.PrecisionRelay.HandleServe | files/kanata-dial/relay.ts:161-171 | the part both roles share: malformed replies throw, replies move the next poll |
| Relay.PrecisionRelay.HandleData | files/kanata-dial/relay.ts:121-176 | a chunk: all messages framed from it in order, a throw destroys the socket and keeps the effects before it |
| RelayTarget.DataExact | files/kanata-dial/relay.ts:121-175 | a chunk whose completed lines are messages of at most 65536 bytes, and leave no more behind, hands them on in order; any other closes the connection and hands on none |
| RelayTarget.ValuesExact | files/kanata-dial/relay.ts:123-172 | messages are taken one after the other up to the first that ends the handling of its chunk |
| Relay.PrecisionRelay.HandleTimer | files/kanata-dial/relay.ts:103-115 | the poll timer: timeouts destroy, an idle session is queried |
| RelayTarget.TickExact | files/kanata-dial/relay.ts:103-115 | a tick closes a connection that is not ready by its first deadline or whose query is overdue, and asks only when nothing is asked and the poll is due |
| Relay.PrecisionRelay.HandleClose | files/kanata-dial/relay.ts:178-189 | a closing source releases the key; a closing adopted target is forgotten |
| Relay.PrecisionRelay.BeginStop | files/kanata-dial/relay.ts:193-198 | stopping forgets the source and releases before anything else |
| RelayWorld.TargetDataIsHandled | files/kanata-dial/relay.ts:121-176 | the world steps used in the safety proof do exactly what the data handler does |
| RelaySafety.ApplySettles | files/kanata-dial/relay.ts:77-82 | apply leaves the state settled and the connection in good order |
| RelaySafety.AdoptFine | files/kanata-dial/relay.ts:146-154 | adoption on a reply keeps the connection in order: its query came behind the release |
| RelaySafety.AnsweredQuery | files/kanata-dial/relay.ts:146-160 | replies answer queries in order, so the query a layer reply answers has been run by the peer |
| RelaySafety.StepSafe | files/kanata-dial/relay.ts:92-206 | every step of every participant keeps the invariant |
| RelaySafety.HeldAgrees | files/kanata-dial/relay.ts:67-82 | in every reachable state with a live adopted target, running the peer's key bit through the commands in flight gives what the relay believes it sent, which is the source's state unless stopping; which state that is says KeyFollowsLayer |
| RelayLayer.KeyFollowsLayer | files/kanata-dial/relay.ts:67-191 | in every run with a live adopted target, the key is held once everything in flight is run if and only if the source connection that is there last named the precision layer, in a message that was not broken and came before any that was, and `stop` was not called; said of the events of the run alone |
| RelayTarget.HangsUp | files/kanata-dial/relay.ts:103-115 | in every run a connection that is still open after a tick was opened within the timeout, or serves: the source has named a layer, the target is adopted |
| RelaySafety.TraceAlternates | files/kanata-dial/relay.ts:136-160 | on every target connection: one release, then strictly press and release in turn; a press needs an answered query that was queued behind the release |
| RelaySafety.AdoptsOnFallback | files/kanata-dial/relay.ts:146-154 | a target becomes the one presses can go to only in a step that brings it an answer naming the fallback layer |
| RelaySafety.NoPressOnceStopping | files/kanata-dial/relay.ts:193-206 | no step of any run writes a press once the relay is stopping |
| RelaySafety.StopReleases | files/kanata-dial/relay.ts:214-274 | when `resetTarget` succeeded its release was run, and the key is up after everything in flight |
| RelayTarget.ResetHears | files/kanata-dial/relay.ts:243-272 | the connection `stop` opens: it sends the release and the query once the key is listed, succeeds only on an answer naming the fallback layer behind them, asks again for any other layer, and fails on a broken message or a target without the key |
| Delivery.Disk.MkdirAbove | files/links/delivery.ts:133-170 | recursive mkdir makes exactly the missing directories above the entry, or changes nothing |
| Delivery.Disk.Rename | files/links/delivery.ts:18-41 | rename moves the temporary over a file or link and never over a directory |
| Delivery.Disk.ReplaceWithLink | files/links/delivery.ts:133-149 | on success the destination is a link to the source; on any failure every named entry but new directories is as before; it succeeds when no call fails |
| Delivery.Disk.ReplaceWithCopy | files/links/delivery.ts:151-170 | on success the destination holds the source's bytes and low mode bits; on any failure every named entry but new directories is as before |
| Delivery.MadeReferent | files/links/delivery.ts:133-170 | making directories does not change what a link chain reaches |
| Registration.Preflight | files/config/registration.ts:82-148 | an accepted batch satisfies every admission rule; on a disk that does not fail, every batch that satisfies the rules is accepted; the rules and the slots are those of RegistrationSlots.AdmittedExactly |
| RegistrationSlots.ChooseExact | files/config/registration.ts:83-115 | a record is accepted if and only if its paths and suffix are well formed, its source can be read, not both of its slots hold something, a disabled one has a suffix, and its slot holds nothing, a file or a link and is not its source; the slot is the disabled one exactly when that held something, or neither did and the record says so |
| RegistrationSlots.AdmittedExactly | files/config/registration.ts:82-148 | a batch is accepted if and only if every record is, no two claim one place with either of their slots, and no donor's links come by a claimed one; every record then has that slot |
| Registration.WalkDonor | files/config/registration.ts:138-146 | the walk with its set of visited names ends, also on cyclic chains, and answers whether the slot is met |
| Registration.RestoreOne | files/config/registration.ts:153-168 | one slot back to absent, to its bytes and mode, or to its literal link target |
| RegistrationSafety.MeetsIsExact | files/config/registration.ts:138-146 | a walk that never met the slot has checked a set of names closed under following links |
| RegistrationSafety.ChainKept | files/config/registration.ts:133-148 | writes off a link chain leave what the chain reaches |
| RegistrationSafety.DonorExact | files/config/registration.ts:133-148 | a donor reaches the same file after every write to the chosen slots if and only if the kernel's link chain from it comes by none of them |
| RegistrationSafety.DonorKept | files/config/registration.ts:133-148 | a donor of an admitted batch whose own chain is clear of the slots reaches the same bytes and mode after any writes to them |
| RegistrationSafety.WalkClears | files/config/registration.ts:138-146 | the preflight's walk by names clears the chain of every donor whose own links read by name as the kernel follows them |
| RegistrationSafety.NeverBoth | files/config/registration.ts:96-130 | after delivery no record has both its enabled and its disabled slot, unless its unchosen slot lies above a chosen one |
| RegistrationSafety.DetourLosesDonor | files/config/registration.ts:138-146 | a donor reached through a linked directory: the walk by names admits the batch and delivering makes the donor a loop |
| RegistrationBatch.BackUp | files/config/registration.ts:172-176 | after a successful backup loop every regular slot has its copy and nothing else changed |
| RegistrationBatch.Deliver | files/config/registration.ts:177-181 | the loop counts exactly the records delivered, whose directories stand; slots to come are not touched when no missing one lies above an earlier one; without failing calls it gets at least past every prefix that is free of nesting |
| RegistrationBatch.NeverBothExactly | files/config/registration.ts:96-130 | and that is exact: once an admitted batch is delivered, a record has both its slots if and only if its unchosen slot lies above a chosen one |
| RegistrationBatch.Restore | files/config/registration.ts:152-170 | in reverse order every mutated slot is put back; on a disk that does not fail it succeeds |
| RegistrationBatch.RunBatch | files/config/registration.ts:171-183 | backups, deliveries and the operation, stopping anywhere; what was delivered is never nested |
| RegistrationBatch.WithInputBatch | files/config/registration.ts:65-192 | for every failure point and every operation on named entries: a batch runs only if it fits and on a calm disk whenever it does, each record in the slot that what was there before and its own flag say, which is what the operation is told; a refused batch changes nothing; the operation sees each record delivered as its strategy says, each donor intact, and both slots of a record exactly when its unchosen slot lies above a chosen one; its outcome decides whether the result stands; restoring succeeds when its own calls do; every slot is then as before if no missing slot lies above an earlier deliverable one, and is not, on a disk without failures whose donors are clear, if one does |
| RegistrationBatch.NestedSlotLost | files/config/registration.ts:152-168 | a batch of two links, one beneath the missing slot of the other and before it: admitted, no call fails, and it is not put back |
| RegistrationBatch.BothSlots | files/config/registration.ts:77-130 | a batch of two records, the chosen slot of one beneath the unchosen slot of the other: admitted, no call fails, and the operation finds that record with both slots, which the next preflight would refuse |
| Actions.Traversal.VisitFamily | files/actions/session.ts:130-154 | visiting a family: the cycle check, then its steps in order, updating the set of families and the map of operations |
| Actions.Traversal.Domains | files/actions/session.ts:124-159 | the traversal with its two bounds |
| ActionGraph.VisitIsLog | files/actions/session.ts:124-159 | visiting equals logging the reached steps first and collecting them afterwards |
| ActionGraph.TraversalExact | files/actions/session.ts:124-154 | the traversal succeeds if and only if everything reachable in that audience is acyclic, has its plan and is unambiguous, and returns exactly the reachable families and operations |
| ActionGraph.DomainsExact | files/actions/session.ts:124-159 | the same with the bounds of 128 families and 128 operations |
| ActionOrder.OrderExact | files/actions/session.ts:124-159 | the operations of a session are those of the run it admits, in the order in which the run starts each first, and its families come in the order in which they are entered first |
| ActionRun.Invocation.ExecuteSteps | files/actions/runtime.ts:85-123 | steps run in order until the first interrupt or failing step; authored bodies run their children once in order |
| ActionRun.Invocation.RunAction | files/actions/runtime.ts:126-203 | a family that is admitted, directly or inherited, runs its flattened plan |
| ActionRun.FlatExact | files/actions/runtime.ts:85-123 | what each kind of step stands for: an operation of its own family, one program, a program behind its children, or the whole plan of another family in the place of its name; steps in order, each once |
| ActionRun.RunRoot | files/actions/runtime.ts:126-203 | running an admitted root is never refused and starts a prefix of the flattened plan: all of it, completing, exactly when every start succeeds, else up to the first interrupt, which starts nothing, or the first failure, which is its last start |
| ActionSpec.ParseActionSpec | files/actions/model.ts:190-247 | the admission loop over families |
| ActionAdmit.SpecExact | files/actions/model.ts:173-247 | a spec file is taken if and only if, by its JSON, it has version 1 and every row is a family: names, plans by audience, steps with paths beneath `bin/`, an entry named for an audience that has a plan, the default of that same audience, the aliases that follow, and the setup; and it is taken as that spec, in file order |
| ActionAdmit.SelectExact | files/actions/model.ts:248-268 | a name selects a family and an audience if and only if the entry is that of the first such family, the name is the entry or an alias of it, says that audience or is the bare name of an entry that does, and the family has a plan for it |
| ActionCompile.Claim | library/filter_plugins/action_audiences.py:203-206 | names are claimed exactly when none is taken and none occurs twice |
| ActionCompile.CompileGroups | library/filter_plugins/action_audiences.py:185-246 | the loop over groups: entries, aliases and plans in order, or failure; what they are and when it fails says CompilesExactly |
| ActionPlans.CompilesExactly | library/filter_plugins/action_audiences.py:185-246 | compiling succeeds if and only if every group that runs has a stable name and children that are contained and cross no audience, and all names it generates are new and different; the entries are then those of the running groups in order, each with its audiences, names, plans and setup |
| ActionPlans.SpecReads | library/filter_plugins/action_audiences.py:209-237 | the spec the runtime reads: for every running group and offered audience as many steps as there are authored children and children of the group, step k the one of child k, the action named for it, else the declaration contributed under its name, else `bin/` and the name; all inside the step of the root where there is one |
| ActionPlans.ContainedIs | library/filter_plugins/action_audiences.py:54-57 | a child name is contained exactly when it is `.` or none of its parts is empty, `.` or `..` |
| ActionNames.PolicyNarrows | library/filter_plugins/action_audiences.py:106-198 | from the policies to the families: no family has a plan for an audience that its action's override or the base disables, none exists for an action switched off, and it has a default exactly when the audience declared for the action, else for the base, has a plan |
| ActionNames.ContainedExact | library/filter_plugins/action_audiences.py:54-57 | a contained child name is admitted beneath `bin/` by the runtime if and only if it is not `.` |
| ActionNames.FamilyRows | library/filter_plugins/action_audiences.py:238-243 | each member of an emitted family, one by one |
| ActionNames.CompiledAccepted | files/actions/model.ts:190-247 | the runtime admits a compiled spec if and only if, in every group that is compiled, the action word and each reference is a name, each contributed declaration is one the runtime takes, each root path lies beneath `bin/`, each base directory is a text or a flag, and no plain child is `.`; it then reads back every family, plan, step and setup as compiled, which is what ActionPlans.SpecReads says of the groups |
| ActionNames.GroupExact | library/filter_plugins/action_audiences.py:185-246 | a compiled group meets what the runtime asks exactly when what went into it does |
| ActionNames.NamesDistinct | library/filter_plugins/action_audiences.py:203-206 | the names generated for all families of a compiled spec are new and pairwise different |
| ActionNames.NamesSelect | files/actions/model.ts:248-268 | generated names are distinct across families, and each selects the family and audience it was generated for |
| Links.ResolveRecords | files/links/manifest.ts:180-222 | the loop over declared links: accepted records and invalid rows |
| LinksVerdict.ResolvedExactly | files/links/manifest.ts:186-220 | a row is accepted if and only if both its paths expand, they differ, and no row accepted before it claims the same destination in the same scope with another content; accepted records and invalid rows are those, in order |
| Links.ResolvedCompatible | files/links/manifest.ts:194-208 | accepted records never disagree about a destination within a scope, and no source is its own destination |
| LinksSafety.DeedsAreLicensed | files/links/operations.ts:171-250 | at any point of applying a plan, the deed on a destination that is a directory, a special file, or an entry none of its records may overwrite is to leave it |
| Links.ApplyRecord | files/links/operations.ts:228-250 | a step that does not throw could inspect the destination, reports the status decided from the inspection and does just what was decided; one that throws leaves everything but new directories of a licensed delivery; without failing calls it throws only where the destination cannot be inspected or directories cannot be made |
| LinksVerdict.VerdictExact | files/links/operations.ts:171-250 | what is done about a record and what it reports, said of the disk: a present one whose source serves is delivered exactly when its destination is missing, is healthy by another strategy than the one selected, or is foreign under the policy `replace` or an overwrite of `preserve`; an absent one is removed exactly when it is healthy; and the status of every other case |
| LinksSafety.DeliveredHealthy | files/links/operations.ts:116-152 | what a delivery leaves is assessed healthy by its own strategy |
| LinksSafety.AppliedSettles | files/links/operations.ts:228-250 | a record just applied has nothing left to write, and is managed if it reported so |
| LinksSafety.OthersSettle | files/links/runtime.ts:190-192 | the step of another record leaves a settled record settled, and a present managed one managed |
| LinksSafety.ApplyAll | files/links/runtime.ts:190-192 | on every disk, failing or not, directories, special files and entries no record may overwrite hold what they held; when no step throws, every record that was owed a delivery in the beginning reports MANAGED and is healthy by the strategy wanted in the end, every absent one that was healthy is removed, and every other reports what VerdictExact says, but for destinations that had to become directories; and a record that reported MANAGED is classified MANAGED in the final state if and only if it is present, or no record beneath it was due to be delivered and none above it was |
| LinksSafety.AbsentFate | files/links/operations.ts:211-250 | a missing destination becomes a directory exactly in the step of a record beneath it that was due from the beginning, and goes out of reach exactly in the step of such a record above it |
| LinksSafety.ApplyTwice | files/links/runtime.ts:190-192 | applying a plan a second time changes nothing |
| LinksSafety.ResolvedSeparate | files/links/manifest.ts:180-222 | resolved claims share a physical destination only as one claim, when no destination is claimed in both scopes |
| LinksSafety.Apply | files/links/runtime.ts:155-204 | an invalid row or a strategy that cannot be used means nothing is written; what no record may overwrite is kept; the rows are those of ApplyAll; the exit code is 2 exactly when a source is missing or of no use, and 0 exactly when every row is an override or reported MANAGED, and which of those are |
| LinksSafety.NestedAbsentLost | files/links/operations.ts:211-221 | a plan of an absent record above a present one, applied without a failing call: the first reports MANAGED and a directory stands at its destination in the end |
| Paths.NormalizeTwice | files/config/context.ts:120 | normalizing a normalized absolute path changes nothing |
| ContextPaths.WalkExact | files/config/context.ts:120 | the components of a path step by step: an empty one and `.` stay, `..` leaves the last, any other is entered |
| ContextPaths.NormalizeWrites | files/config/context.ts:120 | a normalized path is written from those components, with its slash at the end kept |
| ContextPaths.ResolveWrites | files/config/context.ts:118 | a resolved path is written from them, walked from the base unless it is absolute |
| ContextPaths.RootExact | files/config/context.ts:80-92 | the five known roots: the variable when it is set, else its directory below the home |
| ContextPaths.ExpandedExact | files/config/context.ts:94-115 | a written path is expanded if and only if it is plain, `~` or `${ROOT}` with a plain rest, and the root can be found, and to that path |
| ContextPaths.SelectorExact | files/config/context.ts:124-185 | a selector resolves if and only if it has exactly one field, no blank one, and is not nested deeper than 32, and points somewhere: its path, a relative one that stays beneath the base, the variable unless its value is empty or ignored, else the default; and to there |
| Paths.RelativeExact | files/config/context.ts:166-173 | the test on the relative path detects exactly the targets outside the base |
| Context.BindContextConfigs | files/config/context.ts:237-303 | the loop over recipes: outputs, inputs, fuzing roots, or the first failure |
| ContextPaths.BindsExactly | files/config/context.ts:237-303 | a selection is bound if and only if the context knows its names, its base can be found, every recipe's selectors resolve and all outputs differ; the result has each file, directory, glob and fuzing root where that says |
| Context.Freeze | files/config/runtime.ts:154-184 | the assignments to the frozen spec: it exists exactly when binding succeeds |
| ContextFreeze.RelativeStays | files/config/context.ts:163-175 | a relative selector is accepted if and only if it stays at or beneath its base |
| ContextFreeze.FixedResolves | files/config/context.ts:94-121 | a resolved path given as a selector resolves to itself in every environment, unless it holds `$` or `~` |
| ContextFreeze.FrozenBinds | files/config/runtime.ts:165-184 | in any environment the frozen spec binds exactly when no resolved path holds `$` or `~` |
| ContextFreeze.FreezingExact | files/config/runtime.ts:154-184 | the frozen spec binds to exactly what was admitted, in whatever environment, if and only if its paths hold no `$` or `~` and its fuzing roots do not move |
| ContextFreeze.FrozenIndependent | files/config/runtime.ts:154-184 | without fuzings and with such paths, freezing is invisible in every environment |
| ContextFreeze.FuzingRootMoves | files/config/context.ts:293-296 | a relative fuzing root is resolved against `/` after freezing, and so moves from any other base |
| Catalog.Load | files/catalog/runtime.ts:209-310 | the loops of loading: declarations, compiled layer, site overlay, order |
| FlowLoad.LoadsExactly | files/catalog/runtime.ts:209-310 | a flow loads if and only if no id is declared twice, the flow is declared, and its compiled and site files are in order, rule by rule; then every declared step that no site file erases stands once, where its site file places it or else its compiled one, sorted by file name |
| FlowFacts.PlacementExact | files/catalog/runtime.ts:153-161 | a file name places a step exactly when it is two digits from 01 to 99, the flow and a name, and at that index |
| FlowFacts.PhaseExact | files/catalog/runtime.ts:83-88 | the phase whose range the index falls in |
| Catalog.Execute | files/flow/runtime.ts:144-168 | the loop over scheduled steps, with its exit code |
| Catalog.RunsPrefix | files/flow/runtime.ts:152-168 | build and install run exactly the prefix up to the first failure, and the exit code tells which |
| FlowFacts.RunExact | files/flow/runtime.ts:152-168 | any run, status runs included: it goes up to the first step that ends it and keeps its exit code 2 or makes it 1; otherwise it runs all, with exit code 1 exactly when a status step called for attention, which code 2 does only for a handler that says so |
| CatalogFacts.DeclaredExact | files/catalog/runtime.ts:216-224 | an id belongs to a flow exactly when that flow lists it |
| CatalogFacts.SiteStepKeeps | files/catalog/runtime.ts:263-306 | one site file re-places or removes one step and keeps every other, behaviour included |
| CatalogFacts.OrderedIndex | files/catalog/runtime.ts:153-161 | file names in order have indices in order |
| CatalogFacts.LoadedExact | files/catalog/runtime.ts:209-310 | a loaded flow holds each declared id that no tombstone removes exactly once, behaving as compiled, with indices and phases that never decrease |
| Loader.QuoteReads | files/zim/activation.ts:130-133 | the shell reads every quoted value back as it was; quoting fails exactly for NUL |
| Loader.ProjectLoader | files/zim/activation.ts:148-176 | the replacement loop and the two checks after it |
| LoaderTokens.ReplacementsExact | files/zim/activation.ts:155-167 | every token stands for the path meant: the shell reads the value put in as the home, the output, the pattern of the legacy paths each once, the controller, and for `zimrc` alone the emergency module; it fails exactly for a path with NUL |
| LoaderTokens.ReplaceExact | files/zim/activation.ts:135-146 | the one occurrence of a token is replaced; none, or a second one behind it, refuses the template |
| LoaderTokens.PlaceholderExact | files/zim/activation.ts:170-171 | a text is refused exactly when an `@@ZIM_NAME@@` of capitals is left in it |
| LoaderTokens.DropExact | files/zim/activation.ts:174 | one line end is dropped at the end, of either kind, and no more |
| LoaderFacts.StepExact | files/zim/activation.ts:135-146 | replacing the next token works and replaces just it, if and only if no value put in before holds that token's text |
| LoaderFacts.ProjectionExact | files/zim/activation.ts:148-176 | the same for a template given as its literal pieces and tokens |
| LoaderFacts.TemplateExact | files/zim/activation.ts:135-176 | for every template that holds each token once without overlap, the sequential projection is accepted if and only if scanning once and putting in all values leaves nothing like a placeholder, and equals that text |
| LoaderFacts.ReplacementsFit | files/zim/activation.ts:158-169 | the replacements of both channels meet the premise of that theorem when there is a legacy path |
| LoaderFacts.LoaderExact | files/zim/activation.ts:148-176 | for both channels with a legacy path and any template that holds each token once without overlap: the projection is the simultaneous substitution of the quoted values, refused exactly when that leaves something like a placeholder |

## Left out

Theorems that need a premise of their own:

- RelaySafety.StopReleases: needs that no dying connection loses commands after the reset began, because a release lost on the way releases nothing.
- RegistrationSafety.WalkClears: one-way; a donor whose links read differently by name can still be clear, and `DonorExact` says when.
- RegistrationBatch.WithInputBatch: `Ready` needs donors that are clear in the sense of `DonorExact`; that a rollback fails is said for disks without failing calls; the operation may do anything to named entries except touch the private backups.
- LinksSafety.ApplyAll: what settles in the end needs that destinations are shared only by the same claim, none lies on the way of a source, relative link targets are read as written, and what stands at a present record's destination has its directories above it; what must not be overwritten needs nothing. That no step throws on a disk without failing calls leaves out the `stat` errors named under Links.ApplyRecord.
- LinksSafety.ApplyTwice: the same layout of destinations.
- AptProcess.RewriteReads: for deb822 files, needs that no stanza is overlooked; `RewriteSeen` says what the others read as.
- AptSourcesFacts.PrintedReads: for ASCII values; other line separators and white space differ between the two languages.
- LoaderFacts.TemplateExact: values start and end in a quote, which `ReplacementsFit` gives except for an empty legacy list; the template holds each token once, without overlap.
- LoaderFacts.LoaderExact: needs a legacy path, for the same reason.
- AptList.ListGateExactly: needs that no option value ends its bracket or its line, ends in white space, or holds further assignments, because such values move meaning from one field or entry to another; that a bracketed uri has a bracket before it; and that a trusted flag does not stand beside a trusted text, as the deb822 parser never leaves it.
- Links.ApplyRecord: the source also throws when `stat` fails otherwise than for a missing file: a loop behind the source or behind a foreign link, or a source beneath a file. The model takes such a source for none and such a link for foreign, and goes on.
- AptFolder.LossExactly: the listed names are entries of the directory, as a listing returns them.
- CatalogFacts.LoadedExact: flow names of a catalog are distinct, as keys of a JSON object are.

Parts of the repository and of its platform that are not modelled:

- Error wording, log lines, help texts and command-line parsing; an error is its kind, and its line number where the parsers give one.
- `resetTarget` is modelled on values inside the relay's world, not as a class: its closures share local variables that live no longer than one promise.
- JavaScript objects list integer-like keys first; records here keep insertion order throughout.
- Marker ids beyond 2^53, where the source loses precision.
- `canonicalEntry` fills in missing members of hand-written JSON; entries here have all members.
- `block-in-file` is an external program: the scheme switcher gets the file as that program left it as an input. Restoring owner and mode of the file afterwards is not modelled.
- Time is a number given to each handler, read once per chunk; `JSON.parse` is an uninterpreted partial function.
- The peer answers layer queries in order and runs each connection's commands in order; the leftovers of a dead connection are run or lost before the next connection's first command.
- Temporary and backup names never collide; the physical directory behind a path is fixed during a batch or a plan; a chain of links longer than the kernel follows is unreadable.
- Privilege escalation of link delivery: the executor does the same steps, with another program.
- The admission of a domain step's declaration is a parameter of the action parser, and the fields it adds are kept as read.
- `bin_composers` and the first loop of the action compiler, which sorts the authored bins: their groups and roots are arbitrary inputs of the model.
- The sub-process protocol of action sessions, environment capture and file hardening: an action step is its start, its success, failure or interruption.
- `links status`, `remove` and `audit`, the choice of rows by scope and id pattern, and the switch that turns the tool off.
- Which of its two formats the scheme switcher takes a file for, by its name or first field: the format is an input.
- The `.mjs` entries, links and bodies the action compiler lists for deployment beside its spec.
- The expansion of `~` and `${...}` in link manifests is a parameter; the one of config contexts is modelled.
- Reading manifests, catalogs and layers from disk; layers come sorted by name. The check that a flow handler is an executable is part of the input that says how a handler ends.
- In the Python printer: specs that are not mappings, field names that are not strings, tuples in place of lists, and `apt_preferences`, which only differs in its defaults.
- In the directory converter: `join` for a directory that is not normalized, hard links, and two names for one directory.
- Keybindings, disk, backup, kernel, audio and browser tools: orchestration of external programs with members that would only add easy lemmas.
