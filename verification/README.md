# Fabri, verified models

Dafny models of the self-contained algorithms inside Fabri, a framework for LLM agents, with proofs of
what each of them promises. Every `.dfy` file is one module; `dafny verify dfyconfig.toml` checks all of
them.

| area | modules | original |
|---|---|---|
| shared vocabulary | `Options`, `Collections`, `Reals`, `Text`, `JsonText` | Python strings, exceptions, JSON string syntax (section 7 of RFC 8259); facts about finite sets and reals |
| TOON codec | `ToonScalars`, `ToonLines`, `ToonSpec`, `ToonRoundTrip`, `Toon`, `ToonForm`, `JsonReading`, `ToonReading` | src/fabri/toon.py |
| blind label sheet | `LabelSheet`, `LabelLaws` | benchmarks/agreement/build_label_sheet.py, benchmarks/agreement/score_agreement.py |
| wave planning | `Waves`, `WavePlanner`, `WaveLaws` | src/fabri/builder/waves.py |
| company tree | `CompanyGraph`, `Company`, `CompanyCompiler`, `CompanyLaws` | src/fabri/company.py |
| breadth-first walks | `BreadthFirst`, `BreadthOrder`, `CompanyWalk`, `WalkLaws`, `TraceAudit`, `TraceLaws` | src/fabri/benchmarks/company_setup_probe.py |
| layered configuration | `ConfigValue`, `ConfigMerge`, `ConfigEdit`, `ConfigLaws` | src/fabri/config.py |
| candidates | `Candidate`, `CandidateRun`, `CandidateEffects`, `CandidateLaws` | src/fabri/benchmarks/company_setup_probe.py |
| learned block | `LearnedBlock`, `BlockLaws` | src/fabri/cli.py |
| statistics | `SignTest`, `Wilson`, `Kappa` | src/fabri/benchmarks/, benchmarks/jev/report.py, benchmarks/agreement/score_agreement.py |
| rate limiter | `RateLimiter` | benchmarks/jev/run.py |

How the models are laid out:

- **Two accounts.** The functions the methods are proved against follow the program. The modules named `...Laws`,
  with `ToonForm`, `ToonReading`, `JsonReading` and `BreadthOrder`, give a second account of the same results, by
  positions, written-out conditions and whole texts, and prove the two equal; a function that computed something
  else would break one of them.
- **Codec.** `ToonSpec` says what the encoder writes and the decoder reads as functions over lines;
  `ToonRoundTrip` proves that they are inverse, block by block: any legal continuation may follow, and the
  decoder stops on its first line. `Toon` has the program's own form, emitters on a shared list of lines, a
  cursor and index loops, each proved equal to its function. `ToonForm` pins the printed text down to tables,
  blanks and quotes; `ToonReading` says what becomes of texts the encoder does not print. Objects are sequences
  of distinct keys, and equality of values is up to the order of keys, because table rows come back in header
  order.
- **Label sheet.** The sheet is rendered with arbitrary outputs and filled in by a rater; the line-by-line
  reader gets back exactly what the rater wrote. The fence argument is `LineRuns` with `CannotClose`: a line
  inside a block has no run of backticks as long as the fence.
- **Waves.** `Waves` defines the layering by what is free once the layers before are placed, and proves its
  laws against dependency chains; `WavePlanner` is the indegree algorithm, proved to compute that layering
  also when a dependency is listed twice.
- **Company.** The depth-first walk with its visited and active sets is proved to accept exactly the rooted
  trees; the recursive writer is proved against the post-order of the tree.
- **Walks.** One lemma set about a queue and a seen set serves config discovery, the edge walk and trace
  analysis. A candidate run is proved against a stage-by-stage function on files.
- **Arithmetic.** Statistics are in exact arithmetic over `real`. A square root is any function that gives
  the non-negative root. The sign test's p-value is proved to be a fraction of sign patterns, and a Wilson
  interval to hold exactly the proportions its score test does not reject; the listed laws follow from that.
- **Rate limiter.** A state machine with one step for each statement of `wait` that touches the lock, the
  shared time or the clock; a run is any sequence of enabled steps of any number of calls.

Two statements one might expect are false of the code, and the exact conditions are proved instead:

- Applying a candidate may lower an effective value. A step budget, a top-k or a spawn limit that is written as
  a float is overwritten even when it is higher, in the root's file too for the spawn limit; the token floor
  skips whatever is not a whole number and stays unmet there. `RunMoves` says for every delegated node of a
  run that each floor lowers exactly the floats above it, that tokens never go down and meet their floor
  exactly when they are whole numbers, and that no cost cap goes up; `RootMoves` says it of the root's spawn
  limit, and `TimeoutsMove` that no delegation's timeout goes down. `FloatBudgetComesDown`,
  `FloatSpawnsComeDown` and `FloatTokensStay` are instances.
- Regrouping three config layers is lawful from left to right only. The right grouping may be accepted where
  the left one is refused (`GroupingMatters`); `Regrouped` says exactly when both are accepted.

## Model

| member | source | states |
|---|---|---|
| `JsonText.LoadsQuote` | src/fabri/toon.py:136-137 | Reading a printed JSON string gives the string back, for every string. |
| `ToonScalars.ScalarRoundTrip` | src/fabri/toon.py:124-181 | A printed scalar reads back as itself with its type: quoting never lets a string return as a number, bool or null, nor a number as a string. |
| `ToonScalars.SplitRow` | src/fabri/toon.py:309-332 | Splitting the comma-joined cells gives back the same cells, whatever quotes and commas they hold. |
| `ToonScalars.CellsRoundTrip` | src/fabri/toon.py:335-354 | A whole row of scalars survives joining, splitting and reading. |
| `ToonLines.KeyRoundTrip` | src/fabri/toon.py:267-282 | The key of a printed member line is found again, and what follows it is untouched. |
| `ToonLines.TextRoundTrip` | src/fabri/toon.py:184-200 | Printed lines, joined and split again, are the same lines with the same depths. |
| `ToonRoundTrip.HeaderRoundTrip` | src/fabri/toon.py:285-294 | A printed array header gives back its count, its field names and its inline row. |
| `ToonRoundTrip.MembersRoundTrip` | src/fabri/toon.py:216-234 | Before any continuation that starts no member at this depth, the decoder returns exactly the printed members and stops on the first line after them. |
| `ToonRoundTrip.BlockRoundTrip` | src/fabri/toon.py:52-101 | The same for the block of one value of any kind, nested to any depth. |
| `ToonRoundTrip.ArrayRoundTrip` | src/fabri/toon.py:236-247 | The same for the body of an inline array, a table or an item list. |
| `ToonRoundTrip.ItemsRoundTrip` | src/fabri/toon.py:249-260 | The same for list items one after the other. |
| `ToonRoundTrip.LinesRoundTrip` | src/fabri/toon.py:184-200 | A full decode consumes every printed line. |
| `ToonRoundTrip.RoundTrip` | src/fabri/toon.py:6-10 | For every object or array with distinct keys, encoding succeeds and decoding gives the value back, up to the order of keys inside objects. |
| `Toon.SplitAtTop` | src/fabri/toon.py:309-332 | The index loop over quotes and escapes computes the specified split. |
| `Toon.LineBuffer.EmitMembers` | src/fabri/toon.py:52-66 | Appends exactly the specified lines of the members to the shared list. |
| `Toon.LineBuffer.EmitBlock` | src/fabri/toon.py:68-101 | Appends exactly the specified lines below a value. |
| `Toon.Decoder.ParseMembers` | src/fabri/toon.py:216-234 | Moves the cursor exactly as far as the specification reads, with the same members or the same error. |
| `Toon.Decoder.ParseArrayBody` | src/fabri/toon.py:236-247 | The same for array bodies. |
| `Toon.EncodeText` | src/fabri/toon.py:40-50 | Prints what the specification prints; a top-level scalar is refused. |
| `Toon.DecodeText` | src/fabri/toon.py:184-200 | Reads what the specification reads, errors included. |
| `Toon.EncodeThenDecode` | src/fabri/toon.py:6-10 | The running encoder and decoder keep the round trip law. |
| `ToonForm.PrintedForm` | src/fabri/toon.py:52-101 | The text of every object and array is the reference form, line by line: two blanks for each level, one line for a scalar member or element, a head and the lines below it for the others. |
| `ToonForm.TableExactly` | src/fabri/toon.py:107-121 | An array is a table exactly if it holds objects only, with scalars only, all with the key set of the first, which is not empty and needs no quotes; the columns are the first object's keys in their order. |
| `ToonForm.TableText` | src/fabri/toon.py:68-86 | Such an array of n objects, in any number, is printed as `[n]{keys}:` and exactly n rows, each with the object's own value under every key. |
| `ToonForm.BareStringExactly` | src/fabri/toon.py:136-168 | A string stands without quotes exactly if it is not empty, has no white space at its ends, no comma, quote, tab or line break, none of six first characters, and reads as no constant and no number; otherwise it is a JSON string. |
| `ToonForm.BareKeyExactly` | src/fabri/toon.py:140-178 | The same for keys, with the characters a key must not hold. |
| `JsonText.QuoteForm` | src/fabri/toon.py:136-137 | A printed JSON string is, between two quotes, the escapes of its characters in turn: short ones where there are, itself if printable, and lower-case hexadecimal units otherwise. |
| `JsonReading.LoadsExactly` | src/fabri/toon.py:335-340 | A token is read as a string exactly if, between two quotes, it is a row of pieces that write its characters: as themselves, as short escapes, as units in either case, or as surrogate pairs. |
| `ToonReading.LinesExactly` | src/fabri/toon.py:186-191 | The lines read are exactly the raw lines that are not blank, in order, each with half its leading blanks as depth and its text without white space around it. |
| `ToonReading.BlankText` | src/fabri/toon.py:192-193 | A blank text is the empty object. |
| `ToonReading.BlankLines` | src/fabri/toon.py:187-189 | Blank lines, put in anywhere, do not change what a text decodes to. |
| `ToonReading.TrailingSpace` | src/fabri/toon.py:190-191 | Neither does white space at the end of any line. |
| `ToonReading.RoundTripSpaced` | src/fabri/toon.py:6-10 | So an encoded text still decodes to its value after blank lines and trailing white space are put in. |
| `ToonReading.MembersText` | src/fabri/toon.py:216-234 | Of member lines with any space, or none, after the colon, the decoded object has exactly the keys written, each with its last value; what starts no member at the top is left unread. |
| `ToonReading.QuotedKey` | src/fabri/toon.py:297-306 | A key may be any JSON string; it ends at its own closing quote. |
| `ToonReading.QuotedMember` | src/fabri/toon.py:270-282 | After a quoted key the character in the colon's place is skipped, whatever it is, unless it opens a header; what follows is the value. |
| `ToonReading.KeyAlone` | src/fabri/toon.py:229-233 | A key alone, with a colon or without, is an empty object if no deeper member follows. |
| `ToonReading.SpreadRow` | src/fabri/toon.py:309-332 | White space around the cells of a row does not matter. |
| `ToonReading.QuotedCell` | src/fabri/toon.py:309-332 | A cell may be any JSON string, commas inside it included. |
| `ToonReading.InlineText` | src/fabri/toon.py:236-238 | A row after a header gives one value for each of its cells, whatever the count before it says. |
| `ToonReading.TableReads` | src/fabri/toon.py:241-246 | A table reads its count of lines at whatever depth; a row's cells go to the columns one by one, and missing or extra cells are left out. Too few lines are an error. |
| `ToonReading.RepeatedColumns` | src/fabri/toon.py:244-245 | A column named twice keeps its last value. |
| `ToonReading.ListReads` | src/fabri/toon.py:247-260 | An item list reads its count of element lines at whatever depth, and too few are an error. |
| `ToonReading.HeaderExactly` | src/fabri/toon.py:285-294 | A text is a header exactly if it is a bracketed number, optional braces without a closing brace inside, a colon and a rest; it has one reading. |
| `ToonReading.BadHeader` | src/fabri/toon.py:285-289 | After a bare key, a bracket that opens no header is a malformed header. |
| `ToonReading.BareToken` | src/fabri/toon.py:335-354 | A token that is no quote, constant or number is a string as it stands; nothing is the empty string. |
| `ToonReading.QuotedToken` | src/fabri/toon.py:339-340 | A token that starts with a quote is read as a JSON string or refused. |
| `LabelSheet.LineRuns` | benchmarks/agreement/build_label_sheet.py:291-293 | No line of a text holds a longer run of backticks than the text. |
| `LabelSheet.CannotClose` | benchmarks/agreement/score_agreement.py:41-53 | A line whose backtick runs are all shorter than the fence does not close it. |
| `LabelSheet.BlockSkipped` | benchmarks/agreement/score_agreement.py:41-53 | A fenced output is skipped whole, whatever headings, labels or fences it holds. |
| `LabelSheet.SheetRoundTrip` | benchmarks/agreement/score_agreement.py:34-106 | Reading a filled sheet gives exactly the rater's labels of items 1 to N, or exactly the numbers of the blank and of the unreadable verdicts. |
| `LabelSheet.LabelsComeBack` | benchmarks/agreement/score_agreement.py:80-106 | With a pass or fail everywhere, items 1 to N come back with those verdicts and the stripped reasons. |
| `LabelSheet.RenderSheet` | benchmarks/agreement/build_label_sheet.py:296-331 | The section loop renders the specified sheet; an output without a rubric intent is refused. |
| `LabelSheet.ParseFilledSheet` | benchmarks/agreement/score_agreement.py:34-106 | The line loop over item, fence and fields computes the specified reading, duplicate headings and verdicts included. |
| `LabelLaws.VerdictReads` | benchmarks/agreement/score_agreement.py:85-97 | A verdict is a pass exactly if its stripped text spells the word with each letter in either case, with the long and the sharp s written out; likewise a fail. It is unfilled exactly if it is blank, and unreadable otherwise. |
| `LabelLaws.SpelledLabels` | benchmarks/agreement/score_agreement.py:84-97 | A filled sheet with any such spellings gives back items 1 to N with those verdicts and the stripped reasons. |
| `LabelLaws.BadSheets` | benchmarks/agreement/score_agreement.py:81-105 | With any other verdict the sheet is refused, with the numbers of exactly the blank and exactly the unreadable ones, ascending. |
| `LabelLaws.LabelExactly` | benchmarks/agreement/score_agreement.py:15-16 | A line is a label line exactly if it starts with the label, each letter in either case with the few characters that match besides; its value is the stripped rest. |
| `LabelLaws.LabelInAnyCase` | benchmarks/agreement/score_agreement.py:68-76 | Exchanging a label for another spelling of it, capitals say, does not change how a sheet is read. |
| `LabelLaws.SecondVerdict` | benchmarks/agreement/score_agreement.py:68-73 | A second verdict line in an item is refused under the item's number, whatever follows. |
| `LabelLaws.SecondHeading` | benchmarks/agreement/score_agreement.py:57-61 | So is a second heading with a number already used. |
| `LabelLaws.LastReason` | benchmarks/agreement/score_agreement.py:74-76 | Of several reasons the last one counts. |
| `LabelLaws.HeadingExactly` | benchmarks/agreement/score_agreement.py:13-13 | A heading is the fixed words, a number and white space, and nothing else. |
| `LabelLaws.FenceExactly` | benchmarks/agreement/score_agreement.py:14-14 | A fence is white space, three or more of one mark, and no backtick after them. |
| `LabelLaws.OpenFenceHides` | benchmarks/agreement/score_agreement.py:42-55 | After a fence that no later line is long enough to close, nothing more is read. |
| `LabelLaws.ClosedBlockHidden` | benchmarks/agreement/score_agreement.py:42-55 | A fence is closed by any fence of the same mark that is at least as long; a closed block changes nothing of how the rest is read. |
| `LabelLaws.FenceFits` | benchmarks/agreement/build_label_sheet.py:291-293 | The fence around an output is the shortest of three or more backticks that the output does not hold in a row. |
| `LabelLaws.SheetText` | benchmarks/agreement/build_label_sheet.py:296-331 | The sheet is the introduction and, for each run in order, its section written out word by word. |
| `Waves.ChecksExact` | src/fabri/builder/waves.py:123-142 | The checks pass exactly for unique ids with no self edge and no dangling edge. |
| `Waves.LayersOrdered` | src/fabri/builder/waves.py:144-155 | No id stands in two layers, and every dependency stands in a strictly earlier one. |
| `Waves.WaveIsLongestChain` | src/fabri/builder/waves.py:98-112 | An item's wave is the length of its longest dependency chain. |
| `Waves.NoEarlierWave` | src/fabri/builder/waves.py:98-112 | No valid layering puts any item earlier. |
| `Waves.NoFewerWaves` | src/fabri/builder/waves.py:98-112 | A valid layering whose wave numbers are all below m leaves the plan at most m waves. |
| `Waves.LeftOutIffCycle` | src/fabri/builder/waves.py:150-153 | Something stays unplaced exactly when the dependency graph has a cycle. |
| `Waves.PlanExactlyForAcyclic` | src/fabri/builder/waves.py:113-114 | A plan exists exactly for unique ids, no self edge, no dangling edge and no cycle. |
| `Waves.PlanLaws` | src/fabri/builder/waves.py:98-112 | One wave for each item, dependencies strictly earlier, wave number equal to the longest chain, minimal among all layerings, none of which uses fewer waves. |
| `Waves.SpawnOrderTopological` | src/fabri/builder/waves.py:158-167 | In the spawn sequence every dependency comes before what depends on it. |
| `Waves.SpawnsEachOnce` | src/fabri/builder/waves.py:158-167 | The spawn sequence names every declared item exactly once. |
| `WavePlanner.BuildGraph` | src/fabri/builder/waves.py:128-139 | Indegrees count edges with multiplicity, child lists repeat with them, and the first bad edge is reported. |
| `WavePlanner.ReleaseChildren` | src/fabri/builder/waves.py:146-151 | Taking the ready items' edges off the counters frees exactly the items of the next layer. |
| `WavePlanner.PlanWaves` | src/fabri/builder/waves.py:98-155 | The whole loop terminates and returns the specified plan or error, the stuck ids of a cycle included. |
| `WaveLaws.WaveInOrder` | src/fabri/builder/waves.py:144-155 | Within a wave the items stand in the order they are declared in, and the k-th group is the prefix with the number k. |
| `WaveLaws.NodesAreItems` | src/fabri/builder/waves.py:77-95 | The planned items are the given ones, one for one; an id that is missing or blank is refused. |
| `WaveLaws.ErrorsExactly` | src/fabri/builder/waves.py:117-153 | Each refusal is for the first reason that applies: exactly the repeated ids, the first bad dependency in file order, or exactly the ids that wait for a cycle. |
| `WaveLaws.SpawnsJoin` | src/fabri/builder/waves.py:158-167 | Each wave adds its items in order under its group to the spawn sequence. |
| `CompanyGraph.RootedNotLooped` | src/fabri/company.py:322-341 | A report chain that ends at the root runs through no loop. |
| `CompanyGraph.SubtreesDisjoint` | src/fabri/company.py:309-313 | Different reports of one node have nothing below them in common. |
| `Company.Walk.Visit` | src/fabri/company.py:322-331 | The recursive visit keeps the visited and active sets consistent, and a reported cycle is one. |
| `Company.FinishedRooted` | src/fabri/company.py:333-338 | When the walk ends without a cycle, every id's chain ends at the root. |
| `Company.LoadCompany` | src/fabri/company.py:289-342 | Accepts exactly the rooted trees whose agency nodes have no reports; the last error, unreachable nodes, is never raised. |
| `CompanyLaws.EarlyErrorExactly` | src/fabri/company.py:266-313 | Which check refuses a file, and how: the first node with an empty or repeated id, else the number of roots, else the first node under an unknown parent, else the first agency with a report. |
| `CompanyCompiler.ManagersUnique` | src/fabri/company.py:529-598 | Each manager is written exactly once. |
| `CompanyCompiler.ChildrenFirst` | src/fabri/company.py:532-534 | A child's manager is written before its parent's. |
| `CompanyCompiler.EveryManager` | src/fabri/company.py:529-598 | Every node that is no agency is written. |
| `CompanyCompiler.WriteOrder` | src/fabri/company.py:529-600 | Managers and root exactly once each, every manager after all that report to it. |
| `CompanyCompiler.Compiler.WriteManager` | src/fabri/company.py:529-598 | Terminates, appends exactly the managers below in that order, and records exactly their paths. |
| `CompanyCompiler.CompileCompany` | src/fabri/company.py:472-600 | On a validated tree the managers are written in the write order; each delegates to exactly the nodes declared under it, in the order of their declaration, an agency by its installed config and a manager by its own. |
| `CompanyLaws.SiblingsInOrder` | src/fabri/company.py:531-534 | Of two nodes under one parent, all that is written at and below the one declared first comes before all that is written at and below the other. |
| `BreadthFirst.VisitsOnce` | src/fabri/benchmarks/company_setup_probe.py:510-518 | A queue-and-seen walk visits no key twice. |
| `BreadthFirst.VisitsExactly` | src/fabri/benchmarks/company_setup_probe.py:508-542 | From one item it visits exactly the keys a chain of edges leads to, on cyclic and shared graphs. |
| `BreadthFirst.VisitAgrees` | src/fabri/benchmarks/company_setup_probe.py:585-616 | Two walks that follow visited items alike visit the same items in the same order. |
| `BreadthOrder.VisitsFirsts` | src/fabri/benchmarks/company_setup_probe.py:510-518 | The visited items are exactly the first of each key among all that is ever queued, in that order. |
| `BreadthOrder.NearestFirst` | src/fabri/benchmarks/company_setup_probe.py:510-518 | Depths never fall along the walk; the depth of a visited key is the least number of edges that lead to it, and each item but the first is a successor of an earlier one that is one step nearer. |
| `CompanyWalk.Discover` | src/fabri/benchmarks/company_setup_probe.py:508-542 | Returns the specified walk, or fails, exactly when some visited config is missing or malformed. |
| `CompanyWalk.WalkExact` | src/fabri/benchmarks/company_setup_probe.py:508-542 | The walk lists exactly the configs reachable over delegation edges, each once. |
| `CompanyWalk.WalkNames` | src/fabri/benchmarks/company_setup_probe.py:538-541 | Every location but the root is a delegate of a listed one and is named after it. |
| `CompanyWalk.DiscoveryFails` | src/fabri/benchmarks/company_setup_probe.py:519-537 | Discovery fails exactly when a reachable config is unreadable. |
| `CompanyWalk.DelegationEdgesByChild` | src/fabri/benchmarks/company_setup_probe.py:585-616 | Files every edge of the walked configs under its child, in walk order. |
| `CompanyWalk.WalksAgree` | src/fabri/benchmarks/company_setup_probe.py:585-616 | Where discovery succeeds the edge walk visits the same configs under the same names. |
| `CompanyWalk.EdgesExact` | src/fabri/benchmarks/company_setup_probe.py:611-615 | The filed edges are exactly those out of the discovered configs. |
| `WalkLaws.ReadableExactly` | src/fabri/benchmarks/company_setup_probe.py:519-537 | A config is readable exactly if it is a mapping whose `tools.agents`, if it is there, is a list of mappings with a textual name and config, and with a numeric timeout where one is asked for. |
| `WalkLaws.StepsExactly` | src/fabri/benchmarks/company_setup_probe.py:528-541 | The delegates and the edges of a config are those of its list in order, with resolved paths and appended names. |
| `WalkLaws.WalkInOrder` | src/fabri/benchmarks/company_setup_probe.py:510-541 | The walk lists the first location of each path among the root and the delegates of each listed config in turn. |
| `WalkLaws.NearestListedFirst` | src/fabri/benchmarks/company_setup_probe.py:510-541 | Configs nearer to the root come first, and each is named by a shortest chain of delegations. |
| `TraceAudit.EachSessionOnce` | src/fabri/benchmarks/company_setup_probe.py:1314-1324 | Each session reachable through tool-call results is read exactly once, however sessions refer to each other. |
| `TraceAudit.ReadEvents` | src/fabri/benchmarks/company_setup_probe.py:1325-1381 | The event loop adds exactly the session's costs, guidelines, kinds, child sessions, payloads and root delegations. |
| `TraceAudit.AnalyzeRun` | src/fabri/benchmarks/company_setup_probe.py:1283-1398 | Terminates on every session graph and returns the specified audit: the total is the sum of the session costs over the walk. |
| `TraceAudit.CompleteExactly` | src/fabri/benchmarks/company_setup_probe.py:1383-1398 | Complete exactly when the answer is fine, every reachable session has a clean trace with successful children, some cost was recorded and every required delegation ended in success. |
| `TraceLaws.TotalIsSum` | src/fabri/benchmarks/company_setup_probe.py:1332-1344 | The total is the sum of `cost_usd` over exactly the events of type usage or post_run_usage, with a number there, in the traces of the sessions read; without any there is no total. |
| `TraceLaws.CostLedger` | src/fabri/benchmarks/company_setup_probe.py:1332-1344 | For every run there is such a finite list of amounts, with one entry for each pair of a session and a place in its trace that has one. |
| `TraceLaws.GuidelinesAreSum` | src/fabri/benchmarks/company_setup_probe.py:1337-1339 | The guidelines are the sum over exactly the usage events with a whole number of them. |
| `TraceLaws.KindsExactly` | src/fabri/benchmarks/company_setup_probe.py:1345-1350 | The kinds are exactly those of the candidates in the retrieval events of the sessions read. |
| `TraceLaws.FailuresExactly` | src/fabri/benchmarks/company_setup_probe.py:1289-1391 | Each failure is reported exactly under its written-out condition on the payload, on the events of the sessions read, or on the root's last call of a required name. |
| `TraceLaws.TextsAre` | src/fabri/benchmarks/company_setup_probe.py:1270-1280 | The failure texts of a value are exactly the texts under one of four keys, at any depth and through lists. |
| `TraceLaws.ReadIs` | src/fabri/benchmarks/company_setup_probe.py:1314-1365 | The sessions read are exactly those a chain of tool-call reports leads to from the root. |
| `TraceLaws.NoSession` | src/fabri/benchmarks/company_setup_probe.py:1297-1304 | Without a session id only the payload is judged. |
| `ConfigMerge.DeepMerge` | src/fabri/config.py:429-446 | Accepts exactly the mergeable layers, computes the specified merge in any key order, and names a true conflict otherwise. |
| `ConfigMerge.RefusedIffConflict` | src/fabri/config.py:435-442 | Refused exactly when some path holds a mapping in the base and something else in the override. |
| `ConfigMerge.Lookup` | src/fabri/config.py:429-446 | The merged value at every path: the override's, laid over the base's where both have one. |
| `ConfigMerge.Layering` | src/fabri/config.py:429-446 | Leaves of the override win, silent paths keep the base, base mappings stay mappings. |
| `ConfigMerge.Regrouped` | src/fabri/config.py:429-446 | Three layers are accepted from the left exactly when they are from the right and the first two merge; then the results are equal. |
| `ConfigMerge.GroupingMatters` | src/fabri/config.py:435-442 | Three concrete layers that are accepted from the right and refused from the left. |
| `ConfigMerge.LayerTwice` | src/fabri/config.py:429-446 | Laying the same layer again changes nothing. |
| `ConfigMerge.ExpandMemoryProfile` | src/fabri/config.py:406-426 | Computes the specified expansion; an unknown profile is refused. |
| `ConfigMerge.LoadLayers` | src/fabri/config.py:713-736 | The composition: empty file, mapping check, profile, merge over the defaults, and which of them fails. |
| `ConfigMerge.MemoryPrecedence` | src/fabri/config.py:406-426 | In the loaded config explicit memory keys beat profile keys, which beat defaults. |
| `ConfigMerge.NoProfileLeft` | src/fabri/config.py:409-413 | No `profile` key survives loading. |
| `ConfigLaws.RefusedExactly` | src/fabri/config.py:406-418 | A file is refused before merging exactly if it is neither a mapping nor empty, or selects another profile than the two. |
| `ConfigLaws.ProfileIs` | src/fabri/config.py:390-401 | The evolving profile sets exactly the seven keys with their values; applying memory actions stays off. |
| `ConfigLaws.EvolvingLoads` | src/fabri/config.py:420-426 | Each of its keys that the user leaves out is loaded with the profile's value, whatever the default is. |
| `ConfigLaws.OthersLoad` | src/fabri/config.py:420-426 | Every other memory key is loaded with the user's value if there is one, and the default's if not, under either profile or none. |
| `ConfigEdit.MergedPut` | src/fabri/config.py:429-446 | Setting a leaf in the upper layer keeps the layers mergeable and sets exactly that leaf in the merged config. |
| `ConfigEdit.ExpandedPut` | src/fabri/config.py:406-426 | The profile expansion commutes with such an edit. |
| `Candidate.EffectivePut` | src/fabri/benchmarks/company_setup_probe.py:725-737 | Editing a config file edits the effective config the same way, role resolution included. |
| `Candidate.BudgetWritten` | src/fabri/benchmarks/company_setup_probe.py:628-661 | Writing a budget, mirrored into a declared sub-agent override, makes it the effective one and moves no other effective value. |
| `Candidate.ModelWritten` | src/fabri/benchmarks/company_setup_probe.py:765-783 | After the write the role runs on the asked model. |
| `Candidate.WriteAgentBudget` | src/fabri/benchmarks/company_setup_probe.py:645-661 | The nested dictionary edits set the budget and, where one is declared, the sub-agent override, and nothing else. |
| `Candidate.TuneNode` | src/fabri/benchmarks/company_setup_probe.py:722-786 | The knob by knob edits of a node compute the specified edit, loading failures included. |
| `Candidate.TuneEffect` | src/fabri/benchmarks/company_setup_probe.py:739-783 | Exactly the needed knobs of a node change, each to the candidate's value. |
| `Candidate.TunedMeets` | src/fabri/benchmarks/company_setup_probe.py:739-783 | Afterwards floors and ceiling are met, and no knob is needed any more. |
| `Candidate.FloatBudgetComesDown` | src/fabri/benchmarks/company_setup_probe.py:739-747 | An instance: 50.0 steps become 20. |
| `Candidate.FloatSpawnsComeDown` | src/fabri/benchmarks/company_setup_probe.py:797-806 | An instance: a node with delegates and 8.0 spawns is left with 4. |
| `Candidate.TokensMove` | src/fabri/benchmarks/company_setup_probe.py:558-573 | The token floor stage never lowers a value, and its floor is met afterwards exactly for whole numbers. |
| `Candidate.FloatTokensStay` | src/fabri/benchmarks/company_setup_probe.py:562-563 | An instance: tokens of 100.0 are left alone by a floor of 200. |
| `CandidateRun.Company.RewriteNodes` | src/fabri/benchmarks/company_setup_probe.py:555-573 | A stage rewrites exactly the files it must, succeeds exactly when all can be judged, and notes a change exactly when something was written. |
| `CandidateRun.Company.RaiseTimeouts` | src/fabri/benchmarks/company_setup_probe.py:808-847 | Succeeds exactly when every delegating config loads; then every delegation's timeout is raised in its parent's file and nothing else changes. On a failure only entries of such files may have been raised. |
| `CandidateRun.Company.ApplyCandidate` | src/fabri/benchmarks/company_setup_probe.py:715-848 | Succeeds exactly when the bounds hold, discovery succeeds, every stage can judge its files and, for timeouts, every delegating config loads. Then the files are the specified ones, nothing is left to do, and no reported change means no change. Also on a failure, files outside the walk and the root's sections other than tools are as before. |
| `CandidateRun.Company.ApplyTwice` | src/fabri/benchmarks/company_setup_probe.py:715-848 | After a successful application, which is stated exactly, the second one succeeds, reports no change and writes nothing. |
| `CandidateRun.QuietAfter` | src/fabri/benchmarks/company_setup_probe.py:715-848 | After all stages each stage finds every file settled, although later stages edited it again. |
| `CandidateRun.RunMeets` | src/fabri/benchmarks/company_setup_probe.py:715-848 | Then every reachable delegated node meets the candidate, and every delegation's timeout is high enough. |
| `CandidateRun.RootUntouched` | src/fabri/benchmarks/company_setup_probe.py:723-724 | The root keeps every section but tools as it was. |
| `CandidateRun.OthersUntouched` | src/fabri/benchmarks/company_setup_probe.py:722-786 | Files no delegation leads to are not written. |
| `CandidateEffects.RunMoves` | src/fabri/benchmarks/company_setup_probe.py:715-806 | For every delegated node of a run, comparing the effective values before and after: steps, top-k and spawn limit go down exactly when they were floats above the floor, tokens never do and meet their floor exactly for whole numbers, and the cost cap never goes up. |
| `CandidateEffects.RootMoves` | src/fabri/benchmarks/company_setup_probe.py:788-806 | The root's effective values stay the same but for its spawn limit, which goes down exactly when it was a float above the candidate's and ends high enough. |
| `CandidateEffects.TimeoutsMove` | src/fabri/benchmarks/company_setup_probe.py:808-847 | A run keeps the delegations, and each timeout ends as the larger of its own and the candidate's. |
| `CandidateLaws.BoundsExactly` | src/fabri/benchmarks/company_setup_probe.py:664-712 | Each of the eight bounds of a candidate, written out. |
| `CandidateLaws.BudgetIs` | src/fabri/benchmarks/company_setup_probe.py:628-642 | A sub-agent's own budget is taken before the agent's, and what is no number counts as the default. |
| `CandidateLaws.ViewIs` | src/fabri/benchmarks/company_setup_probe.py:725-806 | What a candidate looks at in a config, and the values that stand in where a key is missing. |
| `CandidateLaws.RoleModelIs` | src/fabri/config.py:532-566 | The model a role runs on, for each form its entry may have; a narrator without one takes its provider's small model. |
| `CandidateLaws.SpawnerExactly` | src/fabri/benchmarks/company_setup_probe.py:788-797 | A node delegates exactly if its `tools.agents` is a list with an entry. |
| `CandidateLaws.MeetsExactly` | src/fabri/benchmarks/company_setup_probe.py:739-806 | What meeting a candidate means for each value, in plain terms. |
| `LearnedBlock.ApplyLearnedBlock` | src/fabri/cli.py:699-738 | The index scans and the splice compute the specified edit, the refusal included. |
| `LearnedBlock.KeepLinesOk` | src/fabri/cli.py:701-701 | A text that ends in a line break is the concatenation of its lines. |
| `LearnedBlock.LocateAgain` | src/fabri/cli.py:702-733 | In the edited lines the next edit finds the same place, the same indentation and the block just written. |
| `LearnedBlock.Absorbing` | src/fabri/cli.py:699-738 | Editing twice is editing with the later guidelines only. |
| `LearnedBlock.ReapplyIsNoOp` | src/fabri/cli.py:699-738 | The same edit again changes nothing. |
| `LearnedBlock.Framed` | src/fabri/cli.py:724-738 | One complete block inside the scalar is replaced, or one is inserted; every other line is kept in order. |
| `BlockLaws.KeyIndentExactly` | src/fabri/cli.py:706-709 | A header line is exactly: blanks or tabs, the key, white space, one of two marks, an optional sign, white space, and a comment or nothing. |
| `BlockLaws.ScanExactly` | src/fabri/cli.py:725-733 | The block replaced is exactly the first end mark inside the scalar that follows a start mark, with the last start mark before it. |
| `BlockLaws.EditExactly` | src/fabri/cli.py:699-738 | The whole edit by positions: refused exactly without a header line; otherwise the new lines, guidelines in order, replace the old block or stand at the scalar's end, indented like its first line that is not blank and ended as the text's lines are. |
| `SignTest.AtMostCount` | src/fabri/benchmarks/company_memory_report.py:260-260 | The binomial sum counts the sign patterns with at most that many of one sign. |
| `SignTest.PValueMeaning` | src/fabri/benchmarks/company_memory_report.py:254-261 | The p-value is the fraction of sign patterns at least as lopsided as the counts. |
| `SignTest.PValueLaws` | src/fabri/benchmarks/company_memory_report.py:254-261 | It lies in (0, 1], is symmetric, and is clamped exactly when the counts are equal. |
| `SignTest.PValueFalls` | src/fabri/benchmarks/company_memory_report.py:254-261 | For a fixed number of signs a more lopsided split has a strictly smaller p-value. |
| `SignTest.ImplementationsAgree` | src/fabri/benchmarks/company_record.py:112-121 | Both implementations agree on every list with a difference that is not zero, and differ as stated without one. |
| `Wilson.IntervalMeaning` | src/fabri/benchmarks/stats.py:18-39 | The unclamped interval holds exactly the proportions the score test accepts. |
| `Wilson.BoundsNeedNoClamp` | src/fabri/benchmarks/stats.py:36-38 | The unclamped bounds satisfy 0 <= low <= k/n <= high <= 1, so clamping changes nothing. |
| `Wilson.Mirrored` | src/fabri/benchmarks/stats.py:18-39 | Exchanging successes and failures mirrors the interval. |
| `Wilson.SameInterval` | benchmarks/jev/report.py:28-35 | Both implementations give the same bounds, except without trials. |
| `Wilson.BoundsRise` | src/fabri/benchmarks/stats.py:18-39 | With one more success neither bound falls and the middle of the interval rises. |
| `Kappa.Partition` | benchmarks/agreement/score_agreement.py:194-203 | The confusion counts partition the items into the raters' passes and the agreements. |
| `Kappa.KappaFormula` | benchmarks/agreement/score_agreement.py:152-174 | When both raters vary, expected agreement is below 1 and kappa is one fraction of the confusion counts. |
| `Kappa.KappaDefined` | benchmarks/agreement/score_agreement.py:158-182 | Kappa has a value exactly when both raters vary, so the test for expected agreement 1 never fires. |
| `Kappa.KappaRange` | benchmarks/agreement/score_agreement.py:152-174 | Kappa lies in [-1, 1], is 1 exactly for identical labels and 0 exactly for independent counts. |
| `RateLimiter.StepKeepsInv` | benchmarks/jev/run.py:135-145 | Every step of every interleaving keeps the lock, the slots and the sleeping calls consistent. |
| `RateLimiter.SlotExact` | benchmarks/jev/run.py:138-141 | Each slot is exactly the later of the clock reading and one interval after the slot before. |
| `RateLimiter.SlotsApart` | benchmarks/jev/run.py:138-141 | Slots are at least one interval apart for each place in lock order. |
| `RateLimiter.NeverEarly` | benchmarks/jev/run.py:142-145 | No call returns before its slot, and with a limit every return has one. |
| `RateLimiter.MutualExclusion` | benchmarks/jev/run.py:138-141 | At most one call is between taking and releasing the lock. |
| `RateLimiter.RateBound` | benchmarks/jev/run.py:128-145 | By time t at most floor((t - t0) / interval) + 1 calls have returned. |

## Left out

- Files, processes, the network, git, OAuth, providers, command-line wiring, the Studio UI and templates.
- The agent loop, memory stores, retrieval, the cascade decider and the ingest adapters.
- YAML, TOML and JSON libraries: models start from parsed values with text keys; the order of keys in a
  mapping is not modelled outside TOON, and the text of rewritten config files is not part of this model.
- TOON numbers: integers are exact; floats are opaque with a print-and-parse law, and NaN is excluded. Python's
  limit on the digits of an integer literal and lone surrogate characters are not modelled.
- Digits of other scripts are a parameter (`DigitMap`) that fixes only ASCII digits. White space and line
  breaks are explicit predicates. The folding of failure texts and the lower-casing of provider names are function
  parameters; the folding of a verdict is written out for the characters that can spell its two words.
- Label sheet wording: the introduction and the rubric intents are parameters; the lines must be single lines
  that are no fence, heading or label. `select_sample`, the choice and the order of the runs, is left out.
- Company files: titles, prompts, timeouts, response settings and their validation, memory placement and
  names of files; the model keeps the tree, the recorded paths and the order of writes.
- CompanyWalk.Discover: does not carry each location's own timeout, only that it must be a number.
- TraceAudit.AnalyzeRun: costs are added exactly and are not rounded to six places; failures are a set, as they
  are reported; outcomes that cannot be hashed and malformed trace lines, which raise, are left out; the failure
  texts are searched one by one, which is the same because no search word spans a line break.
- Environment overrides of a loaded config, and the API-key and token settings of single roles.
- The stages of a candidate run share one loop over files here; the source writes it out for each stage.
- CandidateRun.Company.ApplyCandidate: the list of changed names is described only by whether it is empty.
- LearnedBlock.Absorbing: texts without a final line break and guidelines with line breaks are outside it.
- NaN and infinities in config values: `.nan` compares false with everything, so a `max_cost_usd` of `.nan` is
  kept by the source and the ceiling is not met; the model's floats are real numbers.
- Floating-point rounding; validators, pricing, promotion gates, dataset generation and the markdown reports.
- Fairness of the lock and the scheduler: the rate limiter's properties are about safety only.
