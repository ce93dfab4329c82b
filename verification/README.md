# ClawRouter: a verified model of its durable state machines, parsers and meters

ClawRouter keeps financial and credential state in single-writer objects and guards them with hand-written streaming
parsers and meters. This project models the hard parts of that code in Dafny and proves what they are for. `dafny
verify dfyconfig.toml` checks everything.

Each part has the same build. A pure model states one step; lemmas say what every step keeps and what follows for
every run or every input; a class or method in the program's own form, with its arrays, tables, cursors and loops, is
proved to do exactly that step.

- **Account projection** (`JsonText`, `Utf8`, `AccountMachine`, `AccountForward`, `AccountBackward`,
  `AccountProjection`, `AccountLimits`, `AccountReader`). A byte-level UTF-8 decoder feeds a JSON pushdown machine
  that keeps one field. The reference is the concrete grammar of RFC 8259 as a datatype of syntax trees with a
  printer. Acceptance is exact in both directions and independent of chunking. Over every prefix of every byte stream,
  malformed ones included, the unit check never refuses. That the value check never does is false:
  `AccountLimits.FullText` is a text within the wire limit on which it refuses. It refuses if and only if members and
  entries are both at their limits where an entry or a second root is awaited, and there the next check would refuse
  as well.
- **Access JSON** (`AccessJson`, `AccessTheory`, `AccessPaths`, `AccessExact`, `AccessValidator`). A recursive
  validator that counts before `JSON.parse`, with all seventeen profiles and their special positions. It accepts
  exactly the printings of trees that meet their profile, which is stated on paths of the tree and in numbers, without
  the places the validator keeps. Exactness is stated for budgets inside the profile's limits, which every accepted
  text hands on; that accepted texts are grammatical holds for any budget.
- **JSON meter** (`Utf16`, `JsonMeter`, `JsonReading`, `JsonLimits`, `Meter`, `Plans`, `AssignmentPlans`,
  `PlanMeter`). The size of `JSON.stringify` output, in units and in bytes, without building it; the reference is the
  printer of ECMA-262, whose text reads back as the value by the grammar of RFC 8259. At the root `undefined` has no
  text: the meter admits it, and serialization fails. Prospective plans count every occurrence that an evaluation may
  keep before anything is built; a plan that passes bounds what is built, although maps overwrite and lists are
  normalized, sorted and freed of duplicates.
- **Background jobs** (`BackgroundRecords`, `BackgroundLaws`, `BackgroundRuns`, `BackgroundLedger`,
  `BackgroundStore`). Rows with phases, budget legs, nested uploads, receipts, tombstones, idempotency keys, capacity
  and eviction. `sends` and `acknowledged` on a leg and `grants` beside the table are history. The due-time column is
  a function of the row, since every save recomputes it.
- **Grant attachment** (`GrantPool`, `GrantLaws`, `GrantAuthority`). Admission, publication, cancellation and
  restoration of pool membership under a fence of generation and revision. A grant is called detached when abandoning
  its proposals leaves no member; the `attached` flag of a snapshot says less, and the exact difference is proved.
- **Stream splitters** (`SseFrames`, `SseSplitter`, `Crc`, `EventFrames`, `EventHeaders`, `EventInspector`).
  Event-stream blocks across CR, LF, CRLF and chunk boundaries, under budgets of reads and bytes and with revalidation
  after every block; binary event frames with their checksums and headers. The answers of reads and revalidations, and
  the verdict on one block's text, are arbitrary.
- **Device flow** (`DeviceFlow`, `DeviceLaws`, `DeviceOwner`). Ordered turns on one stored record, with requests in
  between that answer late or never. A stored attempt whose request may have been sent is a fence; fences are numbered
  as history.
- **Assignments** (`AssignmentEvaluator`, `AssignmentLaws`, `Reconcile`, `ReconcileQueue`). Rules, evidence and
  groups, and the first-in-first-out queue of concurrent reconciliations. A request's rules, address and flag are
  captured as they arrive; its legacy state and evidence are shared with the caller until its turn reads them.
  Assignments are kept in the order they were made, because the program compares them by their serialized order. They
  are members of plain objects, where rule identifiers such as `constructor` and `__proto__` are inherited names:
  evaluation can throw and a matched rule can be lost. Both have a witness and their exact condition, and the laws
  hold for all other identifiers. That a second evaluation changes nothing is false in general; the exact condition is
  proved.
- **Bindings** (`Continuations`, `Witnesses`, `ContinuationStore`). Two tables with counters kept by hand, bounded
  expiry sweeps and batches stored whole or not at all.
- **Body budget** (`BodyBudget`). One charge shared by any number of lease objects.

`Basics` holds what several parts share.

Time is an argument that never goes back; one instant stands for all readings of the clock inside one call. Text is a
sequence of numbers (bytes, code points or UTF-16 units), integers are unbounded, and the limits of the program are
written out. What a database query may select (the rows due, the rows swept, the row evicted) is an argument
constrained by the query's own condition and order.

## Model

| member | source | states |
|---|---|---|
| `Utf8.DecodesEncoded` | worker/copilot-account-projection.ts:149-161 | the byte decoder reads every scalar value back from its UTF-8 encoding (section 3 of RFC 3629) |
| `Utf8.OnlyEncoded` | worker/copilot-account-projection.ts:149-161 | whatever the decoder emits came from exactly that encoding: no overlong forms, no surrogates, nothing past U+10FFFF |
| `AccountForward.ValueRun` | worker/copilot-account-projection.ts:54-141 | over the printed text of any RFC 8259 value, at any place of any larger text, the pushdown machine ends where the tree says: its counters are the tree's counts, its depth check the tree's depth, and what it kept is what a walk of the tree finds |
| `AccountBackward.DocumentBehind` | worker/copilot-account-projection.ts:79-141 | if the machine completes on a text, that text is the printing of some document of the RFC 8259 grammar |
| `AccountProjection.WalkIsField` | worker/copilot-account-projection.ts:43-58 | what the machine keeps is the tree's `endpoints.api`, and it refuses exactly the trees where that field is duplicated or ill typed |
| `AccountProjection.KeysSpelled` | worker/copilot-account-projection.ts:38-42 | the keys of the field are `endpoints` and `api` |
| `AccountProjection.SmallFits` | worker/copilot-account-projection.ts:27-29 | for complete documents within the wire limit, the unit and value limits never decide: depth, containers, members and entries do; `AccountLimits` says the same of every prefix of every stream |
| `AccountLimits.CountsAreTied` | worker/copilot-account-projection.ts:27-64 | after any bytes whatsoever, malformed ones included: at most one value per member and entry and one for the root, and at most one unit per byte |
| `AccountLimits.UnitCheckNeverRefuses` | worker/copilot-account-projection.ts:27-29 | within the wire limit there is always room for the units of whatever code the next byte completes |
| `AccountLimits.ValueCheckRefuses` | worker/copilot-account-projection.ts:57-64 | after any bytes, in front of a value: the value check refuses if and only if members and entries are both at their limits and what is awaited is an entry or a second root |
| `AccountLimits.ValueCheckNeverDecides` | worker/copilot-account-projection.ts:57-64 | where the value check refuses, the entry check or the one for a second root would refuse anyway; at a member value it never does |
| `AccountLimits.ValueCheckCanRefuse` | worker/copilot-account-projection.ts:57-64 | a text within the wire limit on which the value check is the one that refuses: 2048 members, 2048 entries and then one more |
| `AccountProjection.Exact` | worker/copilot-account-projection.ts:142-175 | for every way of cutting bytes into chunks: a projection is returned if and only if the bytes are the well-formed UTF-8, perhaps after a byte order mark, of an object in the grammar within the limits whose `endpoints.api` is that projection |
| `AccountProjection.ChunkingIsIrrelevant` | worker/copilot-account-projection.ts:143-164 | two chunkings of the same bytes get the same answer |
| `AccountReader.Reader.TakeUnit` | worker/copilot-account-projection.ts:27-37 | one decoded unit: counts it, compares it with the awaited key or stores it in the URL buffer, and fails at the limits |
| `AccountReader.Reader.OpenString` | worker/copilot-account-projection.ts:38-42 | a string begins, with the key awaited in the scope at hand |
| `AccountReader.Reader.CloseString` | worker/copilot-account-projection.ts:43-53 | a string ends: an authoritative key is marked seen, or refused when seen before |
| `AccountReader.Reader.CountValue` | worker/copilot-account-projection.ts:57-64 | the role, value and entry checks in front of every value |
| `AccountReader.Reader.PushFrame` | worker/copilot-account-projection.ts:65-70 | a container opens a frame on the fixed stack and touches nothing else |
| `AccountReader.Reader.BeginValue` | worker/copilot-account-projection.ts:54-78 | a value begins: exactly the machine's step, on the arrays |
| `AccountReader.Reader.OpenContainer` | worker/copilot-account-projection.ts:65-70 | an object or array, once its value is counted |
| `AccountReader.Reader.OpenToken` | worker/copilot-account-projection.ts:71-78 | a string, number or literal, once its value is counted; a null in the place of the field is noted |
| `AccountReader.Reader.StringCode` | worker/copilot-account-projection.ts:81-103 | one code inside a string, escapes and surrogate pairs included |
| `AccountReader.Reader.GrammarCode` | worker/copilot-account-projection.ts:123-140 | one code between tokens |
| `AccountReader.Reader.Accept` | worker/copilot-account-projection.ts:79-141 | one scalar value, byte order mark included |
| `AccountReader.Reader.TakeByte` | worker/copilot-account-projection.ts:147-163 | one byte of UTF-8 |
| `AccountReader.Reader.PushChunk` | worker/copilot-account-projection.ts:143-164 | one chunk, with the running wire limit; a poisoned or finished reader stays poisoned |
| `AccountReader.Reader.Conclude` | worker/copilot-account-projection.ts:165-174 | the final projection, and both arrays wiped |
| `AccountReader.Project` | worker/copilot-account-projection.ts:13-176 | the whole reader over any chunks returns what the exactness theorem says, and refuses everything else |
| `AccessTheory.ValueForward` | worker/access-json.ts:130-186 | on the printing of any value, under any profile and any counts so far, the validator stops exactly at its end with the tree's counts added, or reports a limit; never a malformed text |
| `AccessExact.DocumentBehind` | worker/access-json.ts:88-191 | every accepted text is the printing of a document of the RFC 8259 grammar, so the final parse cannot fail |
| `AccessPaths.FitsMeans` | worker/access-json.ts:130-186 | on every tree, under every profile: fitting is a matter of numbers and of paths alone; which counts, which depth, how long a string may be at which path, how much base64 decodes to inside a key row, how large a row is, and how many values may stand at particular paths |
| `AccessPaths.RuleMeans` | worker/access-json.ts:167-172 | the limits of a string by its path and the key around it: key identifiers, issuers, subjects, audiences, addresses, policy identifiers, moduli and exponents |
| `AccessPaths.IdMeans` | worker/access-json.ts:141-163 | the identifiers of policy documents are exactly at the paths listed, for all eight policy profiles |
| `AccessPaths.CapsMean` | worker/access-json.ts:151-160 | the counters of particular arrays are numbers of values at particular paths |
| `AccessPaths.NumbersMean` | worker/access-json.ts:59-73 | the limits of all seventeen profiles, in numbers |
| `AccessPaths.PaddingMeans` | worker/access-json.ts:30-39 | the padding of base64 text is its run of final equals signs |
| `AccessExact.TextVerdict` | worker/access-json.ts:88-190 | a grammatical text within the sizes is accepted with its counts exactly when its tree meets the profile, by numbers and paths, and is over a limit otherwise |
| `AccessExact.Exact` | worker/access-json.ts:88-190 | accepted with counts t if and only if the text prints a document that meets the profile, by numbers and paths, and has counts t |
| `AccessExact.BatchCounts` | worker/access-json.ts:96-97 | texts that share one budget: the counters are those of all trees together, and within the limits of one |
| `AccessValidator.Validator.Space` | worker/access-json.ts:98-98 | skips exactly the white space at the cursor |
| `AccessValidator.Validator.ReadString` | worker/access-json.ts:99-129 | reads one string: unit, length and decoded-size limits, escapes, and the retained key |
| `AccessValidator.Validator.ReadDigits` | worker/access-json.ts:179-179 | a run of digits under the 64-character limit of a number |
| `AccessValidator.Validator.Whole` | worker/access-json.ts:178-179 | the integer part of a number |
| `AccessValidator.Validator.Fraction` | worker/access-json.ts:180-180 | the fraction of a number |
| `AccessValidator.Validator.Power` | worker/access-json.ts:181-182 | the exponent of a number |
| `AccessValidator.Validator.ReadNumber` | worker/access-json.ts:177-183 | a whole number literal |
| `AccessValidator.Validator.ReadWord` | worker/access-json.ts:173-175 | true, false or null |
| `AccessValidator.Validator.ReadValue` | worker/access-json.ts:130-185 | one value with its place: depth, rows, occurrences and the size of a key row |
| `AccessValidator.Validator.ReadBody` | worker/access-json.ts:133-184 | the value itself, once it has been counted |
| `AccessValidator.Validator.ReadKey` | worker/access-json.ts:140-147 | a member's key, its colon and the place of its value |
| `AccessValidator.Validator.ReadMembers` | worker/access-json.ts:138-148 | the member loop |
| `AccessValidator.Validator.ReadElements` | worker/access-json.ts:149-166 | the entry loop |
| `AccessValidator.MeasureUtf8` | worker/access-json.ts:75-84 | the UTF-8 size of UTF-16 text, lone surrogates as three bytes |
| `AccessValidator.Check` | worker/access-json.ts:88-95 | the size checks, the validator and the end of the text, in the program's order |
| `AccessValidator.Parse` | worker/access-json.ts:88-192 | the answer, and what it means: accepted texts are grammatical, and with a budget inside the profile acceptance is exact, by numbers and paths |
| `Utf16.MeasureIsSize` | worker/assignment-source.ts:44-51 | measuring UTF-16 text unit by unit gives the length of its UTF-8 encoding |
| `JsonMeter.BodyIsText` | worker/assignment-source.ts:44-51 | character by character, the cost of a string is the size of its quoted form (section 25.5.2.3 of ECMA-262): escapes, control codes, pairs and lone surrogates |
| `JsonMeter.StringIsText` | worker/assignment-source.ts:41-52 | the two counters grow by the length and the UTF-8 size of the quoted string |
| `JsonMeter.ItemsAreText` | worker/assignment-source.ts:65-72 | the same for the entries of an array |
| `JsonMeter.FieldsAreText` | worker/assignment-source.ts:73-82 | the same for the members of an object, omitted ones included |
| `JsonMeter.ItemIsText` | worker/assignment-source.ts:53-83 | for every plain value, at any place inside an array, the counters grow by the sizes of its text there |
| `JsonMeter.CostIsText` | worker/assignment-source.ts:53-83 | for every plain value that has a `JSON.stringify` text, the counters grow by its UTF-16 length and its UTF-8 size |
| `JsonMeter.ItemTextNarrow` | worker/assignment-source.ts:114-118 | the text of a plain value is UTF-16 text |
| `JsonMeter.SizeDecides` | worker/assignment-source.ts:36-40 | the meter admits a plain value that has a text if and only if the finished text is within the size limit, in units and bytes, and the tree is within the others |
| `JsonLimits.CountsMean` | worker/assignment-source.ts:53-83 | from any counters: the others besides the two sizes grow by the numbers of values, of containers and of written members inside the value, and the units of its strings and keys |
| `JsonLimits.LocalMeans` | worker/assignment-source.ts:41-64 | the checks on the way are that nothing is nested deeper than 16, no string longer than 1048576 and no key longer than 1024 |
| `JsonReading.EscapesMean` | worker/access-json.ts:109-121 | what the two-character escapes stand for, and which there are |
| `JsonReading.QuoteReads` | worker/assignment-source.ts:44-51 | a quoted string is a string of the RFC 8259 grammar and denotes, unit by unit, what was quoted |
| `JsonReading.TextReads` | worker/assignment-source.ts:114-118 | the text of a value whose numbers are numerals is a document of that grammar that denotes the value: strings, keys, words, numbers and order, omitted members left out |
| `Meter.JsonCounter.MeterString` | worker/assignment-source.ts:41-52 | the early-failing loop over a string fails if and only if the whole string would not fit |
| `Meter.JsonCounter.MeterItem` | worker/assignment-source.ts:53-59 | one value: fails with a limit if and only if the whole value would not fit |
| `Meter.JsonCounter.MeterContainer` | worker/assignment-source.ts:59-64 | an array or object once its value is counted |
| `Meter.JsonCounter.MeterItems` | worker/assignment-source.ts:65-72 | the loop over entries |
| `Meter.JsonCounter.MeterFields` | worker/assignment-source.ts:73-82 | the loop over members |
| `Meter.JsonCounter.MeterField` | worker/assignment-source.ts:77-81 | one member that is not omitted |
| `Meter.Admit` | worker/assignment-source.ts:110-113 | a plain value is admitted if and only if it is within every limit; when it has a text, that is a verdict on the finished text before it exists |
| `Meter.JsonTextOf` | worker/assignment-source.ts:114-118 | the serialized text: the text of exactly the admitted values that have one, which reads back as the value; without a text a protocol failure, whatever the meter said |
| `Plans.CostShifts` | worker/assignment-source.ts:53-83 | what a value costs does not depend on what was counted before it |
| `Plans.ListBound` | worker/assignment-source.ts:120-122 | a list made of some of the planned occurrences never costs more than the plan |
| `Plans.MapCommutes` | worker/assignment-source.ts:163-187 | the cost of a map does not depend on the order of its members |
| `AssignmentPlans.MapBound` | worker/assignment-evaluator.ts:172-186 | the assignments that are built, rules with equal identifiers written over each other, never cost more than the plan that counts every occurrence |
| `AssignmentPlans.GroupsWithin` | worker/assignment-evaluator.ts:187-189 | every group of the result is among the planned occurrences, as often as it appears |
| `AssignmentPlans.KeysSpelled` | worker/assignment-source.ts:175-185 | the keys of an entry are `groups` and `revokeOnLoss` |
| `AssignmentPlans.PlannedMapAdmits` | worker/assignment-evaluator.ts:186-186 | if the planned map is admitted from any counters under any maximum, so are the assignments that are built, as the members of a plain object |
| `AssignmentPlans.PlannedListAdmits` | worker/assignment-evaluator.ts:187-189 | if the planned list of groups is admitted from any counters under any maximum, so is the list that is built |
| `PlanMeter.SequencePlan.AddItem` | worker/assignment-source.ts:122-133 | one occurrence of any value: refused if and only if the list of all occurrences so far would be |
| `PlanMeter.SequencePlan.Normalized` | worker/assignment-source.ts:84-109 | one normalized string: refused if and only if the list of all occurrences so far would be |
| `PlanMeter.SequencePlan.NormalizedAll` | worker/assignment-evaluator.ts:107-108 | the loop over the groups of a rule |
| `PlanMeter.MapPlan.Retained` | worker/assignment-source.ts:174-174 | one retained entry: refused if and only if the map of all occurrences so far would be |
| `PlanMeter.MapPlan.Matched` | worker/assignment-source.ts:175-185 | one matched rule, metered piece by piece without building its entry: refused if and only if the map of all occurrences so far would be |
| `PlanMeter.PlanRule` | worker/assignment-evaluator.ts:101-115 | one rule: what it may assign goes into both plans; it throws only on a retained rule that finds something inherited under its name |
| `PlanMeter.PlanEvaluation` | worker/assignment-evaluator.ts:84-117 | if the plans of the map and of the groups pass, for every user, rules and evidence: the evaluation does not throw, the groups it builds are admitted, and so is the object of its assignments if and only if no rule named `__proto__` has replaced its prototype |
| `PlanMeter.PrototypeIs` | worker/assignment-evaluator.ts:174-186 | when no rule finds something inherited, the prototype of the object built is replaced if and only if a rule named `__proto__` matched or was retained |
| `BackgroundLaws.NewIsSound` | worker/background-store.ts:500-513 | a new job satisfies the row invariant |
| `BackgroundLaws.NewMeans` | worker/background-store.ts:500-513 | a new job has unsent legs for its intents, an hour to observe, a week of automatic retries and 44 days of replay |
| `BackgroundLaws.ReserveKeeps` | worker/background-store.ts:250-268 | reservation steps keep a row sound and move it forward |
| `BackgroundLaws.FreezeKeeps` | worker/background-store.ts:346-365 | freezing a job freezes its live upload with it; the receipt is set once |
| `BackgroundLaws.ObserveKeeps` | worker/background-store.ts:294-310 | an observation keeps the row sound and moves it forward |
| `BackgroundLaws.AcknowledgeKeeps` | worker/background-store.ts:367-390 | acknowledgements of a job or its upload, in any order and repeated, keep the row sound and move it forward |
| `BackgroundLaws.ClaimKeeps` | worker/background-store.ts:398-410 | a claim keeps the row sound and moves it forward |
| `BackgroundLaws.InputKeeps` | worker/background-store.ts:197-221 | upload claims keep the row sound and move it forward |
| `BackgroundLaws.Preserves` | worker/background-store.ts:161-424 | every operation on a row keeps it sound (receipt present exactly when facts are absent, no frozen job over an unfrozen upload, complete exactly when everything is paid, no leg settled on trust) and moves it forward (rank up; receipt, amount, basis and settled legs fixed) |
| `BackgroundLaws.EgressIsPaidFor` | worker/background-store.ts:270-273 | the generation request is released only with every leg reserved and dispatched, and the dispatch of a managed job claimed |
| `BackgroundLaws.ClaimedOnce` | worker/background-store.ts:339-343 | a dispatch, a release, an upload and a creation are each granted at most once in the life of a row, whatever happens in between |
| `BackgroundLaws.IdentityIsFixed` | worker/background-store.ts:281-292 | the upstream identity is set by the operation that names it and never changes until the job is frozen |
| `BackgroundLaws.ObserveFreezes` | worker/background-store.ts:294-310 | an observation that changes a row freezes it: successful if and only if the provider says so and the job was not lost |
| `BackgroundLaws.LossIsBilled` | worker/background-store.ts:398-405 | a job that is lost is billed if and only if its request had been released, and its upload if and only if that had been claimed |
| `BackgroundLaws.InputInOrder` | worker/background-store.ts:197-221 | an input goes through upload, binding and creation in this order, for its own binding and before that expires |
| `BackgroundLaws.ReceiptIsOwn` | worker/background-store.ts:346-365 | a receipt is priced from the job's own facts and names its reservation, intents and content |
| `BackgroundLaws.ContentIsKept` | worker/background-store.ts:339-344 | the content claimed with the dispatch is kept until the job is frozen |
| `BackgroundLedger.ApplyTells` | worker/background-store.ts:250-424 | every operation leaves a leg with what the ledger had said of it and what the operation brings; only answers and acknowledgements bring anything |
| `BackgroundLedger.SaidIsHeard` | worker/background-store.ts:250-390 | over every run a leg of a job or of its upload holds exactly what the inputs of the run answered to its reservation, which is at most one answer |
| `BackgroundLedger.ReleasedWhenAllowed` | worker/background-store.ts:270-273 | after any run the generation request is released only if the ledger allowed every leg and refused none |
| `BackgroundLedger.UploadedWhenAllowed` | worker/background-store.ts:197-205 | after any run the upload is claimed only if the ledger allowed every leg of the job and of the upload |
| `BackgroundLedger.SettledByLedger` | worker/background-store.ts:346-390 | after any run a leg is settled only if the ledger acknowledged that, or it was never sent, or it was sent once and refused |
| `BackgroundRuns.StepKeeps` | worker/background-store.ts:94-461 | every call keeps the table in order: sound rows, one holder per key, bounded size, released keys guarded |
| `BackgroundRuns.OneReleasePerWindow` | worker/background-store.ts:161-181 | over every run with a clock that does not go back, two releases of a generation request for one (protocol, provider, key) are at least the 44-day replay window of the first apart |
| `BackgroundRuns.ReachableTables` | worker/background-store.ts:230-239 | in every reachable table a key has at most one row with a replay deadline in the future, and capacity and active limits hold |
| `BackgroundRuns.RowsLeaveLate` | worker/background-store.ts:173-178 | a row leaves the table only as a tombstone whose window is over or that is not managed |
| `BackgroundRuns.JobsMoveForward` | worker/background-store.ts:346-412 | over any run a job that stays in the table stays sound and only moves forward: its rank never falls, and receipt, amount, basis and a frozen state stay |
| `BackgroundRuns.ReachableRows` | worker/background-store.ts:382-389 | in every reachable row: complete exactly when all legs and sinks of job and upload are final; receipt and facts exclude each other; a leg settled without the ledger was never sent, or sent once and denied |
| `BackgroundRuns.RepeatIsSame` | worker/background-store.ts:230-239 | a repeated request is answered with a job of the same key, content and policy inside its window |
| `BackgroundRuns.AdmittedMeans` | worker/background-store.ts:161-181 | what an admission has passed, and what it leaves: the new job, and every other row but an evicted one as it was |
| `BackgroundRuns.AssetInOrder` | worker/background-store.ts:131-151 | a published input goes through publication, binding and one forward in this order |
| `BackgroundStore.NeverSleepsIn` | worker/background-store.ts:454-460 | no live row is due after its replay deadline, nor an unfrozen one after its observation deadline |
| `BackgroundStore.ClaimMovesOn` | worker/background-store.ts:398-410 | an automatic claim never fails and always moves the row's due time past the present |
| `BackgroundStore.ClaimDrains` | worker/background-store.ts:394-412 | claiming the picked rows removes exactly them from the rows due now |
| `BackgroundStore.RetrySchedule` | worker/background-store.ts:414-424 | a retry under the current attempt waits between five seconds and half a minute while observing, or an hour once frozen, and changes nothing else; under any other attempt it changes nothing |
| `BackgroundStore.OldestExists` | worker/background-store.ts:176-177 | eviction finds a row whenever there is an evictable one |
| `BackgroundStore.JobTable.SaveOperation` | worker/background-store.ts:437-442 | a changed part is put back into a freshly read row; nothing else of the row changes |
| `BackgroundStore.JobTable.BeginReserve` | worker/background-store.ts:250-256 | one step of the run model: the intent of that leg is released and a repeated one marked uncertain |
| `BackgroundStore.JobTable.Reserved` | worker/background-store.ts:258-262 | one step: the answer to a reservation that was sent; `BackgroundLedger` says what follows for every run |
| `BackgroundStore.JobTable.Dispatched` | worker/background-store.ts:264-268 | one step: an accepted leg is marked dispatched |
| `BackgroundStore.JobTable.BeginDispatch` | worker/background-store.ts:339-344 | one step: the dispatch is claimed once |
| `BackgroundStore.JobTable.BeginEgress` | worker/background-store.ts:270-279 | one step: the release of the generation request |
| `BackgroundStore.JobTable.Identity` | worker/background-store.ts:281-292 | one step: the upstream identity, which never changes, within 256 bytes and in the provider's format |
| `BackgroundStore.JobTable.FreezeAt` | worker/background-store.ts:346-365 | with its nested save, recursive freeze and re-read, leaves exactly the row of the pure freeze: no update of parent or child is lost |
| `BackgroundStore.JobTable.Freeze` | worker/background-store.ts:346-365 | one step: freezing a job or an upload |
| `BackgroundStore.JobTable.SaveAndFreeze` | worker/background-store.ts:308-309 | a note saved first and a freeze that reads it back compose |
| `BackgroundStore.JobTable.ObserveManaged` | worker/background-store.ts:294-310 | one step: a terminal observation or the loss of observation |
| `BackgroundStore.JobTable.Acknowledge` | worker/background-store.ts:367-390 | one step: an acknowledgement, with the tombstones of upload and parent |
| `BackgroundStore.JobTable.ClaimOne` | worker/background-store.ts:398-410 | one turn of the claim loop |
| `BackgroundStore.JobTable.ClaimManual` | worker/background-store.ts:394-412 | one step: manual recovery |
| `BackgroundStore.JobTable.ClaimDue` | worker/background-store.ts:394-412 | one step: the alarm; the rows due afterwards and the rows handed out are exactly as stated |
| `BackgroundStore.JobTable.ClaimEach` | worker/background-store.ts:398-411 | the claim loop over a snapshot of rows equals claiming them in turn |
| `BackgroundStore.JobTable.Retry` | worker/background-store.ts:414-424 | one step: back-off under the attempt fence |
| `BackgroundStore.JobTable.ManagedRetry` | worker/background-store.ts:230-239 | the one row that answers for a repeated request, or a conflict |
| `BackgroundStore.JobTable.MakeRoom` | worker/background-store.ts:170-178 | refuses only when no row is evictable, and evicts the oldest |
| `BackgroundStore.JobTable.Admit` | worker/background-store.ts:161-181 | one step: an admission |
| `BackgroundStore.JobTable.AdmitManaged` | worker/background-store.ts:224-228 | a repeated admission answers with the first job and changes nothing |
| `BackgroundStore.JobTable.AllocateInput` | worker/background-store.ts:184-191 | one step: an admission with its upload |
| `BackgroundStore.JobTable.ClaimInputUpload` | worker/background-store.ts:197-205 | one step: the upload is claimed once |
| `BackgroundStore.JobTable.BindInputUpload` | worker/background-store.ts:207-213 | one step: the uploaded image, a safe decimal number, is bound and its receipt frozen |
| `BackgroundStore.JobTable.ClaimInputCreate` | worker/background-store.ts:215-221 | one step: creation after the upload, claimed once |
| `BackgroundStore.JobTable.AllocatePublishedInput` | worker/background-store.ts:107-120 | one step: a published input, one per digest |
| `BackgroundStore.JobTable.ClaimPublishedInputPublication` | worker/background-store.ts:131-135 | one step: publication is claimed once |
| `BackgroundStore.JobTable.BindPublishedInputObject` | worker/background-store.ts:137-144 | one step: the object is bound once |
| `BackgroundStore.JobTable.ClaimPublishedInputForward` | worker/background-store.ts:146-151 | one step: forwarding is attempted once |
| `GrantLaws.StepKeeps` | worker/authority.ts:800-878 | every command keeps the invariant: saved statuses never held a place, at most 32 counted members per scope and provider, and a pending proposal stems from the last bump |
| `GrantLaws.StepFenced` | worker/authority.ts:800-878 | one command: versions never fall, members change only together with the revision, other grants are untouched |
| `GrantLaws.RunKeeps` | worker/authority.ts:804-816 | from any state that satisfies it, every sequence of commands keeps the invariant, the bound of 32 included |
| `GrantLaws.RunFenced` | worker/authority.ts:888-906 | over any run generation and revision never fall, and an unchanged revision means unchanged membership |
| `GrantLaws.LimitHidesNothing` | worker/authority.ts:1039-1041 | after any run no listing of selectable members is longer than the limit of the query |
| `GrantLaws.Abandonment` | worker/authority.ts:811-819 | any number of admissions of a grant, with any providers and states, restore to exactly what restoring before them gives |
| `GrantLaws.DetachedStays` | worker/authority.ts:824-857 | the only command that attaches a detached grant publishes its pending proposal for a newer generation, quoting the current revision |
| `GrantLaws.Reattachment` | worker/authority.ts:800-857 | over any run a grant without members comes back only by an admission and, with nothing in between, such a publication |
| `GrantLaws.PublicationMeans` | worker/authority.ts:824-857 | a publication that succeeds leaves the grant at the generation it quotes, without proposals and with the state of its owner |
| `GrantLaws.AdmittedPublishes` | worker/authority.ts:800-857 | what was admitted can be published next for a newer generation, and that attaches the grant in the state published |
| `GrantLaws.GenerationIsPublished` | worker/authority.ts:824-857 | over any run the generation of a grant is that of the last publication that succeeded |
| `GrantLaws.PublicationFences` | worker/authority.ts:888-898 | after any run an admission succeeds only for the generation published last, and a publication for none below it |
| `GrantLaws.NeverBelow` | worker/authority.ts:888-898 | once a generation has been published, nothing that quotes a lower one succeeds in any run |
| `GrantLaws.FlagReturns` | worker/authority.ts:792-798 | the `attached` flag of a snapshot is not that property: a paused member admitted for another status loses it, and a publication without a newer generation brings it back, in states that satisfy the invariant |
| `GrantLaws.FlagMeansDetached` | worker/authority.ts:792-798 | it is that property exactly when no proposal of the grant saves a previous status |
| `GrantAuthority.SnapshotMeans` | worker/authority.ts:792-798 | what a snapshot tells: pending means that the last command on the grant was an admission; neither pending nor attached means that the grant has no members; not pending means that the flag is exact and abandoning would change nothing |
| `GrantLaws.QuotedOnce` | worker/authority.ts:888-898 | a mutation that passes the fence quotes the current revision and no older generation, and after any run it passes again exactly when the revision, and with it the membership, is unchanged |
| `GrantLaws.DetachedIsEmptyRestore` | worker/authority.ts:875-878 | detached means that abandoning the proposals leaves no member |
| `GrantLaws.KeysNameIdentities` | worker/authority.ts:1107-1126 | grant keys and pool identities correspond one to one, so the version of a key and the members of an identity belong together |
| `GrantAuthority.Authority.AdmitGrantAttachment` | worker/authority.ts:800-822 | one command of the run model, with its reply; nothing changes on failure |
| `GrantAuthority.Authority.RestorePendingAttachment` | worker/authority.ts:875-878 | the update and the deletion together are the restoration |
| `GrantAuthority.Authority.WriteMembers` | worker/authority.ts:847-851 | the statements of a publication leave exactly the settled members |
| `GrantAuthority.Authority.PublishBody` | worker/authority.ts:825-856 | the publication with its restoration first, and the outcome it reports |
| `GrantAuthority.Authority.PublishGrantAttachment` | worker/authority.ts:824-857 | one command; success leaves and replies the generation quoted, and what was written before a failure is undone |
| `GrantAuthority.Authority.CancelPendingAttachment` | worker/authority.ts:859-873 | one command; cancelled exactly when nothing attached remains of a first admission |
| `SseFrames.Lossless` | worker/copilot-inference-response.ts:158-192 | the blocks of a stream and its tail are the stream |
| `SseFrames.NoBlockInside` | worker/copilot-inference-response.ts:168-185 | a block ends at its first blank line (section 9.2.5 of the WHATWG HTML standard): no shorter prefix is a block, unless it cuts a CRLF |
| `SseFrames.LineMeans` | worker/copilot-inference-response.ts:176-183 | a line is everything up to the first CR or LF, together with an LF right after a CR |
| `SseFrames.PendingStep` | worker/copilot-inference-response.ts:176-184 | one byte of scanning keeps the blocks still to come |
| `SseFrames.CloseIsLossless` | worker/copilot-inference-response.ts:186-192 | on a normal close the released bytes are the whole input |
| `SseFrames.BudgetMeans` | worker/copilot-inference-response.ts:27-44 | the end of the stream is found if and only if there are fewer than 8192 chunks, of at most 32 MiB together and of at most a window each, and no read fails |
| `SseFrames.ChunkingIsIrrelevant` | worker/copilot-inference-response.ts:158-192 | within those budgets the outcome depends on the bytes alone, not on how they are cut |
| `SseFrames.ReadsAreCounted` | worker/copilot-inference-response.ts:29-29 | beyond them it does not: one good stream that closes normally in one chunk and fails in 8192 chunks of one byte |
| `SseFrames.GivenUp` | worker/copilot-inference-response.ts:27-44 | when a read fails, what was released is the good blocks that the bytes read so far complete |
| `SseSplitter.Splitter.ScanChunk` | worker/copilot-inference-response.ts:165-185 | scans to the end of the block or of the chunk, and never past either |
| `SseSplitter.Splitter.ScanByte` | worker/copilot-inference-response.ts:175-183 | one byte: buffered, and its effect on the lines and on the block |
| `SseSplitter.Splitter.Release` | worker/copilot-inference-response.ts:159-163 | a block leaves in windows whose concatenation it is |
| `SseSplitter.Splitter.Turn` | worker/copilot-inference-response.ts:158-187 | a block is released only whole, validated and with the caller qualified again |
| `SseSplitter.Splitter.Read` | worker/copilot-inference-response.ts:27-44 | one read under the budgets of reads, size and window |
| `SseSplitter.Splitter.Deliver` | worker/copilot-inference-response.ts:158-192 | for every chunking, every verdict on reads and every revalidation: the output is the good blocks completed by the bytes read, up to the first bad one, and the response closes normally if and only if the budgets hold, the input is non-empty, of the announced length and all good blocks, and the final revalidation passes |
| `Crc.BitsLinear` | worker/bedrock-eventstream.ts:110-113 | the bit-by-bit register is linear over exclusive or |
| `Crc.TableStep` | worker/bedrock-eventstream.ts:114-118 | eight bit steps equal one table look-up and a shift |
| `Crc.TableEntry` | worker/bedrock-eventstream.ts:110-113 | a table entry is eight bit steps of its index |
| `Crc.Table` | worker/bedrock-eventstream.ts:110-113 | the table |
| `Crc.Crc32` | worker/bedrock-eventstream.ts:114-118 | the table-driven checksum equals the bit-by-bit one (section 8 of RFC 1952) |
| `Crc.KnownValue` | worker/bedrock-eventstream.ts:110-118 | the published checksum of the letter a |
| `EventFrames.SplitIsUnique` | worker/bedrock-eventstream.ts:46-64 | a stream has at most one split into length-delimited frames and a partial one |
| `EventFrames.FrameReads` | worker/bedrock-eventstream.ts:5-17 | the frame built in network order from admissible headers and a payload, with both checksums, is sound and holds exactly those |
| `EventFrames.FrameBehind` | worker/bedrock-eventstream.ts:5-17 | every sound frame is built that way |
| `EventFrames.ValueSizes` | worker/bedrock-eventstream.ts:91-105 | the sizes of header values by their kind |
| `EventFrames.MetadataMeans` | worker/bedrock-eventstream.ts:101-104 | each metadata header is found under its name, and nothing else is |
| `EventHeaders.HeadersExact` | worker/bedrock-eventstream.ts:86-108 | header bytes are read if and only if they encode an admissible list, and then as that list |
| `EventHeaders.NextHeader` | worker/bedrock-eventstream.ts:91-105 | one header at the cursor |
| `EventHeaders.EventHeaders` | worker/bedrock-eventstream.ts:86-108 | the loop returns the metadata of exactly the admissible lists |
| `EventHeaders.PreludeOf` | worker/bedrock-eventstream.ts:12-17 | the checks of a prelude |
| `EventHeaders.DecodeFrame` | worker/bedrock-eventstream.ts:5-10 | a frame is decoded if and only if its checksums hold and its headers are admissible |
| `EventInspector.WalkSplits` | worker/bedrock-eventstream.ts:46-64 | until it stops, the inspection has seen exactly the frames of that unique split |
| `EventInspector.WalkGoesOn` | worker/bedrock-eventstream.ts:46-64 | more bytes go on from what was held; after a stop nothing changes |
| `EventInspector.Inspector.Consume` | worker/bedrock-eventstream.ts:27-45 | a whole frame: checked, read, and its effect on the inspection |
| `EventInspector.Inspector.Push` | worker/bedrock-eventstream.ts:47-64 | the loop terminates, and the state afterwards depends on the bytes so far and not on how they were cut |
| `EventInspector.Inspector.Inspect` | worker/bedrock-eventstream.ts:46-64 | for every partition of a stream the state is that of inspecting it at once |
| `EventInspector.Inspector.Result` | worker/bedrock-eventstream.ts:65-71 | provider error exactly on failure, on a stream that ends inside a frame, or, without metadata of its own, on the error of the message accumulator |
| `DeviceLaws.StepKeeps` | worker/copilot-device-flow.ts:69-169 | every step keeps the invariant, with late answers, aborts, cancellation, invalidation, replacement and loss of the process among the steps |
| `DeviceLaws.AdmitsOwnFence` | worker/copilot-device-flow.ts:133-133 | comparing identifier and phase is enough: a result that passes is for the very fence stored |
| `DeviceLaws.FencesAdmitOnce` | worker/copilot-device-flow.ts:130-158 | over any run answers are admitted in the order of their fences, at most one for each |
| `DeviceLaws.TerminalForever` | worker/copilot-device-flow.ts:94-111 | over any run a terminal attempt never becomes pending, polling or committed |
| `DeviceLaws.PollsAreSpaced` | worker/copilot-device-flow.ts:101-111 | over any run polls of an attempt come at least the interval in force after anything sent before, the interval never falls, and nothing starts at or after expiry (section 3.5 of RFC 8628) |
| `DeviceLaws.SlowDownIsHeeded` | worker/provider-copilot-device.ts:144-144 | over any run, after an answer that asks to slow down every later poll of the attempt comes at least five seconds more than the old interval after it (section 3.5 of RFC 8628) |
| `DeviceLaws.OnlyItsActor` | worker/copilot-device-flow.ts:94-111 | nobody but the one who began an attempt, naming it and its key, can poll, read or cancel it, or begin another in its place |
| `DeviceLaws.ReplacedWhenOver` | worker/copilot-device-flow.ts:72-91 | an attempt gives way to another only when it is over, not while it may have been authorized for the same generation, and only to whoever began it |
| `DeviceLaws.UnqualifiedIsNothing` | worker/copilot-device-flow.ts:130-134 | an answer whose caller is no longer qualified, or whose exchange was stopped, changes nothing |
| `DeviceLaws.CommitsFromOwnPoll` | worker/copilot-device-flow.ts:148-152 | a token is installed only by the settlement of the stored poll fence, before expiry, and raises the generation |
| `DeviceOwner.Flow.BeginTurn` | worker/copilot-device-flow.ts:72-91 | one step: the reserving turn of a begin |
| `DeviceOwner.Flow.PollTurn` | worker/copilot-device-flow.ts:101-111 | one step: the reserving turn of a poll |
| `DeviceOwner.Flow.StatusTurn` | worker/copilot-device-flow.ts:101-101 | one step: status |
| `DeviceOwner.Flow.CancelTurn` | worker/copilot-device-flow.ts:94-100 | one step: cancellation |
| `DeviceOwner.Flow.RecoverAttempt` | worker/copilot-device-flow.ts:207-216 | a fence nobody works on is given up, an expired code expires |
| `DeviceOwner.Flow.StartExchange` | worker/copilot-device-flow.ts:177-201 | the exchange is registered before its request is sent, unless the attempt has expired |
| `DeviceOwner.Flow.SettleTurn` | worker/copilot-device-flow.ts:130-158 | one step: settlement |
| `DeviceLaws.OutcomeShape` | worker/copilot-device-flow.ts:135-156 | what each answer makes of an attempt: it is settled, keeps its identity, lives as long as the code counted from the request, commits only an authorized poll before expiry with the token installed, and a pending one polls again after an interval that never falls |
| `DeviceOwner.Flow.AbandonTurn` | worker/copilot-device-flow.ts:160-169 | one step: after a failure |
| `DeviceOwner.Flow.InvalidateTurn` | worker/copilot-device-flow.ts:45-50 | one step: invalidation |
| `AssignmentLaws.MatchMeans` | worker/assignment-evaluator.ts:213-220 | a rule matches if and only if it is enabled and: the address is its subject; or the address is a part without at-sign, an at-sign, the subject, and then nothing or another at-sign; or there is evidence and the subject is among its organizations, or its teams; it is undecided if and only if evidence is missing |
| `AssignmentLaws.RuleOutcome` | worker/assignment-evaluator.ts:172-185 | what becomes of one rule: the normal forms of its groups and of the generated one if it applies, what it assigned before if it may keep that, else nothing |
| `AssignmentLaws.NormalizeMeans` | worker/assignment-evaluator.ts:226-226 | normalization gives the sorted, duplicate-free, non-empty normal forms, and all of them |
| `AssignmentLaws.AssignedExactly` | worker/assignment-evaluator.ts:172-185 | with distinct rules each rule holds exactly what it assigns, and nothing else is there; a rule named `__proto__` assigns nothing |
| `AssignmentLaws.ForcedGroups` | worker/assignment-evaluator.ts:187-189 | a full evaluation that returns leaves exactly the groups put by hand and those of matched or retained rules not named `__proto__` |
| `AssignmentLaws.MissingEvidenceKeeps` | worker/assignment-evaluator.ts:213-220 | without evidence an enabled GitHub rule keeps what it assigned if and only if it is not named `__proto__`, or had nothing |
| `AssignmentLaws.BuildIs` | worker/assignment-evaluator.ts:172-185 | unless a rule finds an inherited function under its name, the object built has exactly the assignments as its own members, rules with equal identifiers included |
| `AssignmentLaws.EvaluationReturns` | worker/assignment-evaluator.ts:172-195 | with distinct rules an evaluation throws if and only if a retained rule without an earlier assignment has the name of an inherited function; otherwise its result is the one the laws speak of |
| `AssignmentLaws.MatchedIsKept` | worker/assignment-evaluator.ts:176-178 | what a matched rule assigns is in the result if and only if the rule is not named `__proto__` |
| `AssignmentLaws.ProtoIsLost` | worker/assignment-evaluator.ts:176-177 | that promise fails: a matched rule named `__proto__` whose groups are not in the result, and whose entry becomes the prototype of the object |
| `AssignmentLaws.BorrowThrows` | worker/assignment-evaluator.ts:179-189 | and so does returning: a GitHub rule named `constructor`, without evidence and without an earlier assignment |
| `AssignmentLaws.StoredAsEvaluated` | worker/authority-users.ts:4-13 | normalizing a changed user before it is stored changes nothing of what the evaluation found |
| `AssignmentLaws.EvaluateAgain` | worker/assignment-evaluator.ts:190-195 | evaluating the result again reports a change if and only if a group kept as put by hand normalizes to a reserved one that no rule assigns |
| `AssignmentLaws.NormalUsersSettle` | worker/assignment-evaluator.ts:187-192 | users in normal form have no such group |
| `AssignmentLaws.StrayExists` | worker/assignment-evaluator.ts:188-188 | a user who has one: both the first and the second evaluation report a change |
| `Reconcile.SortedIds` | worker/assignment-evaluator.ts:171-171 | the identifiers of earlier assignments, sorted |
| `Reconcile.MatchedMeans` | worker/assignment-evaluator.ts:174-178 | the matched identifiers are exactly those of the rules that apply |
| `Reconcile.EvaluateAssignments` | worker/assignment-evaluator.ts:168-196 | the evaluation loop, on an object whose look-ups see inherited names and whose prototype can be replaced: it throws or returns the specified user, change flag and identifier lists; with distinct rules exactly those that apply are among the matched ones |
| `Reconcile.LegacyMeans` | worker/assignment-evaluator.ts:148-161 | an older record is used only for a user without one, with its rules, flags and normal forms of groups |
| `Reconcile.MoveKeeps` | worker/authority.ts:521-559 | every move of the queue keeps order and linearization; a turn is always that of the first unfinished request |
| `Reconcile.Linearizes` | worker/authority.ts:521-559 | every interleaving of arrivals, captures, hashing, failures, outside writes and callers changing their requests equals running the turns alone in arrival order with rules, address and flag as they arrived, and legacy and evidence, held by reference, as they are in the turn |
| `Reconcile.WholeRequests` | worker/authority.ts:521-529 | if no caller changes what it shared, every turn uses the whole request as it arrived |
| `Reconcile.NoBlockingNoOvertaking` | worker/authority.ts:530-532 | the first unfinished request, and only it, can go on, whatever became of those before it |
| `ReconcileQueue.Reconciler.Arrive` | worker/authority.ts:522-530 | one move: the swap of the tail and the capture, deep for the rules and by reference for legacy and evidence |
| `ReconcileQueue.Reconciler.Enter` | worker/authority.ts:531-533 | one move: after the predecessor |
| `ReconcileQueue.Reconciler.Finish` | worker/authority.ts:534-557 | one move: read, evaluate, normalize and write, and the release of the successor |
| `Continuations.StepLasting` | worker/continuation-store.ts:56-106 | every operation keeps the capacity, and of every row that has not expired: owner, producer, job, lifetime and final knowledge |
| `Continuations.OwnedUntilExpiry` | worker/continuation-store.ts:56-106 | the same over any run, until the row expires |
| `Continuations.StoredResolves` | worker/continuation-store.ts:69-100 | every key of a stored registration resolves, with the owner that registered it and, where claimed, its job and producer; a new row is exactly as registered and lives for the whole retention, an old one is kept |
| `Continuations.RetiredRegisters` | worker/continuation-store.ts:73-73 | a retired job registers only where its own row lives, and without a job only where no row does |
| `Continuations.QualifiedByOwner` | worker/continuation-store.ts:56-67 | evidence becomes final only for the owner and the producer of its row, and the answer tells whether it is final as asked |
| `Continuations.KnownFromOwner` | worker/continuation-store.ts:56-106 | in any step, what becomes known of a living row was told by a qualification from its owner and producer |
| `ContinuationStore.Store.RegisterKeys` | worker/continuation-store.ts:69-90 | a registration, with its objections, cleanup and capacity; the counter equals the number of rows |
| `ContinuationStore.Store.StoreMissing` | worker/continuation-store.ts:82-88 | all missing rows are stored, or none |
| `ContinuationStore.Store.ForgetExpired` | worker/continuation-store.ts:77-80 | the expired rows of the keys go, and the counter with them |
| `ContinuationStore.Store.QualifyClaim` | worker/continuation-store.ts:56-67 | evidence becomes final at most once, for its own producer |
| `ContinuationStore.Store.CloseBackground` | worker/continuation-store.ts:94-96 | closes the rows of a job |
| `ContinuationStore.Store.Expire` | worker/continuation-store.ts:102-106 | bounded sweeps of both tables keep both counters exact |
| `Witnesses.RegisterFollows` | worker/compaction-witness-store.ts:45-60 | a registration keeps the capacity and the rows that live; rows that appear are in time |
| `Witnesses.StoredResolves` | worker/compaction-witness-store.ts:35-41 | every record of a stored batch resolves |
| `Witnesses.NeverExtended` | worker/compaction-witness-store.ts:46-60 | over any run a witness stays exactly as it is until its own expiry |
| `Witnesses.NeverResurrected` | worker/compaction-witness-store.ts:46-48 | once its time is over and its row is gone, a witness never comes back |
| `ContinuationStore.Store.RegisterWitnesses` | worker/compaction-witness-store.ts:42-62 | a batch is stored whole or not at all; malformed batches are refused |
| `ContinuationStore.Store.CheckBatch` | worker/compaction-witness-store.ts:48-52 | the loop of checks before any change |
| `ContinuationStore.Store.SweepWitnesses` | worker/compaction-witness-store.ts:66-69 | a bounded sweep keeps the counter exact |
| `BodyBudget.SumAt` | worker/body-budget.ts:7-11 | the sum of what leases hold can be taken apart at any lease |
| `BodyBudget.StepBalanced` | worker/body-budget.ts:9-42 | every operation keeps the charge equal to what all leases hold, within the budget |
| `BodyBudget.Conserved` | worker/body-budget.ts:9-42 | over any run with any number of leases the charge is conserved, and a divided lease stays divided and empty |
| `BodyBudget.DividedIsInert` | worker/body-budget.ts:13-41 | nothing a divided lease is asked to do changes anything |
| `BodyBudget.BodyLease.Grow` | worker/body-budget.ts:13-21 | one operation on the shared account; a refused growth changes nothing |
| `BodyBudget.BodyLease.SplitCharges` | worker/body-budget.ts:24-39 | one operation: two new leases take over the charge, or nothing changes |
| `BodyBudget.BodyLease.Release` | worker/body-budget.ts:41-41 | one operation: what is held is given back |

## Left out

- HTTP routing, admin handlers, response projections, model catalogues, JWT and key handling, caches and the ledger itself.
- Background store: pricing is any function of facts and outcome; the formats of digests and managed metadata, and the checks of a tariff and of an input allocation, are given as verdicts; upstream identifiers are sequences of Unicode scalar values; a missing tariff shares one error with a malformed request; the 64 KiB limit of a row, `bindManagedFiles`, listing, and the closing of continuation bindings after a freeze are not modelled.
- Background store: a published input's own expiry and that of its issuer's proof are one instant; the formats of objects and attempts are not checked.
- Access JSON: base64 admission (`accessBase64Size`, `admitAccessBase64`) would add only easy members; the value `JSON.parse` returns is not modelled beyond its tree.
- JSON meter: numbers are given by their decimal text.
- PlanMeter.SequencePlan.Normalized: meters a normalized string as one text; how it is found by trimming and by lower-casing scalar after scalar is not modelled, so that the size of a text lower-cased as a whole equals that of its scalars (the final sigma included) is taken from the program's comment.
- PlanMeter.MapPlan.Matched: meters the normalized groups of a rule in the same way.
- PlanMeter.PlanEvaluation: runs the plan of the assignments and that of the combined groups; the other plans of the evaluation (identifiers, old, next and current groups) are objects of the same class over other lists and can only refuse more; when nothing is to be evaluated nothing is built; the listing plan and the plan of the legacy state are not modelled.
- Account projection: the returned string is its sequence of UTF-16 units.
- Grant attachment: routing projections, runtime rows and the paging of pending grants are not modelled.
- Inference responses: unary responses, headers, cancellation by the consumer and the retirement of readers are not modelled; an abort is a read or a revalidation that fails; the buffers that a read hands over are values.
- Event streams: what a decoded frame says about usage is any function of the frames so far; text decoding is any partial function.
- Device flow: administrator checks, requests and answers are outcomes of a step; codes, tokens and digests do not appear; a step that the owner refuses, and one whose storage fails, changes nothing.
- Assignments: trimming and lower-casing are any idempotent function; rules with the same identifier are allowed in the evaluation but the laws about results are for distinct identifiers; serialization orders integer-like identifiers first, where the model keeps the order of writing; size admission inside a bounded reconciliation is the failure of its turn; addresses are taken as they are stored, and of a user's record only role, groups and assignments are kept; a record is read back as plain data, so that a replaced prototype does not outlive its evaluation.
- Continuations: the validity of digests and owners is given; JSON of evidence is nothing, a claim, or text that is no evidence.
- Witnesses: the key of a witness stands for its serialized form, and its other fields are one value.
- Body budget: the module's variable is an object passed to each call; sizes are integers.
- BodyBudget.BodyLease.With: enters its charge in no account by itself; only the division of a lease calls it, and records it.
