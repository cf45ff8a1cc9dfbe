# A model of the CloudTrail record filter, with proofs

The program takes gzip-compressed log files named by queue messages, drops the records that a
ruleset excludes, and writes the rest to a destination bucket. This project models its core in
Dafny 4.11 and proves what it relies on. `dafny verify dfyconfig.toml` checks everything.

**Rule evaluation** (`Json`, `Paths`, `Patterns`, `Literals`, `Escapes`, `Words`, `RuleIndex`,
`Projection`, `Engine`, `Fields`). Three evaluators must agree: a linear oracle, one narrowed by a
two-dimensional bitset index, and one that never builds the record but walks the JSON once
against a trie of field paths, filling a vector of slots. A document is a tree of ordered
members, duplicates included, with a leaf for tokens that lex but do not decode; its value is
the last-wins collapse. The trie, the bitsets and the slot vector are heap objects updated in
place, as in the program. The regex fragment that the index reduces to literals has a parser
and a denotation of its own; every other pattern is an uninterpreted predicate. `Fields` and
`Escapes` say what names, operators and plain patterns mean to whoever writes rules.

**The streaming filter** (`Stream`, `StreamProgress`, `StreamSafety`, `StreamOutcome`,
`StreamRaces`, `ChannelReaders`, `Delivery`). Pump, extractor, filter loop and upload are joined
by three bounded channels and step in any order. An event says who moves and settles what is
left open: how much of the encoder's sink is drained, where within its window a malformed source
tells, whether the extractor dies, whether the store fails. The readers that turn a channel back
into a byte stream are classes of their own, and `Delivery` puts the filter's messages through
them into a store.

**Buffer mode and parity** (`Codecs`, `Records`, `Envelopes`, `Buffer`, `Parity`, `Rereads`,
`EndToEnd`). Compression is taken by contract: the encoder's output so far depends on the text
so far and is never taken back, and concatenated members decompress to what they hold.
Everything else about the two modes is modelled: capped decompression, the derived struct with
its fallback parse, the streaming visitor, the several-member compressor. The JSON parser is a
function from texts to documents; `Rereads`, which shows that the output is read back as what
was kept, asks of it only that it reads plainly written objects.

**The batch pipeline, its counters and the rules cache** (`Tally`, `Errors`, `Effects`, `Fates`,
`Objects`, `Batches`, `Pipeline`, `Schedules`, `ConfigStore`, `ConfigCalls`, `ConfigRaces`).
`Effects` computes what processing one object comes to under every policy, and `Fates` says what
that is, case by case, in terms of the object, the policies and the store's answers; the methods
of `Objects` are proved to do exactly that to the shared counters and the store, and `Pipeline`
sums it up over a batch. `Schedules` lets objects in flight interleave their counter updates and writes in
any way, and `ConfigCalls` does so for calls to the rules cache. What the store, the clock and
the workers answer is a parameter of each call.

Text is a string of byte-valued characters, so that lengths are byte lengths.

## Where the code and its documentation part

The model follows the code in each case.

* `crates/core/src/filter/index.rs:230-242` calls the literal extraction conservative. It is
  not for `\<` and `\>`, which the regex engine of the locked version reads as word assertions:
  `Literals.WordStartCounterexample`, `Engines.IndexMissesWordAssertion`. When it is, and when the
  list is the pattern's whole language, is `Literals.CoversIff` and `Literals.LiteralsExactIff`.
* `crates/core/src/process/stream.rs:277-281` calls the streaming verdict equal to buffer
  mode's. `Parity.ModesAgree` gives the exact condition, `Envelopes.ReadersMayPart` and
  `Envelopes.RepeatedKeysMayPart` the files on which they part.
* `crates/core/src/pipeline.rs:511-512` has a dry run write nothing. That holds with a ruleset
  (`Effects.DryRunLandsNothing`), not for the copy made without one
  (`Effects.RawCopyIgnoresDryRun`).
* `crates/core/src/pipeline.rs:554-557` has the preview execute what the live run executes. They
  may still part on a malformed source that fails to read, but only if the read fails where the
  source may or may not have told (`Effects.DryRunAgrees`, `Effects.TornMayPart`); and for one
  that vanishes before it is copied the counters differ.
* `crates/core/src/config/store.rs:78-79` returns the cached value after a refresh. When calls
  overlap it may be older than the one the refresh stored (`ConfigRaces.OvertakenMayBeStale`);
  `ConfigRaces.FreshIff` says exactly when.

## Model

| member | source | states |
|---|---|---|
| `Paths.WalkIsExistential` | crates/core/src/filter/path.rs:136-157 | a walk stops with true exactly when some scalar the path reaches satisfies the caller, wildcards included |
| `Paths.FixedReachesAtMostOne` | crates/core/src/filter/path.rs:122-127 | a wildcard-free path reaches at most one scalar, so its slot is all there is |
| `Paths.FixedWalk` | crates/core/src/filter/path.rs:122-127 | on a wildcard-free path the walk tests exactly the one value of its slot |
| `Paths.Resolve` | crates/core/src/filter/path.rs:22-38 | dotted-name resolution loops down the record and yields exactly what the walk of the literal path yields |
| `Paths.ParseSubscripts` | crates/core/src/filter/path.rs:86-104 | the subscript loop accepts and yields exactly what the recursive reading of `[i]`/`[*]` sequences does, errors included |
| `Paths.ParsePath` | crates/core/src/filter/path.rs:74-108 | the parsing loop agrees with the recursive reading of dotted parts; empty paths, empty names, unclosed or foreign subscripts and indices beyond 64 bits are errors |
| `Paths.WrittenPathsParse` | crates/core/src/filter/path.rs:68-108 | round trip: every path the syntax can express, written with dots and subscripts, parses back to itself |
| `Paths.PlainName` | crates/core/src/filter/path.rs:110-120 | a name without dots and brackets means the same single key in both rule versions |
| `Json.LastMemberWins` | crates/core/src/filter/project.rs:176-190 | a field of a parsed object is its last member of that name, duplicates overwritten |
| `Json.FieldsAreMembers` | crates/core/src/filter/project.rs:176-190 | and a parsed object has no other fields |
| `Fields.VersionOneReads` | crates/core/src/filter/path.rs:110-120 | version 1: a condition on names joined by dots reads exactly the keys of these names, brackets included, and only its pattern can keep it from compiling |
| `Fields.OtherVersionsRead` | crates/core/src/filter/path.rs:68-108 | every other version: a condition on a path written out with dots and subscripts reads exactly that path |
| `Fields.UnclosedIsRefused` | crates/core/src/filter/path.rs:86-104 | every other version: a name whose last bracket is not closed does not compile, whatever stands before it |
| `Fields.PositionsFit` | crates/core/src/filter/path.rs:95-101 | a position written in digits is read exactly if it is below 2^64 |
| `Fields.PathExamples` | crates/core/src/filter/path.rs:86-104 | written out: `resources[0].ARN` as a path and as literal keys, stars, signs and empty brackets |
| `Fields.PlacedReads` | crates/core/src/filter/path.rs:136-157 | in a record that holds one value at one place, a wildcard-free path of that length reads it if it is the path of that place, and nothing otherwise |
| `Fields.ScalarForms` | crates/core/src/filter/path.rs:142-147 | at whatever place: strings read as what they spell, numbers as their text, booleans as `true` and `false`, null, arrays and objects as nothing |
| `Fields.WildcardIsAnyIndex` | crates/core/src/filter/path.rs:151-154 | a wildcard reads whatever some position in its place reads |
| `Fields.ParsesIff` | crates/core/src/filter/engine.rs:301-312 | a text parses if and only if nothing follows the record and nothing at any place in it fails to decode |
| `Literals.UnescapeLiteral` | crates/core/src/filter/index.rs:301-320 | the scanning loop succeeds exactly on fragments whose every token can be taken for one character, and yields those characters; a word assertion is taken for its bracket, as in the program |
| `Literals.FindUnescapedParens` | crates/core/src/filter/index.rs:280-295 | finds exactly the parentheses no backslash escapes, in order, with their positions |
| `Literals.ParensPoint` | crates/core/src/filter/index.rs:280-295 | each reported position is in range and holds the reported parenthesis |
| `Literals.ExtractLiterals` | crates/core/src/filter/index.rs:243-276 | the scanning loops compute the declarative extraction: one anchored literal, or prefix and suffix distributed over one flat group |
| `Literals.AcceptedShape` | crates/core/src/filter/index.rs:243-276 | every accepted pattern is that of its shape, a single text or one flat group between two, and its list is the shape's |
| `Literals.PatternLanguage` | crates/core/src/filter/index.rs:230-242 | every accepted pattern, word assertions anywhere, matches exactly the strings its runs read to: prefix, alternative and suffix without their assertions, where each assertion holds at its place |
| `Literals.ListedRuns` | crates/core/src/filter/index.rs:270-275 | the list is what those runs say with their assertions taken for characters, one string to a run, in order |
| `Literals.CoversIff` | crates/core/src/filter/index.rs:230-242 | for every accepted pattern: no match is missing from the list if and only if every run whose assertions hold reads to a listed string |
| `Literals.LiteralsExact` | crates/core/src/filter/index.rs:230-276 | in particular, without `\<` or `\>` the anchored regex matches a string exactly if the string is in the list |
| `Literals.LiteralsExactIff` | crates/core/src/filter/index.rs:230-242 | for every accepted pattern: the list is the language if and only if every run whose assertions hold reads to a listed string and every listed string is what some run reads to |
| `Literals.AssertionOutsideGroupIsInexact` | crates/core/src/filter/index.rs:306-311 | a `\<` or `\>` outside the group always leaves a listed string that the regex does not match |
| `Literals.WordStartCounterexample` | crates/core/src/filter/index.rs:306-311 | concrete pattern `^\<a$`: the list is wrong, since the regex engine reads `\<` as a word assertion |
| `Literals.AssertionInsideGroupMayBeExact` | crates/core/src/filter/index.rs:306-311 | a word assertion inside one alternative can be harmless, when another alternative rescues its string |
| `Escapes.EscapedMatchesItself` | crates/core/src/filter/index.rs:230-320 | every word, its metacharacters escaped and itself anchored, is listed as itself, and matches itself and nothing else |
| `Escapes.GroupMatchesItsWords` | crates/core/src/filter/index.rs:243-276 | an anchored group of plain words lists them in order, and matches them and nothing else |
| `RuleIndex.Bits.Set` | crates/core/src/filter/index.rs:37-39 | sets one bit and no other, across 64-bit words |
| `RuleIndex.Bits.UnionFrom` | crates/core/src/filter/index.rs:47-51 | afterwards a bit is in exactly if it was in either set |
| `RuleIndex.AllSet` | crates/core/src/filter/index.rs:29-35 | contains every index below the length and none beyond |
| `RuleIndex.Axis.AddLiteral` | crates/core/src/filter/index.rs:97-107 | one literal of one rule goes into exactly that bucket, which may be new |
| `RuleIndex.Axis.Add` | crates/core/src/filter/index.rs:96-118 | one rule goes into the buckets of its literals, or among the unconstrained |
| `RuleIndex.Axis.FoldUnconstrained` | crates/core/src/filter/index.rs:124-131 | the second pass completes every bucket with the unconstrained rules |
| `RuleIndex.BuildAxis` | crates/core/src/filter/index.rs:88-142 | after both passes an axis answers for every value: the rules that list it, and the unconstrained |
| `RuleIndex.Index.constructor` | crates/core/src/filter/index.rs:88-142 | the bitsets are exact: a rule is permitted if and only if on each axis the value is absent, the rule unconstrained, or the value one of its literals |
| `Projection.Node.Insert` | crates/core/src/filter/project.rs:43-68 | inserting a path grows the shared trie in place and records exactly one more route, nothing else changing |
| `Projection.Node.Descend` | crates/core/src/filter/project.rs:46-66 | each step labels the node passed and leaves every sibling subtree untouched |
| `Projection.Build` | crates/core/src/filter/project.rs:40-74 | the trie covers exactly the given paths, ids in order, and notes whether one has a wildcard |
| `Projection.SubtreeTerminalsExact` | crates/core/src/filter/project.rs:24-27 | the subtree terminals of the node at a prefix are exactly the ids of the paths that start with it |
| `Projection.SiblingsDisjoint` | crates/core/src/filter/project.rs:24-27 | no id is in two siblings' subtrees |
| `Projection.Skip` | crates/core/src/filter/project.rs:285-301 | skipping a subtree fails exactly when fully parsing it would |
| `Projection.CaptureTerminals` | crates/core/src/filter/project.rs:147-158 | fills the slots of the paths that end here and no others |
| `Projection.ClearSubtree` | crates/core/src/filter/project.rs:185-190 | nulls exactly the slots below a child before it is visited again |
| `Projection.VisitMap` | crates/core/src/filter/project.rs:176-199 | with duplicate keys, the slots below hold what the last-wins object yields |
| `Projection.VisitSeq` | crates/core/src/filter/project.rs:201-241 | fixed subscripts each receive their element; elements nobody names are still validated |
| `Projection.VisitValue` | crates/core/src/filter/project.rs:161-283 | one visit sets exactly the slots of the paths below this node to what those paths yield on the collapsed value |
| `Projection.Project` | crates/core/src/filter/project.rs:91-110 | for every document and every wildcard-free path set: fails exactly when a full parse fails, and each slot holds what the walk of its path yields on the last-wins value |
| `Engines.MatchFiresHolds` | crates/core/src/filter/engine.rs:233-249 | a compiled condition fires exactly when its meaning holds, absent fields and negation included |
| `Engines.ProjectedAgrees` | crates/core/src/filter/engine.rs:289-299 | over projected slots a condition fires as over the record |
| `Engines.IndexLiterals` | crates/core/src/filter/engine.rs:90-107 | the index keys come from the first positive condition on the single key, by its operator; those of a set operator are its members in order, one each |
| `Engines.KeySound` | crates/core/src/filter/engine.rs:90-107 | when the list its key comes from lacks no match, a rule that fires is admitted by its key, on every record |
| `Engines.KeyIff` | crates/core/src/filter/engine.rs:90-107 | a key admits every record its own condition fires on if and only if its list lacks no match |
| `Engines.BySelectivityMembers` | crates/core/src/filter/engine.rs:159-164 | reordering by selectivity keeps every condition and adds none |
| `Engines.WildPatternsLast` | crates/core/src/filter/engine.rs:77-84 | a pattern that opens with a wildcard run is tried after every other condition |
| `Fields.OperatorLaws` | crates/core/src/filter/engine.rs:233-249 | a list holds if some member equals a value, a pattern if some match of it does, absence if nothing does, and negation is the contrary of each |
| `Fields.RulesetLaws` | crates/core/src/filter/engine.rs:251-270 | conditions are joined by AND, a rule without any always holds; a further rule decides only what no rule before it did |
| `Engines.CompileRule` | crates/core/src/filter/engine.rs:121-169 | a rule compiles exactly if each pattern and path does, and then means the same |
| `Engines.CompileRules` | crates/core/src/filter/engine.rs:113-169 | a ruleset compiles exactly if every rule does |
| `Engines.Intern` | crates/core/src/filter/engine.rs:176-185 | a path keeps the id it has, or gets the next one; ids never move |
| `Engines.InternAll` | crates/core/src/filter/engine.rs:186-190 | every condition ends up with the id of its own path, conditions otherwise unchanged |
| `Engines.New` | crates/core/src/filter/engine.rs:113-219 | compilation succeeds exactly if all patterns and paths compile, for version 1 exactly if all patterns do; the engine then is exact for the ruleset it was built from |
| `Engines.Engine.FallsBackIff` | crates/core/src/filter/engine.rs:301-312 | the raw evaluation falls back to a full parse exactly if some condition was written with a wildcard, and never in version 1 |
| `Engines.Engine.EvaluateLinear` | crates/core/src/filter/engine.rs:260-270 | the oracle decides by the first rule that holds, or keeps |
| `Engines.Engine.Evaluate` | crates/core/src/filter/engine.rs:272-287 | the indexed walk returns the first permitted rule that fires |
| `Engines.Engine.EvaluateRaw` | crates/core/src/filter/engine.rs:301-328 | fails exactly when the full parse fails, and otherwise decides as the indexed walk on the parsed record, the wildcard fallback included |
| `Engines.Engine.CandidateUnique` | crates/core/src/filter/engine.rs:272-287 | the indexed decision is unique, so `Evaluate` and `EvaluateRaw` agree |
| `Engines.Engine.IndexedIsExact` | crates/core/src/filter/engine.rs:272-287 | when no rule is indexed through a list that lacks a match of its pattern, the indexed decision is exactly the oracle's, same rule index, on every record |
| `Engines.Engine.PlainRulesAreCovered` | crates/core/src/filter/index.rs:306-311 | which holds of every ruleset whose patterns have no word assertion |
| `Engines.Engine.OnePatternIff` | crates/core/src/filter/index.rs:1-5 | a rule that is one positive pattern on an indexed field, among any other rules: the index hides it from no record it holds of if and only if the pattern yields no list or one that lacks no match |
| `Engines.Engine.OneRuleIff` | crates/core/src/filter/engine.rs:272-287 | and for a ruleset of that one rule, indexed and linear decisions agree on all records under exactly that condition |
| `Engines.IndexMissesWordAssertion` | crates/core/src/filter/engine.rs:90-107 | otherwise it need not be: a concrete rule the oracle fires and the index never permits |
| `Tally.CountsBalance` | crates/core/src/process/tally.rs:22-47 | however the verdicts fall, every record is kept or attributed to one rule |
| `Tally.TallyCounts` | crates/core/src/process/tally.rs:22-46 | each counter is the number of verdicts of its kind: kept are those kept or unparsed, and the drops of a rule are those it made |
| `Tally.RecordTally.Record` | crates/core/src/process/buffer.rs:168-188 | what either record loop does with one verdict: a record that does not parse is kept and counted |
| `Tally.RecordTally.Commit` | crates/core/src/process/tally.rs:49-67 | publishes all counters as one unit, each drop under its rule's name, and keeps both reconciliation identities |
| `Tally.Metrics.RecordRuleDrops` | crates/core/src/metrics.rs:123-129 | adds to one name only |
| `Tally.Metrics.SnapshotAndReset` | crates/core/src/metrics.rs:134-164 | reads and zeroes everything; in the snapshot records in are kept plus dropped, and rule drops sum to dropped; cold start only once |
| `StreamSafety.StepKeeps` | crates/core/src/process/stream.rs:172-202 | every step of every component, faults included, keeps the invariant that places each chunk, record and output byte |
| `StreamSafety.RunKeeps` | crates/core/src/process/stream.rs:383-411 | so every reachable state has it, for all capacities of at least one |
| `StreamSafety.ReceiveSeesEof` | crates/core/src/process/stream.rs:97-123 | the extractor sees end of file only after every chunk passed through its hands and no read failed |
| `StreamSafety.ErrorComesLast` | crates/core/src/process/stream.rs:97-123 | it meets a failed read only after every chunk delivered passed through its hands |
| `StreamSafety.RecordKeepsRecords` | crates/core/src/process/stream.rs:436-483 | taking a record loses none and reorders none |
| `StreamSafety.EncoderRecord` | crates/core/src/process/stream.rs:455-483 | after each record the encoder holds the envelope so far, commas included, and the tally and byte count follow |
| `StreamSafety.FinishAdds` | crates/core/src/process/stream.rs:507-522 | finishing the encoder adds exactly what had not been let out, however the sink was drained; any other end aborts |
| `StreamSafety.OutputUpload` | crates/core/src/testing/mod.rs:232-265 | the store commits only on a clean end of file of an unaborted output |
| `StreamSafety.CommitsOnlyComplete` | crates/core/src/process/stream.rs:13-15 | in every interleaving and under any faults, the destination changes only if the source was read cleanly to its end and the filter loop reached `Written`, and then holds the envelope of exactly the kept records in order, as one member |
| `StreamProgress.NeverStuck` | crates/core/src/process/stream.rs:42-48 | no unfinished state is stuck, for any capacities of at least one, also after the upload dropped its reader |
| `StreamProgress.StepDecreases` | crates/core/src/process/stream.rs:177-202 | every step lowers a measure over remaining input, messages in flight and program counters |
| `StreamProgress.Terminates` | crates/core/src/process/stream.rs:569-570 | every run, whatever fails, is at most six steps per chunk and five per record, plus 24 |
| `StreamProgress.Completes` | crates/core/src/process/stream.rs:569-570 | every run can be carried on, without a fault and with the extractor reading on either as long as it may or no more than it must, to a state in which all four components have finished |
| `StreamOutcome.SuccessIsExact` | crates/core/src/process/stream.rs:569-600 | whatever fails: success is returned only as planned and for a source read whole; a write is returned exactly when the object landed; an error publishes nothing, bills nothing and leaves the destination |
| `StreamOutcome.ErrorsAreCaused` | crates/core/src/process/stream.rs:552-576 | each error has its cause: a malformed source that was read to its end or far enough to tell, a failed read of one that need not have told by then, or a fault |
| `StreamOutcome.FaultFreeOutcome` | crates/core/src/process/stream.rs:569-600 | without faults, result, destination and published counters follow from the input alone, not from the schedule |
| `StreamOutcome.ReadFailureOutcome` | crates/core/src/process/stream.rs:347-375 | a source that fails to read is never a success and never reaches the destination; without another fault, a malformed one is always reported as unparsable if it delivered enough that it must tell, always as unread if it delivered too little to tell, and as either only in between; any other always as unread |
| `StreamRaces.EitherMayBeReported` | crates/core/src/process/stream.rs:347-375 | on a malformed source whose read fails between the two, from any point of a fault-free run at which the extractor is choosing, the run can be carried on to report the parse failure and to report the read failure |
| `ChannelReaders.ReadIsExact` | crates/core/src/process/stream.rs:97-170 | one read: no capacity takes nothing; otherwise it delivers at least a byte, or end of file when all was delivered, or the sender's error |
| `ChannelReaders.ErrorIsNext` | crates/core/src/process/stream.rs:98-170 | an error is met exactly where it was sent, behind nothing but empty chunks, and once |
| `ChannelReaders.EofMeansEverything` | crates/core/src/process/stream.rs:125-170 | however sends and reads interleave, what is delivered is a prefix of what was sent, end of file means every byte and no error, and an error is met only if one was sent |
| `ChannelReaders.ChannelSyncRead.Read` | crates/core/src/process/stream.rs:97-123 | the blocking read fills the buffer as specified, touches nothing beyond, and notes a transport error |
| `ChannelReaders.ChannelAsyncRead.PollRead` | crates/core/src/process/stream.rs:142-170 | the polled read does the same, pending on an empty open channel |
| `ChannelReaders.InMemoryStore.PutStream` | crates/core/src/testing/mod.rs:232-265 | commits the whole body on end of file, changes no object on a reader error, for every arrival of the chunks |
| `Delivery.OfferedIsEnvelope` | crates/core/src/process/stream.rs:413-567 | in every run, what the filter has handed over by its end is the compressed envelope of the kept records if its result is `Written`, and holds an abort otherwise |
| `Delivery.AnyPollingDelivers` | crates/core/src/process/stream.rs:125-170 | however the reader polls it: end of file without an error means the filter wrote and all of that envelope was read, and if it wrote no error is met |
| `Delivery.UploadMessages` | crates/core/src/testing/mod.rs:232-265 | the in-memory store's upload loop over those messages commits that envelope if the filter wrote, and changes no object otherwise |
| `Envelopes.VisitRecords` | crates/core/src/process/stream.rs:226-275 | streams exactly the elements of an array; other values read if their own text decodes |
| `Envelopes.VisitObject` | crates/core/src/process/stream.rs:293-315 | one pass over the entries finds an envelope exactly if every key decodes and one entry alone is a `Records` array |
| `Envelopes.ExtractRecords` | crates/core/src/process/stream.rs:347-375 | the extraction task's verdict and records, the trailing-content check included |
| `Envelopes.ReadersAgree` | crates/core/src/process/buffer.rs:152-165 | the derived struct with its fallback and the streaming visitor reach one verdict exactly on agreeable files, a condition on where undecodable leaves sit, and then find the same records |
| `Envelopes.DecodesIff` | crates/core/src/process/buffer.rs:152-165 | a full parse accepts exactly the files with no undecodable leaf |
| `Envelopes.ReadsIff` | crates/core/src/process/stream.rs:226-315 | the visitor gets through exactly the files with no undecodable leaf at the places it looks |
| `Envelopes.DecodedObjectsAgree` | crates/core/src/process/stream.rs:277-281 | every top-level object is agreeable whose strings decode outside its one `Records` array, repeated keys and trailing content included |
| `Envelopes.PlansMean` | crates/core/src/process/stream.rs:277-331 | what the readers look for in so many words: an object whose keys all decode, with one `Records` entry alone, an array, and nothing behind it; a bare array, a scalar, trailing content or a broken text otherwise |
| `Envelopes.ReadersMayPart` | crates/core/src/process/buffer.rs:39-43 | the files on which they part: a bare array of one array, and an undecodable string nobody looks at |
| `Envelopes.RepeatedKeysMayPart` | crates/core/src/process/stream.rs:302-308 | and a repeated `Records` key with a record only the full parse looks into |
| `Buffer.MembersAreEven` | crates/core/src/process/buffer.rs:98-114 | for every body, the empty one included, and every number of chunks: the members hold the body in order, all but the last equally long and at least 64 KiB; up to 65536 of them they are exactly `max(1, min(chunks, len / 65536))` and the last falls short by fewer bytes than there are members |
| `Buffer.CompressPieces` | crates/core/src/process/buffer.rs:113-134 | the members in order, or the failure if any worker fails |
| `Buffer.GzipCompressChunked` | crates/core/src/process/buffer.rs:107-134 | for every body and number of chunks, the output is the concatenation of the members of those texts |
| `Buffer.ChunkedInflates` | crates/core/src/process/buffer.rs:100-106 | whatever the number of members, what was compressed is what decompresses (section 2.2 of RFC 1952) |
| `Buffer.DecompressCapped` | crates/core/src/process/buffer.rs:65-82 | over the cap is too large even if corrupt beyond it; under it, corrupt or the text; the limit saturates |
| `Buffer.Evaluate` | crates/core/src/process/buffer.rs:167-188 | the record loop keeps exactly the surviving records in order and tallies every verdict |
| `Buffer.Assemble` | crates/core/src/process/buffer.rs:195-203 | the body is the envelope of the survivors |
| `Buffer.BufferRun` | crates/core/src/process/buffer.rs:143-206 | the whole run is its specification: error classes, outcome and counters |
| `Buffer.WrittenIsEnvelope` | crates/core/src/process/buffer.rs:195-205 | what is to be put decompresses to the envelope of the kept records, and the counters that come back balance |
| `Rereads.EnvelopeIsObject` | crates/core/src/process/buffer.rs:195-203 | the text either mode writes is that of a JSON object with the one entry `Records`, an array of the elements kept |
| `Rereads.EnvelopeExamples` | crates/core/src/process/stream.rs:413-420 | written out, for no record, one and two |
| `Rereads.EnvelopeReadsBack` | crates/core/src/process/buffer.rs:341-357 | round trip: both readers find in that text exactly its elements, given only that the parser reads plainly written objects |
| `Rereads.FilteredReadsBack` | crates/core/src/process/buffer.rs:341-357 | of the records either mode finds in an object and keeps, the envelope is a text in which both modes find exactly these, and of which the same rules keep them all |
| `Rereads.LandedIsSettled` | crates/core/src/pipeline.rs:454-509 | whatever lands, through every mode, policy, fault and retry, is the object byte for byte or one that filtering again leaves as it is |
| `Parity.ExpectedMatches` | crates/core/src/process/stream.rs:347-375 | what a streaming call must come to equals the buffered result exactly on agreeable files |
| `Parity.ModesAgree` | crates/core/src/process/stream.rs:277-281 | under the cap, every fault-free schedule ends with the buffered verdict, published counters and payload, exactly when the file is agreeable; bad gzip and bad JSON are one class |
| `Effects.BufferSound` | crates/core/src/pipeline.rs:610-668 | buffer mode: failures publish and land nothing; bytes in are billed once, not for an attempt retried |
| `Effects.StreamSound` | crates/core/src/pipeline.rs:670-751 | the same for stream mode with its second read of the source |
| `Effects.RetryIsClean` | crates/core/src/pipeline.rs:474-497 | the attempt before a too-large retry leaves no trace |
| `Effects.ObjectSound` | crates/core/src/pipeline.rs:454-509 | through every mode, policy and retry: success counts the object once; failure publishes no record and lands nothing; bytes out are those landed; bytes in never exceed the source, and equal it for every object counted as processed without a streaming parse failure |
| `Effects.EnvelopesAreFiltered` | crates/core/src/error.rs:75-86 | no policy, fault or retry lands an envelope unfiltered: what lands decompresses to the envelope of its kept records |
| `Effects.ObjectDerives` | crates/core/src/pipeline.rs:454-509 | whatever an object's processing lands is the object byte for byte, or decompresses to the envelope of the kept ones of the records that a reader of either mode finds in it |
| `Effects.CopiesAreVerbatim` | crates/core/src/pipeline.rs:753-835 | what is copied unparsed or unrecognized is the source byte for byte |
| `Effects.CopySound` | crates/core/src/pipeline.rs:398-432 | a verbatim copy lands whole or not at all, and bills the bytes it read once |
| `Effects.StreamPreviewAgrees` | crates/core/src/pipeline.rs:554-607 | a fault-free preview call comes to what the live one came to, failed reads included, unless the read fails where a malformed source may or may not have told |
| `Effects.DryRunLandsNothing` | crates/core/src/pipeline.rs:511-552 | a dry run with rules lands nothing and bills no output |
| `Effects.DryRunAgrees` | crates/core/src/pipeline.rs:461-509 | whenever the live run of an object succeeds, so does its dry run, read failures and retries included, unless parse failures are copied and the read of a malformed source fails where it may or may not have told; and object, record, parse-error and rule-drop counters are the same if and only if the source did not vanish before a copy |
| `Effects.TornMayPart` | crates/core/src/pipeline.rs:554-557 | for every such source whose verbatim copy can succeed there are two fault-free schedules on which the live run copies and the dry run fails |
| `Effects.RawCopyIgnoresDryRun` | crates/core/src/pipeline.rs:434-452 | without a ruleset the copy is made in a dry run too |
| `Fates.BufferedFate` | crates/core/src/pipeline.rs:610-668 | an object in memory, every branch: unreadable, without records, all dropped, an encoder failing, previewed or put; when it lands, what lands, and what it fails with |
| `Fates.StreamedFate` | crates/core/src/pipeline.rs:670-751 | an object streamed, under any schedule and faults: it lands if and only if the store committed the upload, dead workers and failed uploads are failures of their own, and without a fault what was found decides |
| `Fates.ObjectIsFated` | crates/core/src/pipeline.rs:454-509 | the whole decision for one object in its own terms: mode, threshold, missing sources, the cap on bytes and on text, the retry, each policy, and of each whether it lands, is skipped or fails |
| `Fates.TooLargeIff` | crates/core/src/pipeline.rs:468-497 | refused as too large is exactly an object to be held in memory, not to be streamed instead, whose bytes or text exceed the cap; never one above the threshold in automatic mode |
| `Fates.FilteredLandsIff` | crates/core/src/pipeline.rs:634-667 | a buffered object with records kept lands exactly if the store takes it, as the envelope of the records kept, and the error is otherwise the store's |
| `Fates.RawIsFated` | crates/core/src/pipeline.rs:434-452 | without a ruleset the source is copied whole, skipped, or fails, dry run or not |
| `Objects.DropsAttributed` | crates/core/src/process/tally.rs:64-66 | every rule a tally names has a name |
| `Objects.StreamRun` | crates/core/src/process/stream.rs:569-600 | one streaming call against store and counters: bytes in always, destination, bytes out and records only on success |
| `Objects.ObjectStore.PutStream` | crates/core/src/ports.rs:29-36 | a failed read or upload changes no object; says how much was read |
| `Objects.Processor.OpenWithMissingPolicy` | crates/core/src/pipeline.rs:344-363 | a source missing at this opening, also one found before, is skipped and counted, or an error; other failures are errors |
| `Objects.Processor.FetchWithMissingPolicy` | crates/core/src/pipeline.rs:371-396 | reads one byte past the cap: too large, unreadable, or the whole source |
| `Objects.Processor.StreamCopy` | crates/core/src/pipeline.rs:400-432 | does exactly its effect on counters and destination |
| `Objects.Processor.RawCopy` | crates/core/src/pipeline.rs:437-452 | does exactly its effect, counting the object if it was there |
| `Objects.Processor.CopyUnparsable` | crates/core/src/pipeline.rs:765-809 | classifies, then copies from memory or by reading again; in a dry run only classifies |
| `Objects.Processor.ApplyUnrecognizedPolicy` | crates/core/src/pipeline.rs:813-835 | copy, skip or error, on bytes already fetched |
| `Objects.Processor.Complete` | crates/core/src/pipeline.rs:662-667 | publishing and counting come after everything that can fail |
| `Objects.Processor.ProcessBuffer` | crates/core/src/pipeline.rs:610-668 | does exactly the buffered effect, of which `Fates.BufferedFate` is the meaning |
| `Objects.Processor.ProcessStream` | crates/core/src/pipeline.rs:670-751 | does exactly the streamed effect |
| `Objects.Processor.ProcessDryRun` | crates/core/src/pipeline.rs:513-552 | does exactly the buffered effect of a dry run |
| `Objects.Processor.FoldBack` | crates/core/src/pipeline.rs:581-593 | everything but output bytes of the scratch counters is added, rule by rule |
| `Objects.Processor.ProcessDryRunStream` | crates/core/src/pipeline.rs:557-608 | does exactly the streamed effect of a dry run |
| `Objects.Processor.ProcessObject` | crates/core/src/pipeline.rs:454-509 | mode choice and retry do exactly the object's effect on result, counters and destination, of which `Fates.ObjectIsFated` is the meaning |
| `Batches.WorkIsInScope` | crates/core/src/pipeline.rs:173-246 | the work is every object in scope, in source order, bound to its item and destination |
| `Batches.WorkInOrder` | crates/core/src/pipeline.rs:173-246 | it lists each of them exactly once, item by item and in the order of each item's own list |
| `Batches.NoDestinationIsSource` | crates/core/src/pipeline.rs:216-221 | the guard looks at one object at a time, yet no entry's destination is any entry's source |
| `Batches.NoteUndecoded` | crates/core/src/pipeline.rs:174-193 | an undecoded item is flagged, or held as the lowest error |
| `Batches.Adjudicate` | crates/core/src/pipeline.rs:274-308 | each result keeps flags and held error exact: the lowest failing item that is not isolated, with its first failure |
| `Batches.FailureMeans` | crates/core/src/pipeline.rs:268-308 | an item fails exactly if its body did not decode or one of its objects failed |
| `Batches.CollectAcks` | crates/core/src/pipeline.rs:315-320 | the ids of flagged items in source order, one each |
| `Batches.AcksAreFailed` | crates/core/src/pipeline.rs:315-320 | an id is reported exactly if a flagged item bears it |
| `Batches.AnswerUnique` | crates/core/src/pipeline.rs:268-322 | the answer follows from the results alone |
| `Batches.NothingFailedIsAcknowledged` | crates/core/src/pipeline.rs:101-105 | an `Ok` names exactly the messages that failed; a failure that cannot be named fails the batch with the first failure of the lowest such item |
| `Batches.AnswerIs` | crates/core/src/pipeline.rs:174-193 | the answer from the results alone: an error if and only if some failing item bears no ack id or partial failures are off, and then the first failure of the lowest such item; otherwise the ack ids of exactly the failing items, in order |
| `Batches.DestinationIs` | crates/core/src/pipeline.rs:210-214 | the destination is in the configured bucket, and its key is the prefix followed by the source's key |
| `Batches.GuardIff` | crates/core/src/pipeline.rs:201-227 | the guard refuses exactly the objects that some object's destination would land on |
| `Pipelines.Pipeline.ClassifyItem` | crates/core/src/pipeline.rs:195-246 | filters, guards and binds one item's objects; refuses exactly on a self-trigger in scope |
| `Pipelines.Pipeline.Classify` | crates/core/src/pipeline.rs:170-246 | pass 1 refuses the batch exactly if any object in scope self-triggers, else yields all the work, touching no object |
| `Pipelines.ClassifiedCounts` | crates/core/src/pipeline.rs:173-246 | what classification counts, and nothing else: items that did not decode, those that name nothing, and of the others' objects each that is not worked on |
| `Pipelines.LandElsewhere` | crates/core/src/pipeline.rs:248-266 | places no entry writes to keep what they held |
| `Pipelines.Pipeline.SourceStays` | crates/core/src/pipeline.rs:170-172 | what earlier entries land never shows in a later one's source |
| `Pipelines.Pipeline.ProcessAll` | crates/core/src/pipeline.rs:248-322 | passes 2 and 3: each entry's effect, counters summed, objects landed in order, the batch's answer |
| `Pipelines.Pipeline.HandleInner` | crates/core/src/pipeline.rs:151-323 | the whole handler: refused without reading or writing an object, or every effect and the answer |
| `Pipelines.Pipeline.Handle` | crates/core/src/pipeline.rs:142-149 | exactly one snapshot, of everything counted, in which both identities hold; counters start again from zero |
| `Pipelines.Pipeline.EntriesCounted` | crates/core/src/pipeline.rs:268-309 | processed, skipped and failed add up to the work entries, bytes out to the bytes landed, and bytes in to no more than the sources hold |
| `EndToEnd.InvocationComesTo` | crates/core/src/pipeline.rs:151-323 | an undecodable payload, a missing ruleset that is required, and an object some output could land on each refuse the batch, in this order, and nothing is touched; otherwise every entry meets the decision for its object |
| `EndToEnd.InvocationCounts` | crates/core/src/pipeline.rs:268-309 | of an accepted batch: every entry is counted once, as failed exactly if its result is an error; bytes out are those landed; records in are those kept and dropped |
| `Schedules.StepCounts` | crates/core/src/pipeline.rs:248-266 | every step of any interleaving keeps each counter at the sum of what was done |
| `Schedules.NeverStuck` | crates/core/src/pipeline.rs:252-266 | a batch with room for one object can always go on |
| `Schedules.StepUses` | crates/core/src/pipeline.rs:252-266 | every step uses up work, so every run ends |
| `Schedules.SchedulesAgree` | crates/core/src/pipeline.rs:300-306 | two complete runs at any concurrencies and interleavings take the same results in order, end with equal counters, and leave the same at every place whose writers near enough to be in flight with its last one end as it does |
| `Schedules.OrderShowsIff` | crates/core/src/pipeline.rs:248-266 | at any concurrency, what a place ends with is independent of the schedule if and only if every writer that can be in flight with its last one ends with the same body |
| `Schedules.ScheduleAccrues` | crates/core/src/pipeline.rs:268-309 | the counters of any complete run move exactly as the handler's do one entry at a time, failures included, and the results taken are the handler's |
| `Schedules.AnyScheduleIsHandled` | crates/core/src/pipeline.rs:151-323 | any complete run of a batch, answered from the results it took, meets the whole handler's specification: answer, totals, and objects, when entries that can be in flight together land the same in one place |
| `Schedules.BatchOrderShowsIff` | crates/core/src/pipeline.rs:248-266 | for a batch that carries out given effects, all complete runs leave the objects the handler lands if and only if entries that can be in flight with the last one of a place land there what it lands |
| `Schedules.KeysApart` | crates/core/src/pipeline.rs:212-214 | entries that land in one place land the same, at every concurrency, when no key is in two source buckets |
| `Schedules.OrderMayShow` | crates/core/src/pipeline.rs:252-266 | with one key in two buckets the order shows exactly when more than one object may be in flight |
| `ConfigStores.TagsTellTimesApart` | crates/core/src/config/file_source.rs:32-48 | short of saturation, equal tags mean modification times equal to the nanosecond |
| `ConfigStores.TagIsNanoseconds` | crates/core/src/config/file_source.rs:32-48 | the tag is the modification time in nanoseconds, or the largest 64-bit number |
| `ConfigStores.FileConfigSource.Fetch` | crates/core/src/config/file_source.rs:57-65 | stat before read: the content is the tagged revision or a later one, writes in between included |
| `ConfigStores.ConfigStore.FetchAndStore` | crates/core/src/config/store.rs:123-136 | one stat and, if that succeeds, one read: stores the compile of what was read with the tag from before, or counts an error and leaves the cache as it was |
| `ConfigStores.ConfigStore.Prime` | crates/core/src/config/store.rs:68-74 | an unconditional load: exactly if stat, read and compile succeed is the value replaced and its clock started; a failure is counted and changes nothing |
| `ConfigStores.ConfigStore.Refresh` | crates/core/src/config/store.rs:98-121 | a version that cannot be read is an error counted; an unmoved one resets the clock with one stat and no read; a moved one, or an empty cache, loads, and a failed load leaves the value |
| `ConfigStores.ConfigStore.Get` | crates/core/src/config/store.rs:78-96 | a value fetched less than its lifetime ago, or at a time yet to come, is returned without looking at the file; otherwise the file is looked at, and without an error the answer is the compile of content current during the call, if no tag is used twice; never goes from a value to none |
| `ConfigCalls.RunKeeps` | crates/core/src/config/store.rs:78-149 | calls overlapping in any way, with writes to the file in between: the cached value is always the compile of a revision no older than the one its tag names, itself no older than the storing call |
| `ConfigCalls.AnswersAreFresh` | crates/core/src/config/store.rs:78-149 | then every answer is the compile of some revision, and of one current when the call began or later if its refresh succeeded, no tag was used twice, and it is answered with the entry that refresh came to or a later-begun call's |
| `ConfigRaces.FreshIff` | crates/core/src/config/store.rs:78-149 | exactly when such an answer can be out of date: at any point of any run with no tag used twice and current content that compiles, a call about to refresh can never come to be answered with content out of date when it began, if and only if no other call is then about to store content already out of date |
| `ConfigCalls.AnsweredOnceLoaded` | crates/core/src/config/store.rs:78-79 | once anything was loaded every later answer is a value, however calls overlap and whatever fails |
| `ConfigCalls.BeginGoes` | crates/core/src/config/store.rs:68-90 | where a call begins: a warm-up loads; a value fetched less than its lifetime ago, or at a time yet to come, is answered; every other call refreshes |
| `ConfigCalls.AloneRefreshes` | crates/core/src/config/store.rs:98-149 | a refreshing call that nothing overtakes: the same version resets the clock, another or an empty cache loads, and a failed compile is counted and leaves the value |
| `ConfigRaces.OvertakenMayBeStale` | crates/core/src/config/store.rs:130-149 | a concrete run: a lingering call's store over a newer one, and an answer out of date before its call began |
| `EndToEnd.SurvivesMeansPasses` | crates/core/src/filter/engine.rs:260-328 | for an engine none of whose index lists lacks a match: a record survives exactly if it does not parse or no rule of the ruleset holds of it |
| `EndToEnd.KeptArePassing` | crates/core/src/process/buffer.rs:167-188 | for such an engine, the records kept are those the rules let through, in order |
| `EndToEnd.StreamObeysRules` | crates/core/src/process/stream.rs:413-567 | for such an engine, under any schedule and faults, a changed destination is the envelope of the records the rules let through |
| `EndToEnd.BufferObeysRules` | crates/core/src/process/buffer.rs:143-206 | the same for what buffer mode puts |
| `EndToEnd.InvocationObeysRules` | crates/core/src/pipeline.rs:151-323 | for such an engine, of a whole invocation: every place it changed is the destination of a message's object and holds that object byte for byte, or the envelope of those of its records the rules let through; and with a ruleset loaded an envelope is never left whole |

## Left out

- Engines.Engine.IndexedIsExact: is stated one way for rulesets in general, because a rule's other conditions, or an earlier rule, may hide that a match is missing from a list; `Engines.Engine.OnePatternIff` and `OneRuleIff` have the converse where nothing can.
- Projection.VisitSeq: does not model the wildcard branch, documented as diverging; only that a wildcard forces the full parse is modelled.
- Effects.DryRunAgrees: excludes a read that fails inside the window in which a malformed source may or may not have told, where parse failures are copied; `Effects.TornMayPart` shows that agreement there depends on where it tells.
- ConfigStores.ConfigStore.Refresh: is the cache called one call at a time, as are `Get` and `Prime`; `ConfigCalls` and `ConfigRaces` have the overlapping calls.
- Rereads.EnvelopeReadsBack: takes the parser by its contract, `ReadsWriting`: it reads an object written without whitespace, of plain keys, literals, plain strings and arrays of texts it has read before, as what was written; JSON lexing is not modelled.
- The insertion loop of the trie is a recursion (`Projection.Node.Descend`), and the one loop that fills both index axes is run once for each (`RuleIndex.BuildAxis`).
- The drain threshold of 64 KiB: the streaming model drains any amount at any record, which includes it. Its extractor may emit a record before the chunks that hold it were read, which only adds behaviour. Where a malformed source tells, in bytes received, is a window of each call: the gzip and JSON readers that settle it are not modelled.
- Read failures of kind `Interrupted`, which byte readers retry and which a channel does not repeat.
- The marker object of `serde_json`'s `raw_value` feature, which the program enables (`crates/core/Cargo.toml:24`): a full parse may treat an object whose first key is `$serde_json::private::RawValue` specially, and no document of the model has that key.
- JSON lexing, number formatting and invalid UTF-8; nesting beyond the parser's recursion limit counts as undecodable.
- The capacity hint for decompression, which affects no result.
- A source replaced between two reads of one object: an object keeps one content while it is processed, though any opening of it may find it gone.
- A verbatim copy counts its bytes once, where the program counts them poll by poll; the totals are the same.
- What an object in flight does to shared state is a fixed list of additions and writes, interleaved in any way with the others'.
- Counters are unbounded, where the program's are 64-bit and wrap; `ConfigLoadErrors` is counted in the cache itself.
- Text beyond ASCII next to a `\<` or `\>`: the model asks of single bytes whether they are word characters, the regex engine of code points.
- DEFLATE, checksums and gzip framing, and regex matching beyond the fragment the index extracts.
- AWS adapters, HTTP, event decoders, YAML rules, settings and their bounds, metric line formats, logging, and the command line.
