# Verified model of the stateful algorithms in `clients/`

This Dafny project models the self-contained algorithms in the repository's `clients/` directory that
claim to agree with something simpler, and proves that they do: a builder that must agree with its edge
list, a bounded table that must behave like an unbounded one, a shared memo that must never make a
store worse off, a lexer that must invert a printer, publication protocols that must never tear, and
accumulators that must equal a replay of their log. `dafny verify dfyconfig.toml` checks everything.

Conventions. A loop or a method that updates state in the program is a method here, proved equal to a
specification function of its inputs or of the old state; the promised properties are then lemmas about
that function, over all inputs, all traces or all runs. Where a promise of the repository turned out
not to hold, the code is modelled as it is, a lemma gives the input on which the promise fails, and
another states exactly when it holds.

Assumptions. A JavaScript `Map` is a sequence of entries in insertion order. JSON is the identity and
numbers are exact. File systems are maps; a rename is one step. Clocks, liveness of processes, path
normalisation, `Date.parse`, the collation behind `localeCompare`, and the tables of mutating tools and
builtin names are parameters, arbitrary unless a lemma says otherwise (collations are total preorders).
Cryptographic hashes are injective.

Modules:

- `JsMap`, `Sorting`, `Numbers`, `Text`: JavaScript collections, stable sort, character classes and
  numerals.
- `SymbolId`, `CallGraphTypes`, `CallGraphIndex`, `CallGraphBuild`, `CallGraphIndexes`,
  `CallGraphEvidence`, `CallGraphLedger`, `CallGraphPersist`, `CallGraphRoundTrip`, `CallGraphMixing`,
  `CallGraphImpact`: the function call graph, its builder, evidence ledger, persistence and impact
  search; `CallGraphPairs`, `CallGraphSnapshots`: its edges read off the references, and what an
  accepted snapshot promises. `ReviewGraphExtract`, `CallGraphAdapter`: the symbols and references a
  session extracts from its review graph; `CallGraphSession`: the graph it builds from them;
  `CallGraphSources`, `CallGraphCompleteness`: that graph read off the review graph itself.
- `BoundedCache`, `BoundedCacheTraces`, `BoundedTelemetry`: bounded collections and the admission table.
- `FreshnessGate`, `FreshnessFates`: the memoised freshness gate over several stores, and the fate of
  each finding.
- `ShellLexer`, `ShellQuoting`, `ShellPrinting`, `ShellDelimiters`, `ShellHeredocs`,
  `ShellSubstitutions`: the shell lexer with here-documents and the printers it inverts.
- `StagingNames`, `AtomicWrite`, `StagingSweep`: publication; `QuarantineLock`, `QuarantineExclusion`,
  `QuarantineRelease`, `QuarantineFailures`: the directory lock.
- `WarningRecords`, `WarningReports`, `WarningDrops`: two publishers merging into one report.
- `RangeMerge`, `RangeMergeLaws`, `RangeMergeOrder`, `TurnState`, `TurnAccess`: modified ranges, the
  persisted worklist and who may touch it.
- `MissAttribution`, `MissAttributionTraces`, `MissCauses`, `MissMemory`: cache-miss attribution per
  session: causes, reasons, counters, and what is remembered of each session.
- `AgentBehavior`, `AgentNudge`: run detection and touched-file accumulation.

Promises that fail, each with its exact condition:

- A call graph built without supplied counters is not always accepted back: exactly if its references
  conserve evidence (`BuiltAcceptedIff`). The first reference that makes a pair both the target of a
  canonical id and of an ambiguous name upsets that (`FirstMixedPairIsRefused`); several can cancel out
  (`CancellingMixIsAccepted`). The references a session extracts are tagged and never ambiguous, so its
  own graphs keep their ledger balanced (`TaggedBalanced`).
- A symbol name with a colon fails the identity check (`ColonNameIsRefused`) unless the file absorbs it
  (`CalleeNamedIff`); a session's graph is accepted exactly if no end of its edges fails it
  (`SessionAcceptedIff`).
- The directory lock can have two holders (`SlowCreatorOverwrites`, `EarlyLookStrandsLock`): exactly once
  a lock was renamed aside as stale while some call was active (`ExclusionIff`).
- A late owner can delete its replacement (`LateOwnerDeletesReplacement`): exactly if it wrote its owner
  file into a directory it had not made (`LateReleaseDeletesIff`). A creator that fails to write can too
  (`FailedCreatorDeletesReplacement`). Neither happens while no active call's lock is renamed aside
  (`NoReplacementDeleted`).
- Quoted empty arguments are lost by the lexer (`VerbatimRoundTripIff`), and a delimiter ending in a
  carriage return does not close its own document (`ReturnDelimiterNeverCloses`,
  `DelimiterClosesItself`).
- Tear-free publication needs targets that are not named like staging files (`StagingNameCanBeLost`,
  `StagingTargetLeaks`).
- An in-band report loses warnings of an entry shadowed by another spelling of its path
  (`OwnPresentIff`, `TwoSpellingsLoseWarning`).
- Re-arming a path that was never touched does not nudge (`RearmNeedsTouch`).

Merged ranges can depend on the input order only if some range ends before the line in front of its
start (`OrderFreeIff`). The program's callers, which are not part of this model, pass ranges with start
at most end, and for those the merge is determined by the lines (`MergeIsDetermined`).

## Model

| member | source | states |
|---|---|---|
| `SymbolId.MintedParsesBack` | clients/review-graph/symbol-id.ts:55-121 | an id minted by buildSymbolId parses back to file, name, kind and line under every file hint if and only if the file is one line and not the module-level form, and the name has no colon |
| `SymbolId.CanonicalNameHasNoColon` | clients/review-graph/symbol-id.ts:91-107 | the canonical form never yields a name with a colon |
| `SymbolId.SeparatorFields` | clients/review-graph/symbol-id.ts:91-107 | a name with colons parses into the text after its last colon, and everything before it moves into the file |
| `CallGraphIndex.BuildDefIndex` | clients/call-graph.ts:385-409 | the loop over canonical symbols builds exactly the id and name tables of the specification |
| `CallGraphIndex.ByIdIsLastCarrier` | clients/call-graph.ts:385-409 | the id table maps every indexed id to the last symbol carrying it, and no other id |
| `CallGraphIndex.ByNameIsCarriers` | clients/call-graph.ts:385-409 | the name table lists exactly the ids whose symbols carry the name, without repetition |
| `CallGraphIndex.FindEnclosingSymbol` | clients/call-graph.ts:411-434 | the scan returns the enclosing symbol the specification names |
| `CallGraphIndex.EnclosingIsInnermost` | clients/call-graph.ts:411-434 | the chosen symbol encloses the line and starts no earlier than any other that does; the first one wins a tie; none is chosen only if none encloses |
| `CallGraphBuild.BuildCallGraph` | clients/call-graph.ts:436-653 | the nested-loop builder with its edge list, two adjacency maps, in-degree map and counters computes the fold over all references that defines the graph |
| `CallGraphBuild.RecordRef` | clients/call-graph.ts:502-640 | one raw reference updates edges, the three maps and the coverage exactly as the one-reference specification says |
| `CallGraphBuild.RecordCandidates` | clients/call-graph.ts:576-640 | the candidate loop folds duplicates into existing edges, creates the others, and counts the reference once |
| `CallGraphIndexes.BuiltIndexesAgree` | clients/call-graph.ts:475-653 | for every input and both coverage modes: edges have distinct caller/callee pairs, none is same-file, callees and callers are exactly the two projections of the edges, and inDegree is the exact sum of incoming weights |
| `CallGraphIndexes.EdgeTableExact` | clients/call-graph.ts:583-640 | the accumulated table holds, for every pair, exactly the entry that the references reaching that pair define |
| `CallGraphIndexes.EntryIsEvidence` | clients/call-graph.ts:583-640 | an edge exists exactly for the pairs some reference reaches; its evidence count is the number of references that reach it, its weight and resolution are those of the first, its kind their common tag or mixed |
| `CallGraphPairs.ReachesIff` | clients/call-graph.ts:502-596 | for every reference and pair, read off the reference and the symbols alone: it is evidence for the pair exactly if it may be a call, its target id is settled and known or its bare name has a definition in another file (only one, if the reference is tagged), and the caller key is the symbol it names if that exists, else the closest function around its line, else its file |
| `CallGraphPairs.BuiltEdgeIff` | clients/call-graph.ts:436-653 | in both coverage modes a built graph has an edge for a pair exactly if some reference is evidence for it in that sense, and the edge counts those references |
| `CallGraphPairs.BuiltEdgeSays` | clients/call-graph.ts:596-633 | place, kind and name of both ends and the resolution are those of the first such reference, and the tag is their common one or mixed |
| `CallGraphPairs.CandidatesShareOne` | clients/call-graph.ts:612-612 | a tagged reference weighs one, and an untagged one shares a weight of one among its candidates |
| `CallGraphPairs.TargetedBucket` | clients/call-graph.ts:516-540 | a call with a target id counts as resolved, same-file or unresolved exactly as the id is known in another file, known in its own, or not known or not settled |
| `CallGraphPairs.NamedBucket` | clients/call-graph.ts:541-596 | a call by bare name counts as resolved if another file defines it, unless it is tagged and two do; as unresolved if nothing defines it or in that case; as unsupported if it is a builtin, empty or only defined in its own file |
| `CallGraphPairs.LastSpellingWins` | clients/call-graph.ts:443-450 | the symbols of a file are those supplied last under any spelling of it |
| `CallGraphTypes.OutgoingIsProjection` | clients/call-graph.ts:618-640 | with distinct pairs, the callees entry of a key lists exactly the callees of its edges, in edge order |
| `CallGraphTypes.InDegreesIsSum` | clients/call-graph.ts:630-640 | the in-degree entry of a key is the sum of the weights of the edges into it, absent exactly if there are none |
| `CallGraphEvidence.EvidencePartition` | clients/call-graph.ts:480-494 | without adapter coverage, resolved, unresolved, type-only, unsupported and same-file evidence sum to totalEvidence, calls plus references do too, and eligible equals resolved |
| `CallGraphEvidence.RunCountsBuckets` | clients/call-graph.ts:502-595 | each counter is the number of references in its bucket |
| `CallGraphEvidence.BucketsPartition` | clients/call-graph.ts:502-595 | every reference lands in exactly one of the five buckets |
| `CallGraphEvidence.StepBalanced` | clients/call-graph.ts:583-649 | from a balanced unmixed state, one more reference keeps the weighted ledger balanced if and only if it does not mix with an earlier reference on a pair |
| `CallGraphEvidence.BalancedThroughoutIffUnmixed` | clients/call-graph.ts:583-649 | the weighted edge evidence equals the raw resolved and duplicate counts after every prefix of the references if and only if no caller/callee pair is reached both ambiguously and unambiguously; the validator only sees the last prefix |
| `CallGraphEvidence.MixedGain` | clients/call-graph.ts:583-649 | the first reference to mix is credited at least half a record too much if it is ambiguous and at least half a record too little if it is not |
| `CallGraphLedger.EdgesInOrderOfReach` | clients/call-graph.ts:597-633 | the edges stand in the order in which the references first reach their pairs |
| `CallGraphLedger.LedgerIsPairSums` | clients/call-graph.ts:600-633 | the weighted evidence of the edges is the sum, over the pairs the references reach, of the number of references reaching the pair times the weight of the first; the weighted duplicates are the same without the first reference of each pair |
| `CallGraphLedger.DuplicatesAreReturns` | clients/call-graph.ts:599-651 | the raw duplicate counter is the number of references some pair of which an earlier reference reached |
| `CallGraphPersist.ValidatePersistedCallGraph` | clients/call-graph.ts:798-1070 | the validator returns true exactly on snapshots satisfying the declarative acceptance predicate: header, edges, all three maps and the weighted ledger agree |
| `CallGraphPersist.RecomputeFromEdges` | clients/call-graph.ts:895-976 | recomputes every redundant part from the edges, or stops exactly when an edge is malformed or a pair repeats |
| `CallGraphPersist.LoadCallGraph` | clients/call-graph.ts:1076-1125 | returns a graph exactly for a present, expected and accepted snapshot, and then all of it |
| `CallGraphPersist.AcceptedMapsAreEdges` | clients/call-graph.ts:798-1070 | whatever was on disk, an accepted graph relates exactly the pairs of its edges in both directions and its in-degrees are the exact weight sums |
| `CallGraphSnapshots.AcceptedIsConsistent` | clients/call-graph.ts:798-1070 | an accepted snapshot has this version and an identity, counters that sum and agree with the stored totals, no complete claim beside unsupported evidence or an incomplete language, no repeated pair, edges with weight at most one whose keys name their files, and positive degrees at most the number of callers |
| `CallGraphSnapshots.LegacyCoverageIs` | clients/call-graph.ts:734-774 | a snapshot without coverage is counted by its edges: all evidence resolved, the three weighted sums rounded to the nearest whole number, never complete |
| `CallGraphPersist.CalleeNamedIff` | clients/call-graph.ts:936-957 | for every file, name and line: a minted callee key passes the identity check if and only if the file is one line and the name has no colon, or ends in its last one and the file normalizes like the file with the rest of the name appended; a module-level file is judged by what follows its prefix |
| `CallGraphPersist.ColonNameIsRefused` | clients/call-graph.ts:936-957 | a concrete key that fails under every normalizer: the name a::b |
| `CallGraphRoundTrip.MintedIsCanonical` | clients/review-graph/symbol-id.ts:55-121 | ids minted from mintable parts are canonical, which is what well-formed input asks for |
| `CallGraphRoundTrip.BuiltAcceptedIfLedgerOk` | clients/call-graph.ts:798-1070 | a graph built from well-formed input passes every part of the validator except, possibly, the weighted ledger |
| `CallGraphRoundTrip.BuiltAcceptedIff` | clients/call-graph.ts:977-991 | a graph built from well-formed input is accepted by the validator if and only if, within its tolerance, the two sums over the reached pairs match the number of resolved references and of those that return to a pair |
| `CallGraphRoundTrip.UnmixedConserves` | clients/call-graph.ts:583-649 | without a mixed pair both sums are exact |
| `CallGraphRoundTrip.BuiltGraphSurvivesReload` | clients/call-graph.ts:698-1125 | for well-formed input the saved graph is accepted exactly if evidence is conserved, and rehydrating it gives the built graph: edges, maps and coverage |
| `CallGraphRoundTrip.BuildSaveLoad` | clients/call-graph.ts:436-1125 | build, save and load run in sequence return the built graph if evidence is conserved and nothing otherwise |
| `CallGraphMixing.FirstMixingMargin` | clients/call-graph.ts:583-649 | after any unmixed references and in either order, the first reference that mixes leaves the weighted sum at least half a record away from the raw count, above it if ambiguous and below it if not |
| `CallGraphMixing.FirstMixedPairIsRefused` | clients/call-graph.ts:977-991 | so the validator refuses the builder's own snapshot, for fewer than 500 million references; from there on its relative tolerance of 1e-9 hides half a record |
| `CallGraphMixing.MixedExampleIsRefused` | clients/call-graph.ts:977-991 | a concrete well-formed input of that kind and its refusal |
| `CallGraphMixing.CancellingMixIsAccepted` | clients/call-graph.ts:977-991 | a concrete well-formed input with mixed pairs whose excess and deficit cancel, so that its graph is accepted |
| `ReviewGraphExtract.ExtractSymbolsAndRefsFromGraph` | clients/review-graph/builder.ts:6077-6264 | the three loops compute exactly the specified symbol table, reference table, counters, completeness and language states |
| `ReviewGraphExtract.CompleteIff` | clients/review-graph/builder.ts:6228-6262 | a scan counts as complete exactly if the persisted snapshot was whole, there is a file node, and the extraction of every file node was complete |
| `CallGraphAdapter.SuppliedRun` | clients/call-graph.ts:475-498 | with supplied counters the builder makes the same edges, moves same-file targets out of the resolved evidence and adds the references that return |
| `CallGraphAdapter.BucketsAgree` | clients/review-graph/builder.ts:6215-6226 | for every edge that names a target the builder puts the extracted reference into the bucket the extraction counted it in, but for same-file targets |
| `CallGraphAdapter.ExtractionIsFaithful` | clients/review-graph/builder.ts:6150-6227 | for every edge list whose calls and references name a target, the extraction's counters count its references by the builder's own classification |
| `CallGraphSession.TaggedBalanced` | clients/call-graph.ts:600-649 | tagged references are never ambiguous, so the weighted edges account for the raw records exactly after any of them |
| `CallGraphSession.SessionAcceptedIffEdgesOk` | clients/runtime-session.ts:1722-1732 | the session's graph, built from the extraction with its counters, is accepted by the validator if and only if the keys of its edges can be read back, and rehydrates to itself |
| `CallGraphSession.SessionAcceptedIff` | clients/runtime-session.ts:1722-1732 | for ids from buildSymbolId: if and only if both ends of every edge have a file and a name that are not blank, the file is one line, and a colon in the name is absorbed by the file |
| `CallGraphSession.SessionGraphSurvivesReload` | clients/runtime-session.ts:1722-1732 | in particular the graph of every review graph with canonical ids is accepted |
| `CallGraphSources.SessionEdgeIff` | clients/review-graph/builder.ts:6150-6227 | read off the review graph alone: the session's graph has an edge from a to b exactly if some record is a call or a reference tagged as one, to a settled symbol b of another file, and a is the symbol it comes from whatever its kind, else the innermost function or method around its line, else its file; the edge counts those records, says whether they were calls, references or both, and describes both ends as their nodes do |
| `CallGraphSources.SymbolCallIsEdge` | clients/call-graph.ts:575-579 | in particular a call between two symbols of different files is an edge between those two ids |
| `CallGraphSources.EnclosingIsInnermostNode` | clients/call-graph.ts:411-426 | the enclosing symbol found is that of the function or method node of the file that surrounds the line and starts last, the first such node on a tie; none is found only if none surrounds it |
| `CallGraphCompleteness.SessionCompleteIff` | clients/call-graph.ts:660-670 | the session's graph claims to be complete exactly if the snapshot was whole, there are file nodes and each was fully extracted, every record comes from a file and is a call or a type reference, and there is a symbol or a record at all |
| `CallGraphCompleteness.LanguageIsWorst` | clients/review-graph/builder.ts:6233-6256 | a language is listed exactly if some file node has it, as unavailable if one of them is, else partial if one is, else complete |
| `CallGraphSession.BuildSessionGraph` | clients/runtime-session.ts:1722-1732 | extract, build, save and load run in sequence return the built graph if its keys can be read back and nothing otherwise |
| `CallGraphImpact.WeightLookup` | clients/call-graph.ts:146-160 | the lookup built from the edge list holds the best weight of each pair |
| `CallGraphImpact.BestWeightIsMaximum` | clients/call-graph.ts:146-160 | that weight is attained, bounds every edge of the pair, and is absent exactly if there is none |
| `CallGraphImpact.Impact` | clients/call-graph.ts:146-196 | the breadth-first search terminates and returns each affected symbol other than the start once, with depth the length of a shortest caller path over heavy enough edges, precisely those within maxDepth, sorted by depth and then key |
| `CallGraphImpact.AffectedIsMonotone` | clients/call-graph.ts:146-196 | raising maxDepth or lowering minWeight loses no symbol |
| `BoundedCache.BoundedFifoMap.Set` | clients/bounded-cache.ts:45-48 | the entries and the evicted entries, oldest first, after an insert or rewrite |
| `BoundedCache.BoundedFifoMap.EvictOverflow` | clients/bounded-cache.ts:68-77 | the loop drops exactly the oldest overflow and returns it |
| `BoundedCache.BoundedFifoMap.SetMaxEntries` | clients/bounded-cache.ts:57-61 | shrinking evicts exactly the oldest overflow |
| `BoundedCache.BoundedLruCache.Get` | clients/bounded-cache.ts:192-199 | a hit moves the key to the newest position; a miss or a stored undefined changes nothing |
| `BoundedCache.BoundedLruCache.Set` | clients/bounded-cache.ts:202-205 | a write moves the key to the newest position and evicts from the other end |
| `BoundedCache.BoundedSet.Add` | clients/bounded-cache.ts:143-146 | evicted members followed by the kept ones are the old members with the value appended if it was new |
| `BoundedCacheTraces.LruInclusion` | clients/bounded-cache.ts:68-77 | same trace of get, set, delete and clear on capacities n and m with n at most m: the small cache's entries are those of the large one restricted to its keys, same order and values, and at most m-n keys are in the large one only |
| `BoundedCacheTraces.LargerCacheKeepsHits` | clients/bounded-cache.ts:192-205 | a hit in the small cache is a hit with the same value in the large one |
| `BoundedCacheTraces.LruHoldsLastUsed` | clients/bounded-cache.ts:192-205 | without deletes an LRU holds exactly the last maxEntries keys by latest set or hit |
| `BoundedCacheTraces.ByLastUseMeaning` | clients/bounded-cache.ts:192-205 | the meaning of that order: the used keys once each, in order of last use, each with the value of that use |
| `BoundedCacheTraces.FifoInBirthOrder` | clients/bounded-cache.ts:45-48 | a FIFO map lists keys in order of insertion since absence, whatever reads and rewrites occur |
| `BoundedCacheTraces.FifoEvictsOldest` | clients/bounded-cache.ts:68-77 | every evicted key is older, in that sense, than every key kept |
| `BoundedCacheTraces.FifoConserves` | clients/bounded-cache.ts:45-77 | evicted, deleted and cleared keys together with the residents account for every inserted key, capacity changes included |
| `BoundedCacheTraces.LruConserves` | clients/bounded-cache.ts:192-205 | the same conservation for the LRU |
| `BoundedTelemetry.Telemetry.AdmitAgainstTurnCap` | clients/bounded-telemetry.ts:334-369 | one call's verdict and new module state |
| `BoundedTelemetry.Telemetry.OldestTracked` | clients/bounded-telemetry.ts:345-356 | the scan finds the least tracked turn |
| `BoundedTelemetry.AdmissionIsUnboundedInWindow` | clients/bounded-telemetry.ts:257-375 | between resets a call is admitted exactly when an unbounded per-(turn, phase) counter would admit it and the turn is among the 64 largest offered so far |
| `BoundedTelemetry.BudgetNeverReopens` | clients/bounded-telemetry.ts:334-369 | no turn and phase is ever granted more than its largest limit, so eviction cannot reopen an exhausted budget |
| `BoundedTelemetry.RunRefines` | clients/bounded-telemetry.ts:334-375 | the module state after any trace holds the top of the offered turns with their unbounded counts |
| `FreshnessGate.PartitionOneSource` | clients/advisory-provenance.ts:525-619 | one source over the shared memo: lists, paths, counts and memo are those of the pass specification, starvation is recorded per store |
| `FreshnessGate.GateFindingsByPathFreshness` | clients/advisory-provenance.ts:693-751 | the loop over stores in sorted order delivers to each store its own pass over the memo left by the earlier ones, and merges the record |
| `FreshnessGate.SharingNeverHurts` | clients/advisory-provenance.ts:495-619 | each store against its stand-alone run: its live list is a subsequence, what was demoted or dropped still is, verdicts judged alone are equal, strings failing open are among those that do alone, it probes no more, and nothing differs if the stand-alone run was not truncated |
| `FreshnessGate.SharedProbesAtMostAlone` | clients/advisory-provenance.ts:495-619 | the delivery probes no more paths than the stand-alone runs together |
| `FreshnessGate.GateIgnoresOtherPolicies` | clients/advisory-provenance.ts:525-619 | what a store gets does not depend on any other store's scannedAt or onMissing |
| `FreshnessGate.GateIgnoresSpelling` | clients/advisory-provenance.ts:700-706 | nor on the order in which the caller lists the stores |
| `FreshnessGate.ProbesGrowMemo` | clients/advisory-provenance.ts:560-575 | every probe adds one memo entry and a source never exceeds its allowance |
| `FreshnessFates.PartitionIsByFate` | clients/advisory-provenance.ts:525-620 | for every memo of true facts, from the probe, the scan time and the deletion policy alone: the three lists are the in-order sub-lists of the findings that name a known path missing under the drop policy (dropped), known paths missing under the demote policy or modified more than 50 ms after the scan (stale), and all others (live); the dead and stale paths are the known paths of those fates, once each in first-named order; known are the memo's paths and the first new ones the allowance pays for |
| `FreshnessFates.FailedOpenIff` | clients/advisory-provenance.ts:570-585 | the citations that fail open are exactly those of unknown paths, and the pass reads truncated exactly if there are any |
| `FreshnessFates.NothingLost` | clients/advisory-provenance.ts:611-613 | every finding is in exactly one of the three lists, as often as in the input |
| `FreshnessFates.GateIsByFate` | clients/advisory-provenance.ts:720-725 | in a shared delivery each store is sorted by the same rule over what the stores before it probed |
| `FreshnessFates.OrderIsAscending` | clients/advisory-provenance.ts:705-707 | the stores are served in ascending character order of their names, each once |
| `FreshnessFates.MergedJoins` | clients/advisory-provenance.ts:731-742 | the delivery record joins the lists of the stores in order and names every dead and stale path once |
| `ShellLexer.TokenizeShellCommand` | clients/bash-file-access.ts:180-304 | the index-walking lexer returns the segments of the suffix specification and terminates, its recursion on substitutions being on strictly shorter commands |
| `ShellLexer.ParseHeredocDelimiter` | clients/bash-file-access.ts:65-100 | the delimiter scanner agrees with the specification of quoted, escaped and plain pieces |
| `ShellLexer.ConsumeHeredocBodies` | clients/bash-file-access.ts:143-178 | the nested loops consume exactly the pending bodies and collect their substitutions |
| `ShellLexer.HeredocSubstitutionBodies` | clients/bash-file-access.ts:102-141 | the substitution scanner agrees with its specification; every body is shorter than the text |
| `ShellQuoting.QuotingRoundTrip` | clients/bash-file-access.ts:180-304 | for any commands with at least one argument each, single-quoted and joined by ; && or-lists or pipes: one segment per command with its non-empty arguments, unsupported and piped exactly where a single pipe follows |
| `ShellQuoting.VerbatimRoundTripIff` | clients/bash-file-access.ts:194-198 | one segment per command with exactly its arguments comes back if and only if no argument is empty |
| `ShellQuoting.EmptyArgumentIsLost` | clients/bash-file-access.ts:194-198 | the smallest loss |
| `ShellPrinting.PrintingRoundTrip` | clients/bash-file-access.ts:180-304 | for every program of commands joined by any separator: each command comes back as one segment with the values of its words, whatever mixture of single quotes, double quotes, escapes, native backslashes, plain text and line continuations each is written in, with any blanks and comments; it is marked exactly if it has a redirection, is piped or is put in the background |
| `ShellPrinting.StylesRoundTrip` | clients/bash-file-access.ts:205-256 | the arguments of a command come back whichever of single quotes, double quotes and backslashes each is written in |
| `ShellPrinting.CommentIs` | clients/bash-file-access.ts:252-255 | a comment at the start of a word contributes nothing in any lexer state, up to the end of its line |
| `ShellPrinting.RedirectionIs` | clients/bash-file-access.ts:281-297 | a redirection other than a here-document ends the word and marks its segment as unsupported, in any lexer state |
| `ShellPrinting.UnclosedIsMarked` | clients/bash-file-access.ts:301-303 | a quotation that is never closed takes the rest of the command as text and marks the segment |
| `ShellDelimiters.DelimiterRoundTrip` | clients/bash-file-access.ts:65-100 | a delimiter written in any mixture of quotes, escapes and plain characters is read as its value, strips tabs exactly after a dash, and counts as quoted exactly if any part of it is |
| `ShellDelimiters.NoDelimiter` | clients/bash-file-access.ts:84-98 | an unclosed quotation or a word that stands for nothing is no delimiter |
| `ShellSubstitutions.DollarFoundIff` | clients/bash-file-access.ts:102-131 | a dollar parenthesis is a substitution exactly if some parenthesis behind it closes it |
| `ShellSubstitutions.SingleQuotesHide` | clients/bash-file-access.ts:110-113 | parentheses inside single quotes neither open nor close |
| `ShellSubstitutions.DoubleQuotesHide` | clients/bash-file-access.ts:114-117 | nor do those inside double quotes, where a backslash guards a quote |
| `ShellSubstitutions.BackticksFound` | clients/bash-file-access.ts:132-138 | a pair of backticks is a substitution unless the first is escaped; one alone is none |
| `ShellHeredocs.QuotedHeredocIsInert` | clients/bash-file-access.ts:260-296 | a command, a quoted here-document whose body lines do not close it, a closing line and more text: the segments are the command's followed by those of the rest, whatever the body holds |
| `ShellHeredocs.PlainHeredocRunsSubstitutions` | clients/bash-file-access.ts:143-178 | with a plain delimiter exactly the substitutions of the body are lexed in between |
| `ShellHeredocs.HeredocDelivers` | clients/bash-file-access.ts:260-296 | the general statement for any lexer state and any parsed delimiter |
| `ShellHeredocs.UnclosedHeredocSwallowsRest` | clients/bash-file-access.ts:165-176 | for any lexer state and any parsed delimiter, a document that is never closed consumes the rest of the command; only the substitutions of an unquoted body are left |
| `ShellHeredocs.UnclosedQuotedHeredoc` | clients/bash-file-access.ts:165-176 | with a quoted delimiter only the command in front is left |
| `ShellHeredocs.DelimiterClosesItself` | clients/bash-file-access.ts:150-164 | the delimiter alone on a line closes the document if and only if it does not end in a carriage return and, for the tab-stripping form, does not start with a tab |
| `ShellHeredocs.ReturnDelimiterNeverCloses` | clients/bash-file-access.ts:150-164 | a concrete delimiter that does not |
| `ShellHeredocs.ReturnTolerated` | clients/bash-file-access.ts:150-164 | a closing line may carry one carriage return |
| `ShellHeredocs.NothingToSubstitute` | clients/bash-file-access.ts:102-141 | a body without dollar sign and backtick runs nothing |
| `ShellHeredocs.SubstitutionFoundIff` | clients/bash-file-access.ts:102-141 | a parenthesised substitution is found, whole, if and only if its text closes no more than it opened and ends outside of quotes; the scan then resumes behind it |
| `ShellHeredocs.NestedEncloses` | clients/bash-file-access.ts:109-128 | a substitution inside another one does not end it, to any depth |
| `ShellHeredocs.SimpleEncloses` | clients/bash-file-access.ts:109-128 | a text without quotes, dollar signs and closing parentheses is found whole |
| `StagingNames.StagePathInjective` | clients/atomic-write-staging.ts:14-16 | two staging paths are equal only for the same target, pid, thread and sequence number |
| `StagingNames.OwnerReadsBack` | clients/atomic-write-staging.ts:18-24 | the owner of a staging path is the pid it was minted with for every target string; pid 0 and unsafe integers are refused |
| `StagingNames.OwnerIff` | clients/atomic-write-staging.ts:9-24 | the decoder answers a pid exactly when the pattern matches with that first number and it is a positive safe integer |
| `StagingNames.MarkerIsTheMatch` | clients/atomic-write-staging.ts:9-24 | a name matches the pattern in at most one way, and splitting at the last three hyphens finds it |
| `StagingNames.MatchIsMinted` | clients/atomic-write-staging.ts:9-24 | every name the pattern matches is one that some call mints |
| `AtomicWrite.TearFree` | clients/atomic-write.ts:166-216 | for every interleaving of write calls, partial writes, failures, clean-ups, crashes and sweeps, a file not named like a staging file holds its initial content or the complete data of one call to it |
| `AtomicWrite.ChangeIsPublication` | clients/atomic-write.ts:166-216 | the only step that changes such a file is the rename of a call to it, which installs that call's complete data |
| `AtomicWrite.ForeignTouchIff` | clients/atomic-write.ts:9-21 | a step that is not the call's own touches its staging file if and only if it renames another call's file onto that very name |
| `AtomicWrite.StagingNameCanBeLost` | clients/atomic-write-staging.ts:55-76 | the naming condition is exact: every file whose name decodes to an owner can be swept away |
| `AtomicWrite.StagingTargetLeaks` | clients/atomic-write.ts:166-191 | for every target named like a staging file there is a run in which a write to it makes another call publish foreign data |
| `AtomicWrite.Writer.WriteFileAtomic` | clients/atomic-write.ts:166-191 | one call's effect on the files under every failure of write, rename and clean-up, and whether it throws |
| `AtomicWrite.CallIsRun` | clients/atomic-write.ts:166-216 | an uninterrupted call is a run of the step system with that effect |
| `StagingSweep.Disk.SweepOwnStagingFiles` | clients/atomic-write-staging.ts:34-86 | the bounded sweep removes exactly the reapable paths and returns exactly the tallies |
| `StagingSweep.SweepSparesTheLiving` | clients/atomic-write-staging.ts:55-76 | every removed path is a listed file whose name decodes to a dead process other than the sweeper |
| `StagingSweep.SweepAccounts` | clients/atomic-write-staging.ts:55-76 | every scanned entry is ignored, spared, removed or stuck, once |
| `StagingSweep.SweepReapsOrphans` | clients/atomic-write-staging.ts:34-86 | every removable file among the first entries of a directory whose name belongs to a dead foreign process is removed |
| `StagingSweep.CutShortIff` | clients/atomic-write-staging.ts:57-80 | the result reads truncated exactly if some directory holds at least as many entries as are looked at |
| `StagingSweep.SweepsEachOnce` | clients/atomic-write-staging.ts:38-38 | each named directory is swept once and the empty name is none |
| `WarningRecords.MergeWarnings` | clients/actionable-warnings.ts:552-583 | the loop with its id map and seen-action set computes the specified union |
| `WarningRecords.MergeKeepsIds` | clients/actionable-warnings.ts:552-583 | the union has exactly the ids of its inputs |
| `WarningRecords.MergeIsSortedSet` | clients/actionable-warnings.ts:552-583 | each id comes back once, in path and line order |
| `WarningRecords.GatherUnitesActions` | clients/actionable-warnings.ts:566-575 | the record of an id offers exactly the actions some record with that id offered |
| `WarningRecords.MergeIdempotent` | clients/actionable-warnings.ts:552-583 | merging again changes nothing |
| `WarningRecords.GatherUnites` | clients/actionable-warnings.ts:552-583 | the record of an id takes place and text from the first record with it, the common origin or merged, the first suggestion and fix kind given, and offers a fix if any of them does |
| `WarningRecords.MergeIsInPlaceOrder` | clients/actionable-warnings.ts:578-582 | the merged records stand by path, then by line, an unknown line first |
| `WarningReports.MergeActionableWarningsReports` | clients/actionable-warnings.ts:1502-1701 | the two loops compute the specified report, counts, dropped labels and session flag |
| `WarningReports.Channel.PublishReport` | clients/actionable-warnings.ts:1713-1742 | read, merge and write as one step on the persisted report |
| `WarningReports.OlderAccountedFor` | clients/actionable-warnings.ts:1566-1645 | every older entry is merged, dropped or scope-guarded exactly once |
| `WarningReports.NewerHalfIsKept` | clients/actionable-warnings.ts:1480-1502 | a newer entry is never replaced: same file and identity, at least the same warnings, unchanged if re-verified |
| `WarningReports.OwnPresentIff` | clients/actionable-warnings.ts:1560-1565 | all warnings of an in-band report are present afterwards, whatever was persisted, if and only if no entry is shadowed by a later entry for the same normalised path that lacks one of them |
| `WarningReports.ShadowedWarningIsLost` | clients/actionable-warnings.ts:1560-1565 | with two entries whose paths normalise alike, an in-band publish loses every warning the later one lacks |
| `WarningReports.TwoSpellingsLoseWarning` | clients/actionable-warnings.ts:1345-1350 | a concrete report: one file spelled with a backslash and with a slash |
| `WarningReports.DistinctIsUnshadowed` | clients/actionable-warnings.ts:1345-1350 | a report with one entry per normalised path loses nothing |
| `WarningReports.InBandEntry` | clients/actionable-warnings.ts:1566-1645 | path by path, what an in-band publish leaves |
| `WarningReports.MarkedIffMerged` | clients/actionable-warnings.ts:1636-1643 | over every run, the entries carrying the deferred marker are exactly those some deferred publish merged since the previous in-band one |
| `WarningReports.AfterInBand` | clients/actionable-warnings.ts:1502-1701 | the run property: own entries present and only gained; every other entry was merged by a deferred publish since the previous in-band one, unchanged but for its marker, same session, unmoved |
| `WarningReports.SurvivesExactlyOnce` | clients/actionable-warnings.ts:1566-1645 | a carried deferred entry survives that in-band publish and not the next one: alone with all its warnings and its marker spent, or joined into the entry the turn itself reports unless that was verified again |
| `WarningReports.DeferredPublishKeeps` | clients/actionable-warnings.ts:1502-1701 | deferred publishes never lose a marked entry |
| `WarningReports.OlderStampIsOlder` | clients/actionable-warnings.ts:1784-1792 | the older stamp is one of the two and not after either |
| `WarningDrops.DropsAreOutdated` | clients/actionable-warnings.ts:1579-1611 | over live and recorded file sequences, with a runtime or without and for both publishers: the dropped files are, in order, exactly the considered older entries whose file has moved on (or, in-band with a runtime, differs or belongs to another session); the others are counted as merged |
| `WarningDrops.DeferredEntry` | clients/actionable-warnings.ts:1566-1645 | path by path after a deferred publish: an outdated entry leaves the persisted one untouched; any other leaves a marked entry, itself or the persisted one joined with its warnings unless that was verified again, with the older age |
| `WarningDrops.InBandLeaves` | clients/actionable-warnings.ts:1566-1645 | the same after an in-band publish, with and without a runtime: a marked persisted entry that is not outdated is carried alone or joined, its marker spent; otherwise the report's own entry or nothing is left |
| `WarningDrops.ReportSpans` | clients/actionable-warnings.ts:1648-1700 | an in-band report keeps its own identity; a deferred one keeps the persisted session and spans both windows |
| `WarningDrops.ReportIsNewer` | clients/actionable-warnings.ts:1671-1676 | a deferred report is stamped with the newer of the two readable ages |
| `RangeMerge.MergeRanges` | clients/cache-manager.ts:674-690 | the in-place loop returns the merged values; only the object that sorts first is changed, only its end and only upwards, even if objects are aliased; all others are copies |
| `RangeMergeLaws.MergeKeepsLines` | clients/cache-manager.ts:674-697 | merging changes no line, whatever the ranges |
| `RangeMergeLaws.MergeIsCanonical` | clients/cache-manager.ts:674-690 | for ranges with start at most end the result is sorted with gaps between neighbours |
| `RangeMergeLaws.CanonicalUnique` | clients/cache-manager.ts:674-690 | a set of lines has one such list |
| `RangeMergeLaws.MergeIsDetermined` | clients/cache-manager.ts:674-690 | ranges covering the same lines merge to the same list, so input order does not matter |
| `RangeMergeLaws.MergeIdempotent` | clients/cache-manager.ts:674-690 | merging a merged list changes nothing |
| `RangeMergeOrder.OrderFreeIff` | clients/cache-manager.ts:674-690 | all arrangements of a list of ranges merge alike if and only if no two different ranges share a start s with one of them ending before line s-1 and no earlier-starting range reaching line s-1 |
| `RangeMergeOrder.ConflictExamples` | clients/cache-manager.ts:674-690 | two concrete lists with ranges that end before the line in front of their start: one whose order matters and one whose order does not |
| `RangeMergeLaws.IncrementalIsBatch` | clients/cache-manager.ts:560-577 | merging one range at a time equals one batch merge |
| `TurnState.CacheManager.AddModifiedRange` | clients/cache-manager.ts:523-584 | one edit's effect on the persisted worklist, or rejection for an outside path or a live foreign owner |
| `TurnState.CacheManager.ClearTurnState` | clients/cache-manager.ts:589-620 | when a clear takes effect and what it stores |
| `TurnState.LockedOutIff` | clients/cache-manager.ts:443-517 | a writer is locked out exactly by a non-empty worklist of another owner that is not stale |
| `TurnState.WorklistIsReplay` | clients/cache-manager.ts:523-620 | after every history each file's ranges and imports flag are those of the accepted edits since the last effective clear |
| `TurnState.LineIffEdited` | clients/cache-manager.ts:523-697 | a line is in the stored ranges exactly when some such edit covered it |
| `TurnState.StoredIsBatch` | clients/cache-manager.ts:523-577 | if no edit is empty the stored ranges are the canonical batch merge |
| `TurnAccess.AccessIff` | clients/cache-manager.ts:441-517 | from pids, liveness and time stamps: a writer is locked out exactly by a non-empty worklist of another owner whose process answers, or who was seen within half an hour if it is this process or has no pid; the worklist is its own if it owns it, if it is empty, or if it is unclaimed and written during its session; else it may take it over |
| `TurnAccess.EditAcceptedIff` | clients/cache-manager.ts:526-556 | an edit counts unless its path is outside the project or its session is locked out |
| `TurnAccess.OtherAcceptedIff` | clients/cache-manager.ts:589-638 | a clear or a cycle goes through unless another process locks it out |
| `TurnAccess.EditStamps` | clients/cache-manager.ts:551-584 | an accepted edit makes its session the owner, seen now, or leaves ownership alone without one, and touches no other file |
| `TurnAccess.EditLocksOut` | clients/cache-manager.ts:441-517 | after a session's edit every other session in another process is locked out exactly as long as the editing process lives, in the same process for half an hour |
| `TurnAccess.ClearFrees` | clients/cache-manager.ts:589-620 | after a clear nobody is locked out |
| `MissAttribution.LazyEnvNumber.Get` | clients/env-utils.ts:70-86 | the configured TTL is read once and is positive whatever the environment holds: a positive override, or the default of 60000 |
| `MissAttribution.RecordCacheUsageSummary` | clients/cache-observability.ts:705-749 | the counter updates of one row |
| `MissAttribution.Observer.ObserveCacheContext` | clients/cache-observability.ts:1021-1189 | one context observation's effect on the tracked sessions |
| `MissAttribution.Observer.ObserveCachePrefix` | clients/cache-observability.ts:1518-1589 | one prefix observation's answer and effect on both bounded maps |
| `MissAttribution.Observer.LogCacheUsage` | clients/cache-observability.ts:1199-1360 | one usage row's verdict under the configured TTL and the reset of the session state |
| `MissAttribution.Observer.EmitCacheUsageSummaryAtSessionEnd` | clients/cache-observability.ts:1655-1681 | the summary emitted and the state retired at session end |
| `MissAttributionTraces.TtlExpiredIff` | clients/cache-observability.ts:462-703 | a row reads ttl-expired exactly when all evidence since the previous row is conclusive and the last context call came at least the TTL after it |
| `MissAttributionTraces.TtlVerdictIsSound` | clients/cache-observability.ts:451-749 | over event traces with 32 tracked sessions: a ttl-expired row implies a context call at least the TTL after the session's previous row, all observations in between complete and untruncated, no prefix change, same provider and model |
| `MissAttributionTraces.PartialEvictionIff` | clients/cache-observability.ts:670-683 | a row reads partial-eviction exactly when the evidence is conclusive, the gap is short, the read low, and the fresh input far above the exact uncapped sum of injected and grown characters |
| `MissAttributionTraces.SummariesAddUp` | clients/cache-observability.ts:705-749 | at every moment usageRecords is hits plus misses plus unreadable rows, and the cause counters sum to the misses minus zero reads without a prior sample |
| `MissAttributionTraces.SessionIsReplay` | clients/cache-observability.ts:386-395 | the state kept for a session equals a replay of its log since it was created; eviction, clearing and session end empty the log |
| `MissCauses.VerdictIffShort` | clients/cache-observability.ts:600-625 | there is a verdict exactly if the row and its predecessor are readable and it read nothing or less than half, and the verdict says which |
| `MissCauses.PrefixBrokeIff` | clients/cache-observability.ts:628-643 | over logs: prefix-broke exactly if the row fell short in a session with an id of its own and a changed first message was reported since the previous row |
| `MissCauses.ModelProviderChangedIff` | clients/cache-observability.ts:644-646 | model-provider-changed exactly if it fell short, no change was reported, both rows name provider and model, and they differ |
| `MissCauses.TtlOrEviction` | clients/cache-observability.ts:664-683 | ttl-expired exactly on conclusive evidence with the TTL elapsed between the previous row and the last request; partial-eviction exactly on conclusive evidence, less time, a low read, everything measured within its bounds and input above 512 tokens and above four times a quarter of the measured characters, rounded up |
| `MissCauses.UnknownIff` | clients/cache-observability.ts:684-703 | unknown exactly if it fell short and none of the other four conditions holds |
| `MissCauses.ReasonIff` | clients/cache-observability.ts:628-703 | each reason of an unknown cause holds exactly if its evidence is the first one missing, in the order session id, observed request, complete, untruncated, well-formed usage, known models; with all of it the reason says whether the first message was seen and how low the read was |
| `MissCauses.LoggedReasonIs` | clients/cache-observability.ts:1307-1314 | the reason logged with a row: malformed usage before anything else, a missing read, a first read of nothing, or the reason of its verdict |
| `MissCauses.SummariesCountRows` | clients/cache-observability.ts:705-749 | at every moment of every trace the counter of each cause is the number of rows that read it, that of each reason the number of rows counted under it, and hits and misses count rows by their reads |
| `MissMemory.AnswerIs` | clients/cache-observability.ts:1518-1589 | over every trace of all sessions: changed means that the session's last hash since it was forgotten differs, unchanged that it is the same, baseline is answered if there was none; with fewer than 32 other sessions hashed since, the two hashes decide |
| `MissMemory.RecentIsTracked` | clients/cache-observability.ts:381-395 | a session's state is kept and its log grows by each of its events as long as it is not ended and fewer than 32 other sessions had events since it was last written |
| `MissMemory.AtMost32` | clients/cache-observability.ts:381-395 | never are more than 32 sessions or hashes kept |
| `MissMemory.EndsAre` | clients/cache-observability.ts:1597-1610 | which session's state and hash the end, the clearing and a look at a session drop, and that no other is affected |
| `MissMemory.SharedStateIff` | clients/cache-observability.ts:992-1009 | two calls share a session exactly if they carry the same id of their own, or none and the same role, or an id spelled like a fallback bucket |
| `MissMemory.GrowthIs` | clients/cache-observability.ts:404-413 | transcript growth covers the messages past the length at the session's last completed observation, and nothing at the first or when the transcript shrank |
| `AgentBehavior.AgentBehaviorClient.RecordToolCall` | clients/agent-behavior-client.ts:72-165 | the warnings of a call are those the full log since the reset determines; fields and bounded history follow the log |
| `AgentBehavior.CountIsRunLength` | clients/agent-behavior-client.ts:81-93 | the counter reaches back exactly to the start of the maximal run of identical calls with gaps under 30 s |
| `AgentBehavior.CountIsLongest` | clients/agent-behavior-client.ts:81-93 | no longer suffix is such a run |
| `AgentBehavior.OneWarningPerRun` | clients/agent-behavior-client.ts:95-108 | a maximal run is warned about at its third call and nowhere else |
| `AgentBehavior.EveryCallInARun` | clients/agent-behavior-client.ts:81-108 | every call belongs to a maximal run, so every thrash warning is the one of its run |
| `AgentBehavior.ThrashingIff` | clients/agent-behavior-client.ts:77-108 | call by call: a thrash warning exactly if this call and the two before it have one tool and one path, each within 30 s of the last, and the call before those does not continue the run |
| `AgentBehavior.BlindWriteIff` | clients/agent-behavior-client.ts:110-143 | a blind-write warning exactly if the call mutates, two of the last five calls mutated, and none of the five looked at files or wrote this file; no warnings of other kinds |
| `AgentBehavior.EditCountIsExact` | clients/agent-behavior-client.ts:146-158 | after every log the edit count of a file is the number of its edits since an edit of another file last found it idle for more than the limit |
| `AgentBehavior.BriskEditCount` | clients/agent-behavior-client.ts:146-158 | while no two calls are further apart than the idle limit, that is the number of its edits since the reset |
| `AgentBehavior.AgentBehaviorClient.Reset` | clients/agent-behavior-client.ts:186-192 | a reset forgets the log although the last path is kept |
| `AgentNudge.Accumulator.RecordTouchedEvent` | clients/agent-nudge.ts:160-202 | one bus event amounts to one own-touch event per path |
| `AgentNudge.Accumulator.ConsumeAgentNudge` | clients/agent-nudge.ts:396-489 | a drain empties the accumulator and reports what the log determines |
| `AgentNudge.TrayTells` | clients/agent-nudge.ts:160-288 | every entry is a replay of the log: presence, source, delivered flag, display path, time and reasons |
| `AgentNudge.BatchNamesPath` | clients/agent-nudge.ts:396-442 | a path is in the batch exactly when some event touched it since the previous drain and its last event is not a delivered attachment |
| `AgentNudge.BatchLabels` | clients/agent-nudge.ts:176-183 | it is labelled local exactly when some touch since the drain was this process's own |
| `AgentNudge.FilteredIsSetAside` | clients/agent-nudge.ts:168-174 | the filtered count is the number of own touches the read guard set aside since the drain |
| `AgentNudge.BatchCounts` | clients/agent-nudge.ts:439-442 | the count of cross-process files in a batch is the number of its paths that no touch of this process concerned |
| `AgentNudge.OrderIsFirstTouch` | clients/agent-nudge.ts:396-442 | the drained batch names, in the order of first touch, exactly the touched paths whose last event is not a delivered attachment |
| `AgentNudge.RearmNeedsTouch` | clients/agent-nudge.ts:282-288 | after every log that never touched the path, withdrawing its attachment changes nothing and leaves it out of the batch |
| `QuarantineLock.RemovalIsJustified` | clients/bounded-pid-file-lock.ts:47-126 | in every run a directory is removed only by a release whose token it records or after being renamed aside and judged stale as it still is; whose directory that is, the token alone does not say |
| `QuarantineLock.LostRecordWasTaken` | clients/bounded-pid-file-lock.ts:28-173 | in every run an owner's record that is gone at the end was taken by one of the steps since: its own release, a reclaim that judged it stale, a late writer, or the clean-up of a creator that failed to write |
| `QuarantineLock.LooksAre` | clients/bounded-pid-file-lock.ts:75-126 | what each look at a lock decides, from the recorded process, its age and the directory's age |
| `QuarantineLock.RemovalSparesHolders` | clients/bounded-pid-file-lock.ts:47-126 | in every run a reclaimer removes a lock only if its recorded process is dead, its record too old, or it has none and the directory is too old; a release only if the lock carries its token |
| `QuarantineExclusion.UndisturbedExcludes` | clients/bounded-pid-file-lock.ts:115-173 | over every run from any disk: if no lock is renamed aside as stale while some call is active, that is between its mkdir and the end of its ownership, then at most one call is active, its lock exists, and it records the holder's token |
| `QuarantineExclusion.DisturbanceBreaks` | clients/bounded-pid-file-lock.ts:89-113 | whenever the lock of an active call is renamed aside, two calls can come to hold it without any further reclaim |
| `QuarantineExclusion.ExclusionIff` | clients/bounded-pid-file-lock.ts:115-173 | a run keeps the lock safe throughout, whatever follows short of another reclaim, if and only if none of its steps renames a lock aside while some call is active |
| `QuarantineFailures.SlowCreatorOverwrites` | clients/bounded-pid-file-lock.ts:128-145 | a concrete run to two holders: a creator writes its owner file over that of the call that replaced it |
| `QuarantineFailures.EarlyLookStrandsLock` | clients/bounded-pid-file-lock.ts:35-38 | another, without late writer or stale verdict: a reclaimer that looked at an older lock takes a live one aside and cannot put it back |
| `QuarantineRelease.LateReleaseDeletesIff` | clients/bounded-pid-file-lock.ts:47-76 | in every run a release removes a directory that another call made if and only if its own call had written its owner file into a directory that another call made |
| `QuarantineRelease.ForeignWriteDeletes` | clients/bounded-pid-file-lock.ts:128-145 | from every state such a write leads to the release deleting the other call's directory |
| `QuarantineRelease.NoReplacementDeleted` | clients/bounded-pid-file-lock.ts:175-178 | while no active call's lock is reclaimed, neither a late owner nor a reclaimer nor a failed creator deletes the lock of another active call |
| `QuarantineFailures.LateOwnerDeletesReplacement` | clients/bounded-pid-file-lock.ts:175-178 | a concrete run in which a late owner deletes its replacement, which goes on holding nothing |
| `QuarantineFailures.FailedCreatorDeletesReplacement` | clients/bounded-pid-file-lock.ts:138-143 | a concrete run in which a creator that failed to write does |

## Left out

- Host wiring, process spawning, UI, loggers, message texts and all telemetry records not named above.
- Wrong-typed JSON: the validator's type tests on raw values are not modelled, a persisted snapshot is already a record of the right shape, and a coverage object is present with all its fields or absent.
- String keys built by concatenation with separators in the call graph are pairs here.
- Edges and candidate records are values: two references to one edge object are not modelled.
- CallGraphEvidence.EvidencePartition: is about counters the builder keeps itself; supplied counters are in CallGraphAdapter.
- CallGraphMixing.FirstMixedPairIsRefused: is stated below 500 million references, where half a record exceeds the validator's relative tolerance; BuiltAcceptedIff has no such bound.
- ReviewGraphExtract.ExtractSymbolsAndRefsFromGraph: target metadata that no modelled operation reads is left out, and a node's id is its key.
- CallGraphSession.SessionAcceptedIff: takes one spelling per file and non-empty node ids and edge targets for granted; the code that makes the review graph is not part of this model.
- CallGraphPersist.CountsMatch: the float tolerance is kept as written but sums are exact reals, so rounding is not captured.
- `formatImpact`, cache file paths and the metadata file of the call graph.
- BoundedCache.BoundedLruCache: holds a FIFO map where the program inherits from one; dynamic dispatch is not captured.
- Fractional capacities and limits of bounded collections, admission tables and sweeps: they are integers here.
- Path resolution and file status probes behind the freshness gate are fixed functions during a delivery; probe errors are the unknown answer.
- Characters are Unicode scalar values where the program sees UTF-16 code units; the lexer looks only at ASCII characters and white space.
- ShellPrinting.PrintingRoundTrip: prints no here-document; those are in ShellHeredocs and ShellDelimiters.
- Command analysis built on the lexer (read spans, written paths, grep parsing).
- AtomicWrite.Writer.WriteFileAtomic: file modes and encodings are not modelled, and the monotonic counter never saturates.
- StagingSweep.Disk.SweepOwnStagingFiles: a directory handle that fails while being read is not modelled, nor are entries that change during the scan; the interleaved form is in AtomicWrite.
- The report summary, the history log, degradation counters, the deferred language-server pull and the autofix pass of actionable warnings.
- WarningReports.MergeActionableWarningsReports: record fields that no merge reads are one opaque field.
- TurnState.CacheManager: time stamps are what `Date.parse` makes of them; the scanner caches and their TTLs are left out.
- MissAttribution.Observer: session states are values written back, where the program updates the object it fetched; byte counts, repeated findings and tool-result tallies, which only feed the log row, are left out.
- MissAttribution.Observer.ObserveCacheContext: a failing observation is modelled as failing before it measured anything.
- AgentNudge.Accumulator.ConsumeAgentNudge: the wording, the capped name list and the verb are left out.
- QuarantineLock.RemovalIsJustified: retries and waiting are new calls; a half-written owner file reads as none; looking at a lock, cleaning up and removing a directory are one step each; the synchronous variant's read-then-unlink is not modelled.
