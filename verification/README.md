# Verified model of the release tooling

The Python tools under `tools/` carry the algorithms of this project that decide something: a compiler from
plain Stim circuits to loss-visible ones, the statistics of the published benchmarks, the protocol by which a release
earns and proves its support claims, and a handful of normal forms, fixpoints, worklists and streaming machines. This
project models these algorithms in Dafny and proves what they are for. Code that changes state step by step is a method
(or a class) proved against a specification function or predicate, and the laws are lemmas about that specification.

`dafny verify dfyconfig.toml` checks everything. The modules follow the program:

| files | what they model |
|---|---|
| `Prelude`, `Text`, `TextLaws`, `Sorting` | options and results, Python's string operations, `sorted` |
| `LossVisible`, `LossVisiblePass`, `LossVisibleCircuit`, `LossVisibleText`, `LossVisibleLosses` | the circuit annotator: references, the pass over lines, an abstract machine that gives circuits a meaning, the link from text to runs, and runs in which atoms get lost |
| `Statistics`, `Bootstrap`, `Estimates`, `EstimateLaws`, `EstimateSays` | Wilson intervals over exact reals, the bootstrap of medians, grouping and aggregation |
| `Json`, `Canonical`, `RulesetDrift`, `TagPeel` | the canonical form of JSON documents and its sort key; the audit of tag rulesets that compares such forms; following annotated tags |
| `SupportMatrix`, `ExpansionLaws`, `SupportGate`, `SupportLaws`, `SupportWitnesses` | controls: validation, expansion, reduction, runs, and what the gate asks of the records; two matrices on which this goes wrong |
| `Evidence`, `PortableLaws`, `Coverage`, `CoverageLaws`, `Gate`, `GateDecision`, `GateLaws`, `GateJustified`, `GateLoads`, `GateReports`, `GateWitness` | the documents of the gate, correctness accounting, the decision function and its laws, what a supported decision means, what is loaded and what is reported, and evidence that stops the gate |
| `Checksums`, `ListingLaws`, `Publication`, `BundleBuild`, `BundleVerify`, `NamesFit`, `Agreement`, `Determination`, `ClaimLaws`, `GatePublishes`, `GateToBuild`, `GateToRelease`, `BundleWitness` | building and verifying the evidence bundle, agreement of the two sides, the hash chain, what a bundle claims, the way from gate to release, and a bundle that is built and refused |
| `DocsIndex`, `DocsIndexLaws`, `DocsIndexWords`, `DocsIndexRecords`, `DocsIndexTree`, `DocsIndexAnchors`, `DocsIndexPages` | the documentation indexer as an event machine, the words it publishes, the records of a page, and two pages whose text it loses |
| `Crates`, `CliHelp`, `CliHelpEntries` | publication order, feature closure, packaging run; the walk over command help |

Outside code is a parameter: a hash is a function from texts to digests (without collisions only where a lemma says so,
and only among the texts of two bundles), parsing
a document is a partial function from its bytes, a file tree is a finite map, running a binary is a function, a random
generator is an index stream that depends on the sample size, a square root is the non-negative number with the right
square.

A digest has 64 hexadecimal digits, and packing and unpacking a bundle, and writing and reading the two documents a
build adds, give back what they were given.

Six results differ from what the tools or their documentation suggest. Each comes with its exact condition and with a
concrete input:

- Rewriting `rec[-k]` to `rec[-(2k-1)]` is right exactly when the `k-1` records after the named one are all
  converted readouts (`LossVisibleCircuit.ReferenceIsRightIffAligned`). Circuits that measure by `M` and `MR` alone
  always satisfy this; `M 0`, `MX 1`, `DETECTOR rec[-2]` does not (`LossVisibleCircuit.MixedReadoutsDiffer`).
- A run of a reduced matrix satisfies the gate exactly when every control of the full matrix expands, dropped controls
  included (`SupportGate.ReducedRunSatisfiesGateIff`, `SupportWitnesses.DroppedControlStopsTheGate`). A run executes
  nothing with a decoder exactly when all the controls that list it have lists of no variants, which validation does not
  see (`SupportGate.DecoderRunsNothingIff`, `SupportWitnesses.HollowMatrixPasses`).
- MLE evidence never changes the decision on another decoder, but it can stop the gate before any decision is made
  (`GateLaws.MleFilesStopTheGateIff`); a measured workload without a wall time is enough. With a complete scope plan and
  a report that names no machine, which is replayed no further, the gate ends on that workload
  (`GateWitness.WitnessStops`).
- A bundle that was built is accepted exactly when four things hold that only the verifier checks
  (`Agreement.PublishedBundleIsAcceptedIff`). One of them is that every case of the retained manifest pins its raw
  file, which the build checks for the last case of a file only (`BundleWitness.RepeatedRawIsBuiltAndRefused`, and
  `BundleWitness.PublishRepeatedRaw`, which builds such a release).
- The indexer publishes all the text of a page exactly when no heading that already has text is cut off by another
  heading and no text is pending at the end (`DocsIndexLaws.TextIsPublishedIff`). Both conditions can fail
  (`DocsIndexPages.NestedHeadingLosesText`, `DocsIndexPages.UnclosedHeadingLosesText`).
- Replacing a text by one that shares no character with it makes it disappear from a circuit exactly when the new text
  is not empty or the old one is a single character repeated (`ExpansionLaws.ReplacedIsGoneIff`): removing `ab` from
  `aabb` leaves `ab` (`ExpansionLaws.ReplacedByNothing`).

## Model

| member | source | states |
|---|---|---|
| `LossVisible.ShiftIsExact` | tools/annotate_loss_visible.py:48-54 | On lines without `rec[-0]`, every `rec[-k]` becomes `rec[-(2k-1)]`, in order and in number, and the text around the references is unchanged. |
| `LossVisible.RewriteTwice` | tools/annotate_loss_visible.py:48-54 | Two rewrites of references compose to the rewrite by the composed numbers. |
| `LossVisible.ShiftOfZero` | tools/annotate_loss_visible.py:48-54 | `rec[-0]` is turned into text that is no longer spelled like a reference. |
| `LossVisible.UnshiftShift` | tools/annotate_loss_visible.py:48-54 | Mapping `rec[-j]` to `rec[-((j+1)/2)]` undoes the shift of a line if and only if its references are canonical decimals and positive. |
| `LossVisiblePass.Annotate` | tools/annotate_loss_visible.py:57-88 | The loop computes the pass: the lines of every instruction, failure on a line without a name or targets, refusal of circuits without measurements. |
| `TextLaws.StripIsMiddle` | tools/annotate_loss_visible.py:61-62 | Stripping takes white space off both ends of a line and nothing else, and leaves none there. |
| `LossVisiblePass.EraseEmitted` | tools/annotate_loss_visible.py:65-85 | The lines written for one line erase to that line if and only if a caller-checkable condition on the line holds. |
| `LossVisiblePass.AnnotateInvertible` | tools/annotate_loss_visible.py:57-88 | Erasing the annotation of a circuit gives back its non-blank stripped lines if and only if every line is recoverable: no bare `LOSS`, `ML`, `MRL` or marker line, readouts as name and one space, references canonical and positive. |
| `LossVisiblePass.MarkerInsertedOnce` | tools/annotate_loss_visible.py:81-83 | On every circuit that is annotated, also one that already has markers or loss-visible readouts: a marker is inserted behind a reset exactly when no readout came before it and no line written before it has a flip point, so at most once. |
| `LossVisiblePass.MarkerPrecedesConversions` | tools/annotate_loss_visible.py:69-83 | In the output, no converted readout stands before an inserted marker: what is a loss-visible readout there was one in the circuit. |
| `LossVisibleCircuit.SpreadAt` | tools/annotate_loss_visible.py:17-22 | In the annotated records, record `i` stands behind the flags of the converted records up to it. |
| `LossVisibleCircuit.RangeIsKept` | tools/annotate_loss_visible.py:51-54 | Where all records are converted readouts, `2k-1` is in range exactly when `k` is. |
| `LossVisibleCircuit.OutOfRangeStays` | tools/annotate_loss_visible.py:51-54 | With any mix of records, a reference that reaches too far back still does after the shift. |
| `LossVisibleCircuit.ReferenceIsRightIffAligned` | tools/annotate_loss_visible.py:51-54 | The shifted reference names the original record, whatever the records hold, if and only if all later records are converted. |
| `LossVisibleCircuit.StepSimulates` | tools/annotate_loss_visible.py:65-85 | One instruction and the instructions written for it keep the two machines in step, or stop both. |
| `LossVisibleCircuit.CompileSimulates` | tools/annotate_loss_visible.py:57-88 | Meaning preservation for every circuit with aligned references: a lossless run of the annotated circuit ends in the same quantum state with the same detectors and observables, its records being the original ones with a clear flag before each converted one. |
| `LossVisibleCircuit.AnnotatedRunAgrees` | tools/annotate_loss_visible.py:57-88 | For circuits whose only measurements are `M` and `MR`, with any references: both runs stop or neither; record `2i` is clear, record `2i+1` is record `i`, all parities agree. |
| `LossVisibleCircuit.MixedReadoutsDiffer` | tools/annotate_loss_visible.py:57-88 | On `M 0`, `MX 1`, `DETECTOR rec[-2]` the two runs end, and the detector is 1 in the plain run and 0 in the annotated one. |
| `LossVisibleText.ShiftLookbacks` | tools/annotate_loss_visible.py:79-80 | The rewrite of a printed list of references prints the shifted list. |
| `LossVisibleText.AnnotateComputesCompile` | tools/annotate_loss_visible.py:57-88 | On the text of a circuit the pass gives the text of the compiled circuit, or refuses it when it has no readout. |
| `LossVisibleText.AnnotatedTextAgrees` | tools/annotate_loss_visible.py:57-88 | The text of a circuit that measures by `M` and `MR` alone, at least once, is annotated to the text of a circuit whose lossless run agrees with the run of the first: records, parities, final state. |
| `LossVisibleLosses.SitesAreRight` | tools/annotate_loss_visible.py:66-78 | In the compiled circuit every `CX` is followed by a loss site at 0.01 and every flagged readout preceded by one at 0.02, for the same atoms, and no site stands anywhere else. |
| `LossVisibleLosses.StepLoses` | tools/annotate_loss_visible.py:66-83 | Whatever is lost when: an instruction leaves lost the atoms its own site hits and those lost before, except those it resets; the atoms a gate loses are lost only behind it. |
| `LossVisibleLosses.RunLoses` | tools/annotate_loss_visible.py:57-88 | After any run of the compiled circuit an atom is lost if and only if some gate or readout on it has lost it, or it was lost at the start, and nothing has reset it since; every gate and readout uses one site, in order. |
| `LossVisibleLosses.FlagsTellLosses` | tools/annotate_loss_visible.py:69-78 | For arbitrary losses, the flag in front of each value of an `M` or `MR` is set if and only if its atom is lost by the circuit before or at the own site of the readout, and was not reset by the same `MR` already; the older records stay. |
| `Statistics.WilsonIsExact` | tools/check_publication_benchmark_evidence.py:113-130 | The bounds are exactly the two solutions `p` of `(e/n - p)^2 = z^2 p(1-p)/n`; they lie in [0, 1] around `e/n`, so both clamps do nothing; no errors give 0, only errors give 1. |
| `Statistics.RateOfShots` | tools/check_publication_benchmark_evidence.py:124 | The estimate times the shots is the number of errors. |
| `Statistics.RootsOfScore` | tools/check_publication_benchmark_evidence.py:123-129 | The centre and margin of the formula give the sum and product of the bounds that the score equation prescribes. |
| `Statistics.WilsonMirrors` | tools/check_publication_benchmark_evidence.py:113-130 | Swapping errors and successes mirrors the interval. |
| `Statistics.WilsonIsOrdered` | tools/check_publication_benchmark_evidence.py:113-130 | The interval is refused on exactly the impossible counts; with any monotone rounding the reported bounds are ordered around the reported point, and clamping changed nothing. |
| `Bootstrap.BootstrapMedianInterval` | tools/check_publication_benchmark_evidence.py:133-150 | The loop over resamples computes the sorted resampled medians and reads off the two order statistics; an empty cell is refused. |
| `Bootstrap.MedianIsMiddle` | tools/check_publication_benchmark_evidence.py:138-146 | For every ascending arrangement of a sample: the median is its middle element, or half the sum of its two middle elements. |
| `Bootstrap.MedianMirrors` | tools/check_publication_benchmark_evidence.py:138-146 | The median of the negated sample is the negated median. |
| `Bootstrap.BoundsAreQuantiles` | tools/check_publication_benchmark_evidence.py:133-150 | The point is the median of the repetitions; each bound is one of the 2000 resampled medians: at most 50 are less than the lower one and more than 50 at most it, at most 1950 less than the upper one and more than 1950 at most it. |
| `Bootstrap.WholeResample` | tools/check_publication_benchmark_evidence.py:141-146 | A resample that draws every repetition once has the median of the repetitions. |
| `Bootstrap.SortIsMonotone` | tools/check_publication_benchmark_evidence.py:137-147 | Order statistics are monotone: pointwise smaller samples have pointwise smaller sorted samples. |
| `Bootstrap.BootstrapIsMonotone` | tools/check_publication_benchmark_evidence.py:133-150 | For any index stream, a sample that is below another after sorting has a smaller point and smaller bounds. |
| `Bootstrap.BootstrapForgetsOrder` | tools/check_publication_benchmark_evidence.py:133-150 | Permuting the repetitions changes nothing. |
| `Bootstrap.BootstrapIsEnclosed` | tools/check_publication_benchmark_evidence.py:133-150 | Both bounds and the point lie between the extreme repetitions, and the bounds are ordered. |
| `Estimates.KeyTellsKind` | tools/check_publication_benchmark_evidence.py:281-284 | Records with equal keys are of one kind, whatever their labels contain. |
| `Estimates.KeyIsInjective` | tools/check_publication_benchmark_evidence.py:281-284 | With separator-free labels, keys are equal if and only if kind, variant and printed scale are. |
| `Estimates.DeriveEstimates` | tools/check_publication_benchmark_evidence.py:287-340 | Filling the groups record by record and estimating them in key order computes the estimate of every group, or the first refusal. |
| `EstimateLaws.EstimatesForgetOrder` | tools/check_publication_benchmark_evidence.py:287-340 | Permuting the records changes no estimate, when records with equal keys agree on variant and scale. |
| `EstimateLaws.CleanIsCoherent` | tools/check_publication_benchmark_evidence.py:281-297 | Separator-free labels and one representation per level make records with equal keys agree. |
| `EstimateLaws.EstimatesConserve` | tools/check_publication_benchmark_evidence.py:287-340 | Every record other than timing warmups is listed by exactly one estimate, and the `n` of the logical-error estimates add up to the shots recorded. |
| `EstimateLaws.SplitKeepsEstimate` | tools/check_publication_benchmark_evidence.py:287-340 | Splitting a logical-error record in two changes nothing in the list of estimates, or in its refusal, but the record ids of its group. |
| `EstimateLaws.PooledIntervalIsWilson` | tools/check_publication_benchmark_evidence.py:299-307 | The interval of a logical-error group is the Wilson interval of its pooled counts: refused on exactly the impossible counts, ordered around the pooled rate otherwise. |
| `EstimateSays.EstimatesSay` | tools/check_publication_benchmark_evidence.py:287-340 | The estimates come in ascending order of their keys, one for every key that has more than warmups; each names kind, variant, sorted scale and the sorted ids of its group and says what its rule makes of it: for timings, measured plus warmups is the size of the group and the point is the rounded median of the times. |
| `EstimateSays.RatioIsExact` | tools/check_publication_benchmark_evidence.py:322-331 | The reported ratio is the rounding of the number that times the pooled input gives the pooled output, and 0 without input. |
| `EstimateSays.BytesAdd` | tools/check_publication_benchmark_evidence.py:322-324 | A byte record anywhere in a group adds its input to the inputs and its output to the outputs. |
| `EstimateSays.LogicalErrorsAdd` | tools/check_publication_benchmark_evidence.py:299-302 | A logical-error record anywhere in a group adds its shots and its errors. |
| `Json.EscapeInjective` | tools/check_release_gate.py:199-205 | An escaped string followed by its closing quote determines the string and what follows. |
| `Json.WriteInjective` | tools/check_release_gate.py:199-205 | The compact text of a document determines the document; scalars of different types have different texts. |
| `Sorting.SortEqualIffPermuted` | tools/check_release_gate.py:199-205 | Sorting by a key that tells the elements apart gives equal lists if and only if they are permutations of each other. |
| `Canonical.DumpsInjective` | tools/check_release_gate.py:199-205 | The sort key tells canonical documents apart. |
| `Canonical.CanonIsComplete` | tools/check_release_gate.py:199-217 | Canonical forms are equal if and only if the documents differ at most by the order of keys and of list elements, at any depth. |
| `Canonical.CanonIdempotent` | tools/check_release_gate.py:199-205 | The canonical form is its own canonical form. |
| `Canonical.CanonIsSame` | tools/check_release_gate.py:199-205 | The canonical form differs from the document by order alone. |
| `RulesetDrift.ReviewedBypassErrors` | tools/check_release_gate.py:533-574 | The audit of a live tag ruleset against the reviewed snapshot computes its errors in order. |
| `RulesetDrift.PayloadSays` | tools/check_release_gate.py:208-574 | The desired payload is made a repository ruleset without a source; every other field of it stays. |
| `RulesetDrift.NoDriftIff` | tools/check_release_gate.py:208-574 | Nothing is reported if and only if repository, id, timestamp and bypass actors agree, the live ruleset has all public fields, and the documents agree up to the order of keys and of list elements at any depth: the snapshot with the reviewed payload made out for the repository, the live ruleset with the snapshot. |
| `TagPeel.ResolveTagCommit` | tools/check_release_gate.py:308-337 | A tag resolves if and only if fewer than eight annotated tags lead to a commit with a full name and no object is met twice; the result is that commit. |
| `TagPeel.CommitIsUnique` | tools/check_release_gate.py:308-337 | A tag stands for at most one commit. |
| `SupportMatrix.ValidateMatrix` | tools/check_envelope_support.py:91-139 | The validator accepts exactly the matrices that meet the declared conditions: schema, fields, unique ids, known decoders, pinned expectations, required controls. |
| `SupportMatrix.ExpandControls` | tools/check_envelope_support.py:266-289 | The loops compute the expansion, or the first variant whose text is not in its base circuit. |
| `SupportMatrix.ExpandOkIff` | tools/check_envelope_support.py:266-289 | The expansion succeeds if and only if every variant finds its text. |
| `ExpansionLaws.ReplaceReplaces` | tools/check_envelope_support.py:266-289 | Replacing a nonempty text: what stands in front of its first occurrence stays, the occurrence gives way to the new text, and the rest is treated in the same way; a text without it stays. |
| `ExpansionLaws.ReplacedIsGone` | tools/check_envelope_support.py:266-289 | When no character of the replaced text occurs in the new text, and that is not empty, the replaced text occurs nowhere in the result. |
| `ExpansionLaws.ReplacedIsGoneIff` | tools/check_envelope_support.py:266-289 | For texts without a common character: the replaced text is gone from every circuit if and only if it gives way to something or is one character repeated. |
| `ExpansionLaws.ReplacedByNothing` | tools/check_envelope_support.py:266-289 | Replacing `ab` by nothing in `aabb` leaves `ab`. |
| `ExpansionLaws.ReplaceEverywhere` | tools/check_envelope_support.py:279-287 | Replacing the empty text puts the new text around every character. |
| `ExpansionLaws.InstanceIs` | tools/check_envelope_support.py:279-287 | The control made for a variant has the circuit of the base with the text replaced as above, the id of both, and everything else of the control. |
| `ExpansionLaws.ExpansionIs` | tools/check_envelope_support.py:266-289 | An expansion is, control by control in order, the control itself or one such control per variant in order. |
| `ExpansionLaws.VariantIdsDiffer` | tools/check_envelope_support.py:279-287 | Controls made for variants of one control have the same id only if the variants have. |
| `SupportMatrix.ReducedMatrix` | tools/check_installed_envelope.py:99-120 | The reduction succeeds exactly when its result is valid, and is the restriction to the available decoders. |
| `ExpansionLaws.ReduceKeeps` | tools/check_installed_envelope.py:99-120 | A control is in the reduction if and only if it is some control of the matrix, all of it kept but the decoders that are not available, of which there is one left at least. |
| `ExpansionLaws.KeepsOrder` | tools/check_installed_envelope.py:99-120 | The decoders that are kept stay in order. |
| `SupportMatrix.RunChecks` | tools/check_envelope_support.py:431-496 | The nested loops compute the run: one record per control and decoder in order, the problems of all of them, refusal when a decoder is not advertised. |
| `SupportLaws.RunReports` | tools/check_envelope_support.py:431-496 | Every control of the expanded matrix runs once with each of its decoders, in order; the record of an execution has its control, its decoder and its issues, and passes without issues alone; the problems are the issues of all records, one after the other, and the run passes if there are none. |
| `SupportGate.SupportGaps` | tools/check_envelope_release.py:385-416 | The loop computes the missing and failing controls of a decoder, the first record of a control deciding. |
| `SupportLaws.GapsSay` | tools/check_envelope_release.py:394-416 | There is at most one gap of each kind, and they name exactly the expected controls without a record of the decoder, and those whose first record did not pass. |
| `SupportGate.NoSupportGapIff` | tools/check_envelope_release.py:394-416 | There is no gap if and only if the matrix expands and every expanded control of the decoder has a record, the first of which passed. |
| `SupportGate.ReduceCommutes` | tools/check_installed_envelope.py:99-120 | Reducing and expanding commute. |
| `SupportGate.ExpectedControlsSurviveReduction` | tools/check_envelope_release.py:385-391 | A decoder that is kept keeps exactly its expected controls. |
| `SupportGate.RunSatisfiesGate` | tools/check_envelope_support.py:431-496 | A passing run of a matrix leaves no gap for any decoder. |
| `SupportGate.ReducedRunSatisfiesGateIff` | tools/check_installed_envelope.py:99-120 | A passing run of the reduced matrix leaves no gap against the full matrix, for every kept decoder, if and only if every control of the full matrix expands. |
| `SupportGate.InstalledReportSatisfiesGate` | tools/check_installed_envelope.py:136-200 | The same for the report of an installed archive, with or without all decoders expected. |
| `SupportLaws.InstalledPassesIff` | tools/check_installed_envelope.py:136-200 | The test of an installed archive passes if and only if all records passed and either the MLE decoder is expected and advertised, or it is not expected and the contract of its absence has no problem. |
| `SupportGate.NoGapForAnyDecoderIffRunPassed` | tools/check_envelope_release.py:394-416 | When no two runs are recorded under one name, no decoder has a gap if and only if the run passed. |
| `SupportGate.ReducedIsValidIff` | tools/check_installed_envelope.py:99-120 | The reduction of a valid matrix is valid if and only if some control covers an available decoder. |
| `SupportGate.NothingExpectedIff` | tools/check_envelope_release.py:385-391 | No control is expected of a decoder if and only if every control that lists it has a list of no variants. |
| `SupportGate.DecoderRunsNothingIff` | tools/check_envelope_support.py:431-496 | A run executes nothing with a decoder if and only if every control that lists it has a list of no variants. |
| `SupportGate.ValidMatrixRunsNothingIff` | tools/check_envelope_support.py:431-496 | The run of a valid matrix executes nothing at all if and only if every control has a list of no variants. |
| `SupportWitnesses.HollowMatrixPasses` | tools/check_envelope_support.py:125-139 | A concrete valid matrix with all required controls of envelope-matching whose run executes nothing, passes and leaves no gap. |
| `SupportWitnesses.DroppedControlStopsTheGate` | tools/check_installed_envelope.py:99-120 | A concrete valid matrix whose reduced run passes while the gate stops at a broken variant of the dropped control. |
| `Evidence.SanitizedIsPortable` | tools/check_envelope_release.py:279-304 | The published form of an installed report has the same machine-independent part as the report, and taking that part twice changes nothing. |
| `PortableLaws.PortableIff` | tools/check_envelope_release.py:279-304 | Two installed reports have the same machine-independent part if and only if they agree on everything but the directory, the paths, and the list of redacted ones, with archives of one file name. |
| `PortableLaws.SanitizedSays` | tools/check_envelope_publication.py:256-259 | The published report agrees with the recorded one in that sense, and holds no path. |
| `PortableLaws.BaseNameOf` | tools/check_envelope_release.py:296-299 | The file name at the end of a path, whatever directories stand in front and slashes behind. |
| `Coverage.CorrectnessCaseGaps` | tools/check_envelope_release.py:419-486 | The loop computes the gaps of every end-to-end case for a decoder. |
| `Coverage.NoCaseGapIff` | tools/check_envelope_release.py:419-486 | There is no gap if and only if there is an end-to-end case and every one is sound: executed, counts that agree, halves that agree, the recorded hash, no rejected row, the flipped answer rejected. |
| `CoverageLaws.SinglesCount` | tools/check_envelope_release.py:419-486 | The unique-optimum rows are counted as the rows with one allowed answer. |
| `CoverageLaws.HalvesAgreeIff` | tools/check_envelope_release.py:464-483 | Placeholder invariance: the number of predictions is even, and each of the first half equals its partner in the second. |
| `Coverage.AcceptedRowsAreEven` | tools/check_envelope_release.py:464-483 | Evidence without a gap has an even number of rows in every end-to-end case. |
| `Coverage.RecomputedCoverage` | tools/check_envelope_release.py:489-524 | The loops compute the category counts, channels, points and totals of the cases. |
| `CoverageLaws.CaseAdds` | tools/check_envelope_release.py:489-524 | What one case adds to the summary: rows, placeholder pairs, channels and the histories it exercises whatever its level, checked rows and ties if it is an end-to-end case alone. |
| `CoverageLaws.BackendsAdd` | tools/check_envelope_release.py:508-511 | Checked rows and ties of a case add up over its backends. |
| `CoverageLaws.OneBackend` | tools/check_envelope_release.py:508-513 | A backend adds the rows it records, and none where it records none. |
| `CoverageLaws.RecomputedAdds` | tools/check_envelope_release.py:489-524 | The summary of two lists of cases is their two summaries put together, field by field. |
| `CoverageLaws.RecomputedForgetsOrder` | tools/check_envelope_release.py:489-524 | Permuting the cases changes no count, total or channel, and permutes points and seeds. |
| `Coverage.CorrectnessSummaryGaps` | tools/check_envelope_release.py:527-559 | The gaps of the declared summary, none exactly when every declared field is the recomputed one, every required category and channel is exercised by some case, and there are two cases, a placeholder pair and a checked row. |
| `Coverage.NoSummaryGapIff` | tools/check_envelope_release.py:527-559 | The same of the specification: the counted categories and collected channels are the ones some case shows. |
| `Coverage.CheckedRowsAreAccounted` | tools/check_envelope_release.py:419-524 | If none of the `D` decoders that appear as backends has a case gap, checked rows are `D` times the rows of the end-to-end cases and equal unique-optimum rows plus tie rows. |
| `Coverage.DeclaredRowsAreAccounted` | tools/check_envelope_release.py:527-559 | A declared summary without a gap then satisfies the same identity. |
| `Gate.DecoderCoverage` | tools/check_envelope_release.py:576-607 | The gaps of one decoder in all reports, or the expansion error that stops them. |
| `Gate.MlePlanGaps` | tools/check_envelope_release.py:714-869 | The loop over required cases with its early end computes the gaps of the scope plan, or the crash of a record without a wall time. |
| `GateLoads.LastCaseIs` | tools/check_envelope_release.py:714-869 | Of several correctness cases of one name the plan is checked against the last. |
| `GateLoads.LastRecordIs` | tools/check_envelope_release.py:714-869 | Of several measurements of one workload the last counts. |
| `GateLoads.LastResultIs` | tools/check_envelope_release.py:714-869 | Of several records of the MLE decoder for one control the last counts. |
| `GateDecision.Evaluate` | tools/check_envelope_release.py:872-1031 | Reading the evidence, collecting gaps and deciding decoder by decoder computes the gate report. |
| `GateLoads.DocumentsAreLoaded` | tools/check_envelope_release.py:872-948 | What the gate decides by comes from its files: each document is the one in its file, used if and only if it has the right schema; the MLE report only where it is enforced; the installed report of every target asked for, and of no other. |
| `GateReports.ProposalIsRecorded` | tools/check_envelope_release.py:894-953 | The report has one entry per decoder, in order, with the declared maturity; its proposal is `supported-candidate` if and only if the matrix declares that for the decoder, or the decoder is MLE and a readable scope plan that was given proposes it, and is the declared one otherwise. |
| `GateReports.DecisionIsRecordedAs` | tools/check_envelope_release.py:945-981 | The recorded decision is supported or beta; a decoder that is proposed is supported if and only if nothing blocks it, and nothing blocks it if and only if shared evidence, its own coverage and for MLE the plan are in order; a decoder that is not proposed stays beta with nothing blocking. |
| `GateReports.ProposedPlanIsTested` | tools/check_envelope_release.py:904-996 | Where a plan alone proposes the MLE decoder and its coverage or its plan has a gap, the decoder is held at beta with a blocking gap and the gate fails. |
| `GateReports.StatusIsRecorded` | tools/check_envelope_release.py:983-996 | The status is pass if and only if the shared evidence is in order and nothing blocks any decoder, which is when no gap is reported. |
| `GateReports.GapsAreRecorded` | tools/check_envelope_release.py:945-994 | The gaps of the report are the shared ones and one for every decoder that is held back. |
| `GateReports.PassingIsOfCandidate` | tools/check_envelope_release.py:134-276 | Where the gate passes, the matrix precedes the candidate, and the three documents and the report of every target are there, passed, and are of the candidate itself or of a revision listed as equivalent to it. |
| `GateReports.DigestsAreRecorded` | tools/check_envelope_release.py:983-1031 | The digests in the report are those of the matrix, the policy, the plan, and of exactly the documents and installed reports the gate went by. |
| `GateLaws.SupportedIff` | tools/check_envelope_release.py:950-981 | A decoder is supported if and only if it is proposed, the shared evidence has no gap and its own evidence, with the MLE plan for the MLE decoder, has none. |
| `GateLaws.GatePassesIff` | tools/check_envelope_release.py:945-996 | The gate passes if and only if the shared evidence has no gap and every proposed decoder is supported. |
| `GateLaws.NoCoverageGapIff` | tools/check_envelope_release.py:576-607 | Coverage has no gap if and only if every control passed in every report, every end-to-end case is sound and the resource cases are there. |
| `GateJustified.SupportedIffJustified` | tools/check_envelope_release.py:872-996 | A decoder is supported if and only if it is proposed, the matrix precedes the candidate, the policy has all its sections, every document and installed report is there, passed and is bound to the candidate, the summary is right, its coverage is full, and for envelope-mle its plan is fulfilled. |
| `GateJustified.SharedEvidenceIff` | tools/check_envelope_release.py:142-276 | The gaps every decoder shares are empty if and only if ancestry, policy, retained report, the three documents, the summary and the report of every target are in order. |
| `GateJustified.NoPlanGapIff` | tools/check_envelope_release.py:714-869 | The scope plan has no gap if and only if the declared workloads are the required ones, the report replays without a problem, and every required case is met by evidence of its own kind, within budget and with the pinned identity. |
| `GateLaws.MleFilesDoNotInterfere` | tools/check_envelope_release.py:894-994 | The decision on every other decoder is the same for any two scope plans and MLE resource reports with which the gate ends. |
| `GateLaws.EvaluateOkIff` | tools/check_envelope_release.py:872-996 | The gate ends if and only if everything loads and every decoder can be decided. |
| `GateLaws.MleFilesStopTheGateIff` | tools/check_envelope_release.py:714-869 | Other MLE files stop a gate that would end if and only if the resource report is no JSON, or a proposed and declared MLE decoder has evidence that cannot be judged. |
| `GateLaws.UntimedWorkloadStopsTheGate` | tools/check_envelope_release.py:829-834 | With a proposed MLE decoder, one required workload that was measured without a wall time ends the gate without a report. |
| `GateLaws.UntimedWorkloadIsNamed` | tools/check_envelope_release.py:778-834 | Where the matrix can be read and the replay ends, the gate then ends with the crash on the first required workload that was measured without a wall time. |
| `GateWitness.WitnessStops` | tools/check_envelope_release.py:829-834 | In any world where three texts are a matrix, the scope plan with all its cases, and a report whose replay ends with its missing machine and whose one record has no wall time, the gate ends on the name of that workload. |
| `GateLaws.DecoderOrderIsIrrelevant` | tools/check_envelope_release.py:949-996 | Declaring the decoders in another order changes no decision, nor the status of the gate, nor anything else in its report but the digest of the matrix and the order of decisions and gaps. |
| `Checksums.ParseChecksums` | tools/check_envelope_publication.py:711-724 | The loop reads a listing or reports its first bad, unsafe or duplicate line; without the path rules it is the listing of a release. |
| `ListingLaws.ParseLinesIff` | tools/check_envelope_publication.py:711-724 | A text is accepted if and only if each line has a digest, two spaces and a name that stays below the directory, and no name comes twice; it then yields exactly these names with their digests. |
| `ListingLaws.ParseStopsAt` | tools/check_envelope_publication.py:711-724 | Of any other text the first line at which it stops being a listing is reported, as badly formed, unsafe or repeated. |
| `ListingLaws.LinesSplit` | tools/check_envelope_publication.py:711-714 | A text is split at every line break, the pair of carriage return and line feed being one; breaks are no part of the lines. |
| `ListingLaws.OneLine` | tools/check_envelope_publication.py:711-714 | A text without breaks is one line, the empty text none. |
| `Checksums.ListingRoundTripsIff` | tools/check_envelope_publication.py:692-724 | A written listing, of a bundle or of a release, reads back as what was listed if and only if every name fits the grammar of its kind. |
| `Publication.PathsDiffer` | tools/check_envelope_publication.py:614-695 | Different members of a bundle have different paths. |
| `Publication.DeriveDecoders` | tools/check_envelope_publication.py:130-172 | The claims of all decoders, refused exactly when one has no supported or beta decision. |
| `ClaimLaws.DerivedClaimsSay` | tools/check_envelope_publication.py:130-172 | With decoder names unique there is a claim for exactly the decoders of the matrix; each has the objective, features, limits and limitations declared for that decoder, the decision of the gate, and as its scope the text of the plan for MLE where there is a plan, the statement of the matrix otherwise. |
| `ClaimLaws.ScopesAreApart` | tools/check_envelope_publication.py:153-166 | With a plan the MLE claim does not depend on the statement of the matrix, and no other claim ever depends on the plan. |
| `ClaimLaws.SupportedNamesAre` | tools/check_envelope_publication.py:175-176 | The supported decoders are exactly those with a supported claim, each once, in ascending order. |
| `ClaimLaws.VersionOfTag` | tools/check_envelope_publication.py:179-248 | The tag `v` a `.` b `.` c has the version a, b, c. |
| `ClaimLaws.TagOfVersion` | tools/check_envelope_publication.py:179-248 | Every tag with a version is of that form, without leading zeros. |
| `ClaimLaws.NotNewerIff` | tools/check_envelope_publication.py:179-248 | Versions compare number by number. |
| `Publication.CheckPublishedSupportBindings` | tools/check_envelope_publication.py:179-248 | Accepts exactly the tags that are no semantic version, and the releases whose supported decoders all have a canonical durable record. |
| `Publication.CheckGateReport` | tools/check_envelope_publication.py:262-315 | Accepts exactly the passing gate reports that bind candidate, matrix, policy, retained report, evidence and installed reports. |
| `Publication.CheckEvidenceCompleteness` | tools/check_envelope_publication.py:400-428 | Accepts exactly the evidence without a summary gap and without a coverage gap for any supported decoder. |
| `BundleBuild.CollectRetainedResources` | tools/check_envelope_publication.py:431-465 | The retained files, refused exactly when the manifest is bad, a path climbs up, or a named raw file is missing or differs from its recorded digest. |
| `ClaimLaws.LastShaIsRecorded` | tools/check_envelope_publication.py:448-464 | Of several cases with one raw file the last says which digest the file has to have. |
| `BundleBuild.BuildBundle` | tools/check_envelope_publication.py:553-703 | A build succeeds exactly when its inputs pass all its checks; the bundle holds every input, the record, the summary and the listing of all of them, it is packed under its name, and the checksum file names it and its digest. |
| `ClaimLaws.RecordSaysVersion` | tools/check_envelope_publication.py:657-660 | The record names the tag it was built for, and the version is the tag without its `v`. |
| `ClaimLaws.RecordListsRetained` | tools/check_envelope_publication.py:651-688 | The record lists exactly the retained files of the bundle, each with its digest. |
| `BundleVerify.VerifyExtracted` | tools/check_envelope_publication.py:792-1096 | Accepts exactly the bundles that meet all checks of listing, record, release, contents, evidence, retained files, platforms, completeness, claims and expected decoders. |
| `BundleVerify.VerifyReleaseDir` | tools/check_envelope_publication.py:757-789 | Accepts exactly the directories with one bundle whose checksum file matches and whose contents are accepted. |
| `ClaimLaws.AcceptedClaimsSay` | tools/check_envelope_publication.py:1066-1075 | The record of an accepted bundle has a claim for exactly the decoders of its matrix, and says of each what matrix, gate report and plan in the bundle say; it lists as supported exactly those with a supported claim. |
| `ClaimLaws.VerifiedIsRecord` | tools/check_envelope_publication.py:1066-1096 | What the verifier returns is what the record of the accepted bundle says. |
| `ClaimLaws.ReleaseListingIsTrue` | tools/check_envelope_publication.py:831-849 | The checksum file of an accepted release names the archive of every official target and nothing else, each with the digest of the file in the directory. |
| `Agreement.ListingAcceptedIff` | tools/check_envelope_publication.py:692-809 | The listing of a built bundle is accepted if and only if the member names fit the checksum grammar. |
| `NamesFit.NamesGoodIff` | tools/check_envelope_publication.py:614-724 | The names of all members of a bundle fit the grammar of its listing if and only if those of the retained files do. |
| `Agreement.SidecarAccepted` | tools/check_envelope_publication.py:698-784 | The name of the bundle and the checksum file beside it are what the verifier asks for. |
| `Agreement.BuiltBundleIsAcceptedIff` | tools/check_envelope_publication.py:792-1096 | The same of the unpacked bundle. |
| `Agreement.PublishedBundleIsAcceptedIff` | tools/check_envelope_publication.py:553-1096 | In a directory with the manifest, the archives and their listing, the built bundle and its checksum file and no other bundle, and for decoders among the supported ones, the verifier accepts if and only if the gate required the official targets, every retained case pins its raw file, the names of the retained files fit the grammar and the MLE replay passes where it is needed. |
| `BundleWitness.RepeatedRawIsBuiltAndRefused` | tools/check_envelope_publication.py:450-464 | Concrete inputs that build, in any faithful codec where their texts are read as the given documents and every digest is that of its file; the retained manifest names a raw file twice and pins it in the last case only, and the verifier refuses every release with a bundle made of them. |
| `BundleWitness.PublishRepeatedRaw` | tools/check_envelope_publication.py:553-789 | Such a release exists: the build makes the bundle, with manifest, archives and listing beside it, and the verifier refuses the directory. |
| `Determination.AcceptedIsTied` | tools/check_envelope_publication.py:851-1078 | Acceptance ties matrix, policy, plan, evidence, retained manifest, raw observations, portable reports and claims of a bundle to the digests and decisions in its gate report. |
| `Determination.ClaimsAgree` | tools/check_envelope_publication.py:130-176 | Claims derived from one matrix and one gate report agree on every maturity, and in full on every supported decoder, whichever plans are bundled, as long as these agree where MLE is supported. |
| `Determination.AcceptedBundlesAgree` | tools/check_envelope_publication.py:792-1096 | If no two different texts of two accepted bundles have one digest, and both have the same gate report bytes, they carry the same matrix, policy, source revision, retained manifest and raw observations, the same plan and evidence where both carry them, the same machine-independent installed reports, and advertise the same maturities, supported decoders and full claims of these. |
| `GatePublishes.PassingGateIsPublishable` | tools/check_envelope_publication.py:262-315 | The report of a gate that passed for the official targets is accepted by the publication for the same candidate, matrix and policy. |
| `GateToBuild.PassingGateBuildsIff` | tools/check_envelope_publication.py:262-428 | From a gate that passed, the build of the same files is accepted if and only if tag, manifest, archives, bindings and retained files fit, no document or report is waived by equivalence, the reports are ILP-capable and name the published archives, and the gate read a passing MLE report. |
| `GateToRelease.PassingGateIsAcceptedIff` | tools/check_envelope_publication.py:553-1096 | From a gate that passed, with the build given the same files and the release holding what was built, build and verifier both accept, for any decoders the gate supports, if and only if what only the build checks holds, the gate ran for exactly the official targets, every retained case pins its raw file and the names of the retained files fit; the MLE replay and all else follow from the gate. |
| `DocsIndex.Document.HandleStartTag` | tools/build_docs_search.py:42-67 | The start-tag handler, field by field: page kind, skip stack, main, title, density, ids, headings, breaks. |
| `DocsIndex.Document.HandleEndTag` | tools/build_docs_search.py:69-97 | The end-tag handler: leaving skipped elements, closing headings with an anchor, closing sections, breaks. |
| `DocsIndex.Document.HandleData` | tools/build_docs_search.py:99-110 | Text goes to the title, the open heading, or the parts and prose of the current section. |
| `DocsIndex.Document.FindAnchor` | tools/build_docs_search.py:79-83 | The suffix loop ends on every finite set of ids, with the anchor the specification searches for, which is not taken. |
| `DocsIndex.Index` | tools/build_docs_search.py:124-128 | Two passes: all ids of the page first, then the run of the machine with them. |
| `DocsIndexLaws.CompactKeepsInk` | tools/build_docs_search.py:12-13 | Compacting changes white space only, and gives nothing exactly for blank text. |
| `DocsIndexWords.CompactIsSpaced` | tools/build_docs_search.py:12-13 | Compacting keeps the words, in order, and the result has no white space at its ends and only single spaces inside. |
| `DocsIndexWords.SpacedIsJoined` | tools/build_docs_search.py:12-13 | Only one text has these words and is spaced like that. |
| `DocsIndexLaws.StreamConserves` | tools/build_docs_search.py:42-115 | For every event stream: what the machine holds grows by the text inside `main` outside skipped elements, less the text of headings cut off by headings; prose loses nothing. |
| `DocsIndexLaws.TextIsPublishedIff` | tools/build_docs_search.py:42-135 | For every event stream, the published sections hold exactly the text inside `main` outside skipped elements if and only if no heading that has text is open when another opens, and at the end no text is left in an open heading or in a section that was not filed; both conditions speak of the events alone. |
| `DocsIndexWords.WordsArePublished` | tools/build_docs_search.py:42-135 | For every event stream that publishes all its text, headings and parts of the sections have in turn exactly the words inside `main` outside skipped elements; blocks, headings and sections separate words, nothing else does. |
| `DocsIndexWords.ExcerptsArePublished` | tools/build_docs_search.py:42-135 | For every event stream with nothing pending at its end, the prose of the sections has exactly the words outside headings, `pre` and `table`, separated in the same way. |
| `DocsIndexWords.HeadingsAreSpaced` | tools/build_docs_search.py:69-90 | Every published heading is written with single spaces between its words. |
| `DocsIndexRecords.TitleIsKept` | tools/build_docs_search.py:42-103 | For every event stream, the title of the page is the text inside `title` outside skipped elements. |
| `DocsIndexRecords.Records` | tools/build_docs_search.py:129-137 | The loop makes one record per section, with heading or page title, link, text, excerpt and kind. |
| `DocsIndexRecords.PageIsSearchable` | tools/build_docs_search.py:112-137 | The records of a page that publishes all its text have in turn exactly its words, and their excerpts those of its prose; titles, texts and excerpts are written with single spaces. |
| `DocsIndexPages.NestedHeadingLosesText` | tools/build_docs_search.py:60-63 | Reading `<main><h2>a<h3>b</h3></h2></main>`, the sections hold the `b` and not the `a`. |
| `DocsIndexPages.UnclosedHeadingLosesText` | tools/build_docs_search.py:87-89 | Reading `<main><h2>a</main>`, no section is published. |
| `DocsIndexTree.SkippedElementChangesNothing` | tools/build_docs_search.py:44-49 | A balanced skipped element leaves the whole state unchanged but for the page kind that a `body` tag sets. |
| `DocsIndexTree.PageIsConserved` | tools/build_docs_search.py:42-115 | On every well-nested page the sections' headings and parts are exactly the text of `main` outside skipped elements, modulo white space, their prose exactly the part outside `pre`, `table` and headings, and nothing is left in the machine. |
| `DocsIndexAnchors.AnchorIsFresh` | tools/build_docs_search.py:77-84 | A generated anchor is the first of slug, slug-2, slug-3, ... that is not taken. |
| `DocsIndexRecords.SlugIsJoined` | tools/build_docs_search.py:77-78 | The slug of a title is its runs of ASCII letters and digits in lower case, joined by single hyphens, or `section` if it has none. |
| `DocsIndexAnchors.MadeAvoidTheWholePage` | tools/build_docs_search.py:74-86 | Generated anchors are pairwise different and differ from every id of the page, later ones included. |
| `DocsIndexAnchors.LinksAreUnambiguous` | tools/build_docs_search.py:112-128 | Two sections share an anchor only if the page spells out that id. |
| `Crates.PackageErrors` | tools/check_crates_io.py:21-38 | The checks of one package find nothing exactly when it may be published at its place in the order. |
| `Crates.EnabledFeatures` | tools/check_crates_io.py:43-52 | The loop ends on every feature table and computes exactly the features reachable from the defaults. |
| `Crates.LeastClosed` | tools/check_crates_io.py:43-52 | Every closed set with the defaults contains the reachable features. |
| `Crates.ReachableIsClosed` | tools/check_crates_io.py:43-52 | The reachable features contain the defaults and are closed. |
| `Crates.MetadataErrors` | tools/check_crates_io.py:13-67 | The check fails on a missing package it names, and otherwise finds nothing exactly when order and binaries are right. |
| `Crates.CompatibilityIff` | tools/check_crates_io.py:58-61 | The compatibility binary is in order if and only if exactly one binary target has its name and requires the `cli` feature. |
| `Crates.PrefixesAreClosed` | tools/check_crates_io.py:31-38 | With no error, every prefix of the order is closed under non-dev workspace dependencies. |
| `Crates.WalksDescend` | tools/check_crates_io.py:31-38 | With no error, the published dependency graph is acyclic. |
| `Crates.PackageAndUnpack` | tools/check_crate_consumer.py:84-125 | The calls are made in order, each patching in exactly what was unpacked before it; the run succeeds exactly when all names are known and all calls succeed. |
| `Crates.UnpackedIs` | tools/check_crate_consumer.py:84-125 | What is patched in names exactly the packages so far, each in the directory of its own name and version. |
| `Crates.RunHasDependencies` | tools/check_crate_consumer.py:90-124 | With no metadata error, every call is given all workspace dependencies of its package. |
| `CliHelp.HelpSubcommands` | tools/build_cli_reference.py:204-218 | The scan over lines computes the subcommands. |
| `CliHelpEntries.CommandNameIff` | tools/build_cli_reference.py:204-218 | A line names a command if and only if it is two spaces, a letter, letters, digits, underscores and hyphens, and then nothing or white space. |
| `CliHelp.SubcommandsAreListed` | tools/build_cli_reference.py:204-218 | It finds, once each, exactly the commands other than `help` that stand in some command section. |
| `CliHelp.CollectHelp` | tools/build_cli_reference.py:221-242 | The worklist emits the levels of the command tree in order, or reports the first command without help. |
| `CliHelpEntries.EntrySays` | tools/build_cli_reference.py:221-242 | The command line of an entry has the words of the command, its anchor is the same with hyphens, its help is what the executable printed. |
| `CliHelp.LevelIsComplete` | tools/build_cli_reference.py:221-242 | Level `d` holds exactly the commands of `d` words. |
| `CliHelp.WalkIsComplete` | tools/build_cli_reference.py:221-242 | For every finite command tree, each reachable command is emitted exactly once, parents before children, in non-decreasing depth, and nothing else. |

## Left out

- Subprocesses, git, the GitHub interface, the file system, tar and gzip, argument parsing, report rendering and self-tests: replaced by parameters or dropped.
- `splitlines` and `join` around `annotate`: the pass works on the list of lines. `\d` and `int` are modelled for ASCII digits.
- Circuits with `CX` on `rec` targets or measurement arguments such as `M(p)`: the text pass covers them, the machine of `LossVisibleCircuit` does not.
- Floating point: intervals are exact reals followed by an arbitrary monotone rounding; the generator is an arbitrary index stream, not the Mersenne Twister; NaN and infinities do not occur.
- Python's equality of `True` and `1`, and JSON texts with surrogates, NaN or repeated keys.
- `RulesetDrift.ReviewedBypassErrors`: parsing timestamps is a parameter, bypass actors are given as sets, and the loop over the rulesets of a repository is not modelled.
- `SupportMatrix.RunChecks`: the comparison of one observed run with its expectation is a parameter, and the `only` filter of a partial run is not modelled.
- `SupportMatrix.ValidateMatrix`: says when the matrix is refused, not which of several errors is reported.
- `GateDecision.Evaluate`: the check of the retained resource report comes in as its outcome and its gaps, gaps are data instead of messages, the path and flag fields of the report other than hashes and decisions are dropped, and a target listed twice repeats its gaps.
- `Coverage.RecomputedCoverage`: noise channels are a set instead of a sorted list.
- Missing keys that end in a `KeyError`, except where a lemma is about them: documents are records with the fields the code reads, a missing text being empty.
- `BundleBuild.BuildBundle`: input files are given as their contents, so the refusal of a file that does not exist is modelled only where files come in maps; package, asset and compiler records of the release manifest are one opaque condition.
- `BundleVerify.VerifyExtracted`: says when a bundle is refused, not which of several reasons is reported; paths are compared as texts, without the normalisation of a file system.
- `GateLaws.DecoderOrderIsIrrelevant`: about two matrices whose decoders are the same and differently ordered, not about their bytes, which differ.
- `DocsIndex.Document.HandleEndTag`: lower-casing in slugs is that of ASCII letters.
- `DocsIndexRecords.Records`: the walk over the pages of a site and the choice of the pages that are indexed are not modelled.
- `CliHelp.CollectHelp`: the height of the command tree is assumed to be finite; on an infinite tree the walk does not end.
- The Rust crates, the native-matrix and README checks, the gallery and the site copy: other programs, or facts of a single branch.
