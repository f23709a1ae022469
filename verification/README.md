# Impulse governance core, modelled and proved in Dafny

This project models the parts of the `impulse-rs` crate on which its governance rests, and proves
what those parts promise. `dafny verify dfyconfig.toml` checks everything.

**Configuration pin and parser.** `ConfigParser`, `JoinLaws`, `IncludeLines`, `ValueGrammar`,
`IncludeRoundTrip`, `IncludeSections` and `IncludeValues` model the byte-level Git configuration
reader: joining continued lines, unquoting values, finding include paths. `ConfigChain` is the
worklist walk over configuration files and their includes; `ChainIdentity` and `ChainClosure` say
what an equal pin means, and `SharedConfig` puts the three digests of worktree-shared configuration
together. Digests are modelled by the byte stream fed to the hash. How a path canonicalizes, and
which file it denotes, are parameters shared by the states being compared.

**Source manifest.** `SourceTree`, `SourceManifest`, `ManifestBuilder` and `ManifestIdentity` model
the capped recursive walk over a source tree and prove that its byte stream identifies the tree.
`Encoding` holds the fixed-width and length-prefixed fields both streams are made of.

**Producers.** `GitProbe` and `Producer` model what a bounded Git invocation can come to and the
clean-subject observation, against a world that anybody may change between two probes.
`GitRepository` is branches, reflogs, HEAD and working trees. `Promotion` is promotion as a step
machine with any number of attempts, other writers, crashes and retries; `PromotionSafety` proves
what holds of every run, `PromotionGates` which gates every attempt passed, `PromotionLanding` on
which branch a promotion landed and `PromotionFindings` when its findings are true;
`PromotionAttempt` is the producer as sequential code, proved to be an attempt of that machine;
`PromotionRetry` and `PromotionDecision` are what an undisturbed attempt, and so a retry, decides.
`Verification` is the claim producer and the verification producer, `VerificationOutcome` exactly
what they let through and record.

**Loop contract.** `CanonicalJson`, `JsonDecoder`, `JsonWriter` and `CallKey` model the canonical
printer, with a decoder that inverts it. `LoopHistory` gives the plain definition of every counter
over a whole history, `LoopContract` (in `LoopBreaker.dfy`) is the incremental breaker, `ToolLoop`
the driver that stops at the first trip, `ObservedBudget` the judgement of a task's durable record and
`ErrorSignature` the line that names a failure. `Streaks` and `Sorting` are the underlying laws.

**Smaller cores.** `Settlement` is the settlement constructor, `Telemetry` the terminal telemetry
store, `CappedReader` the capped pipe reader.

## What was found

The following statements are weaker than the documentation beside the code, because the code is.

- The reset that follows a landed promotion swap moves whatever branch HEAD names then. With nobody
  acting between the swap and the reset, a third party's branch is still lost when HEAD was pointed
  at it after the promotion probed its branch and before the swap (`RepointedHeadLosesABranch`).
  `SafeExactlyWhenHeadIs` gives the exact condition on HEAD, and `PromotersOverwriteOnlyExpected`
  holds for every schedule that meets it.
- A probe counts as killed only when its exit status is missing. A probe that another process ended
  with a signal has a status, and is read as a plain "no" (`SignalledProbeReadsAsNo`). So a finding
  can be false: exactly when its probe ended without exiting cleanly although the true answer was
  "yes" (`FindingsAreTrueUnlessMisled`).
- A swap killed by a signal after the ref moved is therefore reported as lost to a concurrent writer,
  with the branch moved (`SignalledSwapEndsBlocked`). Blocked means that nothing was changed exactly
  when this did not happen (`BlockedChangedNothing`).
- The configuration walk visits a file under the first spelling it meets. When a link puts another
  spelling of the same file in another directory, a relative include can lead to another file from
  there and is missed, so equal pins can hide a change (`DisagreeingSpellingsHideAChange`,
  `LinkedFileHidesAnEdit`). Where the spellings a file is reached under agree on where its includes
  lead, as `..` spellings do (`SameDirectoryAgrees`), the pin covers the whole include closure
  (`VisitedIsTheClosure`, `EqualPinsSameClosure`).
- A branch that merely sits at the accepted commit is blocked only if that commit is not also the
  initial one; if it is, the attempt swaps and promotes (`UndisturbedAttempt`).
- A settlement built under a cap above eight does not re-validate from its own wire form
  (`RevalidatesIff`).

## Model

| member | source | states |
|---|---|---|
| `ConfigParser.JoinContinuedLines` | impulse-rs/src/governed_producers.rs:2103-2142 | the loop over physical lines gives exactly the logical lines of the recursive definition |
| `JoinLaws.JoinKeepsContent` | impulse-rs/src/governed_producers.rs:2103-2142 | the logical lines concatenate to the physical ones less continuation backslashes, newlines and trailing carriage returns |
| `JoinLaws.CommentsSurvive` | impulse-rs/src/governed_producers.rs:2095-2116 | the comment lines of the output are exactly those of the input, in order |
| `JoinLaws.JoinStopsAtCompleteLine` | impulse-rs/src/governed_producers.rs:2117-2139 | a line with an even run of trailing backslashes, or a comment, ends its logical line: what follows is joined independently |
| `JoinLaws.ContinuationUndone` | impulse-rs/src/governed_producers.rs:2088-2142 | splitting a value line anywhere in a file, its unterminated last line included, by a backslash and a newline is undone, under the stated conditions on the two parts |
| `ConfigParser.ConfigValue` | impulse-rs/src/governed_producers.rs:2147-2170 | the byte loop computes the recursive unquoting, trimmed, or nothing when empty |
| `ValueGrammar.ReadsTheTokens` | impulse-rs/src/governed_producers.rs:2147-2170 | a text spelled by tokens (a byte for itself, an escaped byte, a quote) is read as what they say, up to a comment outside quotes or a dangling backslash |
| `ValueGrammar.EveryTextIsSpelled` | impulse-rs/src/governed_producers.rs:2147-2170 | every text is spelled by such tokens and such a leftover, so that grammar says what any text means |
| `ValueGrammar.ValueIsTheMeaning` | impulse-rs/src/governed_producers.rs:2147-2170 | a value is that meaning trimmed, and there is none exactly when it is blank |
| `ValueGrammar.BareValue` | impulse-rs/src/governed_producers.rs:2147-2170 | unquoted text ends at the first `#` or `;` and is its own value, trimmed |
| `ValueGrammar.BareIncludesReadBack` | impulse-rs/src/governed_producers.rs:2037-2181 | unquoted include lines, whatever comments follow the values, read back as exactly those values, resolved and in order |
| `ConfigParser.IncludeOne` | impulse-rs/src/governed_producers.rs:2040-2064 | what one logical line names and the section it leaves open |
| `ConfigParser.ConfigIncludePaths` | impulse-rs/src/governed_producers.rs:2037-2067 | the loop over logical lines names exactly the include paths of the recursive definition, in order |
| `IncludeLines.FileReadsLineByLine` | impulse-rs/src/governed_producers.rs:2037-2067 | below a header a file names what each of its lines names in that section, in order |
| `IncludeLines.KeyDecides` | impulse-rs/src/governed_producers.rs:2052-2064 | an assignment names its value exactly in an include section and under the key `path`, in any letter case and padding |
| `IncludeLines.LowerIgnoresCase` | impulse-rs/src/governed_producers.rs:2046-2056 | lowering identifies exactly the texts that differ in ASCII letter case |
| `IncludeLines.TextAroundTrim` | impulse-rs/src/governed_producers.rs:2041-2055 | every text is its trimmed text between whitespace |
| `IncludeLines.TrimDropsBlanks` | impulse-rs/src/governed_producers.rs:2041-2055 | trimming drops the ASCII whitespace around a text and nothing else |
| `IncludeLines.CommentHidesNothing` | impulse-rs/src/governed_producers.rs:2095-2116 | a comment line, even one ending in a backslash, names nothing and hides nothing after it |
| `IncludeLines.OpenHeaderIsIgnored` | impulse-rs/src/governed_producers.rs:2042-2045 | a header that is never closed names nothing and leaves the section as it is |
| `IncludeLines.CarriageReturnIsDropped` | impulse-rs/src/governed_producers.rs:2106-2107 | a carriage return before a newline is no part of the line, wherever the line stands |
| `IncludeRoundTrip.RenderedIncludesReadBack` | impulse-rs/src/governed_producers.rs:2037-2181 | any list of nonempty trimmed one-line values, rendered quoted and escaped under an include header, reads back as exactly that list, resolved, in order |
| `IncludeSections.SectionDecides` | impulse-rs/src/governed_producers.rs:2041-2052 | values under a header are found exactly when the section is spelled `include` or starts with `includeif`, in any letter case |
| `IncludeSections.HeaderLineValue` | impulse-rs/src/governed_producers.rs:2042-2065 | a value on the header's own line is read in the section that header opens |
| `IncludeSections.DirectoryMattersExactly` | impulse-rs/src/governed_producers.rs:2172-2181 | the including file's directory matters exactly to values that are neither absolute nor below a known home |
| `IncludeValues.ValuesInRenderable` | impulse-rs/src/governed_producers.rs:2037-2170 | every value any file names is nonempty, on one line and trimmed, so it could have been rendered |
| `IncludeValues.NormalForm` | impulse-rs/src/governed_producers.rs:2037-2181 | every file names what the rendered file of its own values names, against any directory and home |
| `ConfigChain.DigestConfigChain` | impulse-rs/src/governed_producers.rs:1946-2012 | the worklist loop terminates on every include graph and yields the stream of the recursive walk, an error exactly when that walk is refused |
| `ConfigChain.PinnedExactlyWithARoot` | impulse-rs/src/governed_producers.rs:1971-2010 | nothing is pinned exactly when none of the files found is a root |
| `ChainIdentity.EncodeVisitsInjective` | impulse-rs/src/governed_producers.rs:1986-1995 | the length-prefixed stream of visits determines every path, content and absence |
| `ChainIdentity.EqualPinsEqualWalks` | impulse-rs/src/governed_producers.rs:1946-2012 | equal pins come from equal walks, even when the pin only says that no root exists |
| `ChainIdentity.PinEqualIffNothingVisitedChanged` | impulse-rs/src/governed_producers.rs:1940-2012 | two states give equal pins exactly when every file the first walk visited has the same bytes or absence in the second |
| `ChainIdentity.EqualPinsAcrossRetargeting` | impulse-rs/src/governed_producers.rs:1946-2012 | even when links were retargeted in between, equal pins over an existing root mean every visited file is unchanged |
| `ChainClosure.VisitsWithinBudget` | impulse-rs/src/governed_producers.rs:1961-1974 | no identity is visited twice and at most sixty-four are visited |
| `ChainClosure.VisitedIsReached` | impulse-rs/src/governed_producers.rs:1953-2007 | only files an include chain leads to from a root are visited |
| `ChainClosure.RefusedOnlyWhen` | impulse-rs/src/governed_producers.rs:1961-1985 | a walk is refused only when a reached file cannot be read or more than sixty-four are reached |
| `ChainClosure.QueuedComeFirst` | impulse-rs/src/governed_producers.rs:1952-2007 | queued files are read in order, before the files they include |
| `ChainClosure.VisitedIsTheClosure` | impulse-rs/src/governed_producers.rs:1940-2012 | where the spellings a file is reached under agree on where its includes lead, the visited files are exactly those of the include closure of the roots, no identity twice, at most sixty-four |
| `ChainClosure.EqualPinsSameClosure` | impulse-rs/src/governed_producers.rs:1946-2012 | where the spellings reached in the first state agree, equal pins mean both states reach the same paths and each is unchanged |
| `ChainClosure.SameDirectoryAgrees` | impulse-rs/src/governed_producers.rs:1785-1791 | spellings of a file in one directory, such as the `..` spellings a linked worktree's roots have, always agree |
| `ChainClosure.DisagreeingSpellingsHideAChange` | impulse-rs/src/governed_producers.rs:1959-1964 | wherever a value leads to different files from two spellings of an existing file, there are two states with equal walks in which a reached file differs |
| `ChainClosure.LinkedFileHidesAnEdit` | impulse-rs/src/governed_producers.rs:1959-1964 | two concrete states of a linked file with equal pins, one with an edited file the link's includes lead to |
| `SharedConfig.DigestFiles` | impulse-rs/src/governed_producers.rs:2188-2226 | the loop over a fixed list of files yields the stream of the recursive definition |
| `SharedConfig.EveryListedFileIsWatched` | impulse-rs/src/governed_producers.rs:2188-2226 | every listed file is digested, under the first spelling of its identity, and nothing else |
| `SharedConfig.WatchRefusedOnlyWhen` | impulse-rs/src/governed_producers.rs:2188-2226 | a list is refused only when one of its files cannot be read |
| `SharedConfig.FilesEqualIffUnchanged` | impulse-rs/src/governed_producers.rs:2183-2226 | equal file digests exactly when every listed file is unchanged |
| `SharedConfig.SharedRepositoryConfigDigest` | impulse-rs/src/governed_producers.rs:1896-1928 | the three components, refused exactly when a walk is refused or the repository has no config file |
| `SharedConfig.PinnableExactlyWhen` | impulse-rs/src/governed_producers.rs:1896-1928 | shared configuration is pinned exactly when the three walks go through and the repository config file is found |
| `SharedConfig.FirstDifferenceIsFirst` | impulse-rs/impulse-ops/src/governed_task.rs:378-389 | a component is named exactly when it is the first that differs, and none exactly for equal digests |
| `SharedConfig.PinHoldsIffNothingChanged` | impulse-rs/src/governed_producers.rs:1896-1928 | the gate names the first component of which a pinned file, an included or absent one too, is not what it was, and none exactly when all are |
| `ManifestBuilder.SourceManifestBuilder.AccountEntry` | impulse-rs/src/governed_producers.rs:180-189 | counts an entry exactly while the cap allows it |
| `ManifestBuilder.SourceManifestBuilder.AccountBytes` | impulse-rs/src/governed_producers.rs:190-199 | counts bytes exactly while the cap allows them |
| `ManifestBuilder.SourceManifestBuilder.VisitEntry` | impulse-rs/src/governed_producers.rs:233-299 | one entry: the records it adds to the stream, or the condition under which it is refused |
| `ManifestBuilder.SourceManifestBuilder.WalkDirectory` | impulse-rs/src/governed_producers.rs:221-302 | the sorted recursive walk feeds the hasher the records of the directory, and succeeds exactly when they are regular and fit both caps |
| `SourceTree.RecordsAreFindings` | impulse-rs/src/governed_producers.rs:221-302 | the walk lists a record exactly for what is found at its path |
| `SourceManifest.EncodeSplits` | impulse-rs/src/governed_producers.rs:200-299 | a record is self-delimiting in the stream |
| `SourceManifest.WellFormedListsValidRecords` | impulse-rs/src/governed_producers.rs:200-299 | what every file system guarantees is enough for a record to be encoded faithfully |
| `SourceManifest.StreamPinsTree` | impulse-rs/src/governed_producers.rs:149-302 | equal streams come from equal trees: paths, modes, kinds and bytes |
| `ManifestIdentity.AttestTree` | impulse-rs/src/governed_producers.rs:325-329 | attesting succeeds exactly for regular trees within both caps, with their manifest |
| `ManifestIdentity.AttestableExactly` | impulse-rs/src/governed_producers.rs:221-302 | a root is attested exactly when everything below it, its own `.git` aside, is a directory or a file of the size its metadata says, within the caps |
| `ManifestIdentity.ManifestEqualIffSameTree` | impulse-rs/src/governed_producers.rs:142-329 | two attested trees have equal manifests exactly when they are the same tree, the root's `.git` aside, in whatever order directories are enumerated |
| `GitProbe.LostProbesDoNotAnswer` | impulse-rs/src/governed_producers.rs:542-583 | a probe gives no answer exactly when it timed out, left no status or was never observed; a "yes" is only said of what is so; a "no" is said when it is so or when the probe ended without exiting cleanly |
| `GitProbe.SignalledProbeReadsAsNo` | impulse-rs/src/governed_producers.rs:569-583 | a probe ended by another process's signal is read as a "no" even when the answer is yes |
| `Producer.World.ObserveCleanSubject` | impulse-rs/src/governed_producers.rs:1007-1067 | the clean observation, root discovery first, probe by probe, against a world that changes between probes |
| `Producer.ObservedExactly` | impulse-rs/src/governed_producers.rs:1007-1067 | a commit is observed exactly when every probe exits cleanly and meets an own root, a clean tree, that HEAD and its descent; a foreign root and an unclean tree are reported exactly when met |
| `Producer.LostProbeIsNoFinding` | impulse-rs/src/governed_producers.rs:1000-1067 | an observation ends unknown exactly when one of its probes timed out, left no status or was never observed |
| `Producer.ObservedIsClean` | impulse-rs/src/governed_producers.rs:1014-1067 | an observed commit was HEAD of a worktree root just seen clean and descends from the registered commit |
| `Producer.FindingIsTrueUnlessBroken` | impulse-rs/src/governed_producers.rs:1014-1067 | root and cleanliness findings are true; "not descended" is found exactly when it is so or its probe ended without exiting cleanly |
| `GitRepository.CarriesMeans` | impulse-rs/src/governed_producers.rs:2493-2531 | a branch carries a promotion exactly when one of its newest twenty reflog entries is the promotion's and it and all above it are at the accepted commit |
| `GitRepository.BranchCarries` | impulse-rs/src/governed_producers.rs:2521-2530 | the loop over reflog entries decides that |
| `PromotionSafety.BlockedChangedNothing` | impulse-rs/src/governed_producers.rs:2600-2759 | in every interleaving, an attempt that ends Blocked or in an error not marked dispatched changed nothing at all exactly when none of its swaps was killed by a signal after the ref moved |
| `PromotionSafety.GitOnlyAfterComparison` | impulse-rs/src/governed_producers.rs:2641-2680 | in every interleaving, no Git step of an attempt precedes its own successful pin comparison |
| `PromotionSafety.LostProbeNeverDecides` | impulse-rs/src/governed_producers.rs:569-583 | a probe that timed out or left no status ends the attempt in an error, dispatched exactly from the swap on; after a lost swap it only falls back to the head seen before |
| `PromotionSafety.LandingMovesInitialToAccepted` | impulse-rs/src/governed_producers.rs:2533-2564 | a swap lands only on a branch at the initial commit and moves it to the accepted one, with its reflog entry |
| `PromotionSafety.MarkedMeansLanded` | impulse-rs/src/governed_producers.rs:2486-2491 | the promotion's reflog subject is present only if a swap of this promotion landed |
| `PromotionSafety.PromotedMeansLanded` | impulse-rs/src/governed_producers.rs:2699-2759 | in every interleaving, Promoted is reported only after a swap of this promotion landed and the attempt then saw HEAD, or a branch's reflog, at the accepted commit |
| `PromotionLanding.SubjectNamesTheMove` | impulse-rs/src/governed_producers.rs:2486-2491 | a reflog subject names the exact move, so a promotion from another commit to the same one has another subject |
| `PromotionLanding.MarkedInMeansLandedOn` | impulse-rs/src/governed_producers.rs:2486-2491 | a branch's reflog holds the promotion's subject only if a swap of this promotion landed on that branch |
| `PromotionLanding.PromotedSawItsBranch` | impulse-rs/src/governed_producers.rs:2699-2759 | a promoted attempt saw the very branch a swap landed on at the accepted commit, unless it swapped that branch itself and HEAD no longer named it |
| `PromotionFindings.BlockedIsJustified` | impulse-rs/src/governed_producers.rs:2641-2740 | in every interleaving, a blocked attempt reports a head it read, and its reason is what the deciding step met: no pin, a differing component, a moved head, or a branch or swap probe read as "no" |
| `PromotionFindings.FindingsAreTrueUnlessMisled` | impulse-rs/src/governed_producers.rs:556-583 | over every run, the findings not-descended, detached HEAD and concurrent update are true of the repository when made, exactly unless a deciding probe ended without exiting cleanly while the answer was "yes" |
| `PromotionSafety.PromotersOverwriteOnlyExpected` | impulse-rs/src/governed_producers.rs:2533-2599 | over every interleaving with no foreign change between a swap and its sync and HEAD safe when a swap is confirmed, every branch value a promotion replaces is the initial or the accepted commit |
| `PromotionSafety.HeadStillOnBranchIsSafe` | impulse-rs/src/governed_producers.rs:2686-2740 | HEAD still on the probed branch is enough for that |
| `PromotionSafety.SafeExactlyWhenHeadIs` | impulse-rs/src/governed_producers.rs:2566-2599 | a swap followed at once by its sync replaces only expected values exactly when HEAD was safe |
| `PromotionAttempt.PlayIsBounded` | impulse-rs/src/governed_producers.rs:2607-2759 | every attempt ends within seventeen steps |
| `PromotionAttempt.CanonicalBranchRef` | impulse-rs/src/governed_producers.rs:2373-2399 | the branch HEAD names, no branch, or an error |
| `PromotionAttempt.BranchCarriesThisPromotion` | impulse-rs/src/governed_producers.rs:2496-2531 | whether the newest reflog entries show this promotion's swap |
| `PromotionAttempt.CompareAndSwap` | impulse-rs/src/governed_producers.rs:2533-2564 | the swap's effect and result for every ending of its probe |
| `PromotionAttempt.SyncCanonicalWorktree` | impulse-rs/src/governed_producers.rs:2573-2599 | the reset's effect and result for every ending of its probe |
| `PromotionAttempt.PromoteGovernedOutcome` | impulse-rs/src/governed_producers.rs:2607-2759 | the sequential producer does what the step machine does, whatever happens around it |
| `PromotionGates.GatesWereOpen` | impulse-rs/src/governed_producers.rs:2641-2759 | over every run, an attempt past a gate found it open when it looked: no submodules, the pin equal, the staged tree a clean root at the accepted commit and a descendant, the canonical tree a clean root; after a sync, that tree again, at the accepted commit |
| `PromotionGates.SwapsAreAimed` | impulse-rs/src/governed_producers.rs:2690-2730 | over every run, a swap starts from the initial commit and is aimed at a local branch that HEAD named when the attempt probed it |
| `PromotionGates.PromotedBySyncOrRecognition` | impulse-rs/src/governed_producers.rs:2703-2759 | over every run, Promoted is reported only after the attempt's own sync exited cleanly, or for its landed swap recognised in the reflog of an existing branch |
| `PromotionAttempt.PlayIsARun` | impulse-rs/src/governed_producers.rs:2607-2759 | every call of the producer is a run of the step machine with the same end and the same repository |
| `PromotionAttempt.ProducerKeepsItsWord` | impulse-rs/src/governed_producers.rs:2600-2759 | so the two safety claims hold of every call, the second with its exact exception |
| `PromotionRetry.UndisturbedAttempt` | impulse-rs/src/governed_producers.rs:2686-2759 | all an undisturbed attempt with its gates holding can decide: recognise its landed swap and write nothing, block a moved branch and write nothing, or swap and sync |
| `PromotionRetry.DirtyIsRefused` | impulse-rs/src/governed_producers.rs:2688 | a canonical tree that is not clean refuses the attempt, which writes nothing |
| `PromotionDecision.PinRefuses` | impulse-rs/src/governed_producers.rs:2658-2680 | undisturbed, a pin that is missing or differs blocks the attempt at the HEAD read without Git, naming the first component that differs |
| `PromotionDecision.StagedTreeDecides` | impulse-rs/src/governed_producers.rs:2682-2686 | undisturbed, a staged tree that is no own root, not clean, no descendant or not at the accepted commit refuses the attempt with that reason, and nothing is written |
| `PromotionDecision.CanonicalTreeDecides` | impulse-rs/src/governed_producers.rs:2688 | undisturbed, a canonical tree that is no own root or not clean refuses the attempt with that reason |
| `PromotionDecision.HeadDecides` | impulse-rs/src/governed_producers.rs:2690-2698 | undisturbed, a detached HEAD is blocked at its commit and a branch that is not local refused |
| `PromotionDecision.PromotedExactlyWhen` | impulse-rs/src/governed_producers.rs:2607-2759 | undisturbed, an attempt promotes exactly when every gate is open and the branch shows its own swap or is at the initial commit with an accepted tree that checks out clean, and writes exactly in the latter case |
| `PromotionRetry.CarriedWhileFew` | impulse-rs/src/governed_producers.rs:2496-2531 | accepted-valued entries above a promotion's own keep it visible exactly while they are fewer than twenty |
| `PromotionRetry.RetryAfterCrash` | impulse-rs/src/governed_producers.rs:2699-2724 | after a crash between swap and sync a retry is refused until the tree is synced, and then reports the promotion and writes nothing |
| `PromotionRetry.RepointedHeadLosesABranch` | impulse-rs/src/governed_producers.rs:2566-2599 | HEAD re-pointed between branch probe and swap loses a third party's branch in an attempt that reports success |
| `PromotionRetry.SignalledSwapEndsBlocked` | impulse-rs/src/governed_producers.rs:2533-2564 | a swap killed by a signal after the ref moved ends Blocked, as lost to a concurrent writer, with the branch at the accepted commit |
| `Verification.EnsureStagedConfigPinHolds` | impulse-rs/src/governed_producers.rs:1165-1181 | the pin gate of claims and verifications, for every scope |
| `VerificationOutcome.GateRefusesExactly` | impulse-rs/src/governed_producers.rs:1165-1181 | the gate lets an equal pin through and nothing else of a staged task, and each refusal says what was met first |
| `Verification.DeriveClaim` | impulse-rs/src/governed_producers.rs:1196-1230 | the claimed subject, behind the gate |
| `VerificationOutcome.ClaimsExactlyWhen` | impulse-rs/src/governed_producers.rs:1165-1230 | a commit is claimed exactly when the gate passes and root, cleanliness, HEAD and descent are each seen by a probe that exits cleanly |
| `Verification.RunVerification` | impulse-rs/src/governed_producers.rs:1471-1611 | the producer's decisions and recorded commands are those of the specification, against any changing world, the three final observations each meeting events in its own order |
| `VerificationOutcome.RecordsExactlyWhen` | impulse-rs/src/governed_producers.rs:1471-1557 | a verification is recorded exactly when the claimed subject was seen, the detached worktree created and no command reached went unobserved |
| `VerificationOutcome.OutcomeExactly` | impulse-rs/src/governed_producers.rs:1500-1580 | what every record says: no commands, and Inconclusive, exactly when the lockfile probe or first attestation refused; else Inconclusive exactly when source head, detached head or bytes did not hold, and otherwise Failed or Passed as the last command did |
| `VerificationOutcome.EvidenceIsTrue` | impulse-rs/src/governed_producers.rs:1541-1557 | a command is recorded as successful exactly when it exited cleanly and in time |
| `Verification.NoGitBeforeThePin` | impulse-rs/src/governed_producers.rs:1165-1215 | a staged task's claim or verification goes past its filesystem reads only if the pin compared equal and there were no submodules |
| `Verification.ProbesDecideTheClaim` | impulse-rs/src/governed_producers.rs:1196-1230 | behind the gate, a claim ends unknown exactly when a probe was lost, and "not descended" exactly when it is so or its probe ended without exiting cleanly |
| `Verification.CommandsArePrefix` | impulse-rs/src/governed_producers.rs:1541-1557 | the commands run are a prefix of the steps in which only the last may have failed |
| `Verification.RecordedCommands` | impulse-rs/src/governed_producers.rs:1471-1611 | so are the commands of every recorded verification |
| `Verification.VerdictMeans` | impulse-rs/src/governed_producers.rs:1541-1580 | a verdict is given only when the source and detached heads were the claim afterwards and the detached tree is byte for byte the attested one; it is Passed exactly when the whole profile succeeded |
| `JsonDecoder.DecodeCanon` | impulse-rs/src/loop_contract.rs:636-671 | decoding the canonical text gives the value back, up to object key order |
| `JsonDecoder.CanonEqualIffSameValue` | impulse-rs/src/loop_contract.rs:636-671 | two canonical texts are equal exactly when the values are equal up to key order at every depth |
| `JsonWriter.CanonicalText` | impulse-rs/src/loop_contract.rs:638-671 | appending to one buffer with sorted keys writes exactly that text |
| `CallKey.KeyIdentifiesCall` | impulse-rs/src/loop_contract.rs:560 | call keys are equal exactly for the same tool and the same input up to key order, whatever the tool name contains |
| `LoopHistory.SortedKeysEqualIffPermutation` | impulse-rs/src/loop_contract.rs:529-535 | sorted batch keys are equal exactly when the batches are permutations of one another |
| `LoopHistory.CallStreakIsLongestRun` | impulse-rs/src/loop_contract.rs:560-567 | for every history, the repeated-call streak is the longest suffix of one call repeated |
| `LoopHistory.ErrorStreakIsLongestRun` | impulse-rs/src/loop_contract.rs:569-582 | for every history, the same-error streak is the longest suffix of failures with one tool and signature |
| `LoopHistory.RoundStreakIsLongestRun` | impulse-rs/src/loop_contract.rs:520-545 | for every history, the repeated-round streak is the longest suffix of nonempty closed rounds that are permutations |
| `LoopHistory.CallsByToolCounts` | impulse-rs/src/loop_contract.rs:557-558 | the per-tool counts are right and sum to the number of calls |
| `LoopContract.LoopBreaker.BeginRound` | impulse-rs/src/loop_contract.rs:495-504 | a round is refused exactly when the cap is spent; every counter keeps its definition |
| `LoopContract.LoopBreaker.AdmitCall` | impulse-rs/src/loop_contract.rs:510-518 | a call is refused exactly when the call budget is spent |
| `LoopContract.LoopBreaker.EndRound` | impulse-rs/src/loop_contract.rs:523-545 | the repeated-round trip fires exactly when that streak reaches the limit on a nonempty round |
| `LoopContract.LoopBreaker.ObserveCall` | impulse-rs/src/loop_contract.rs:551-602 | a repeated call trips exactly when its streak reaches its limit, and else a failed call exactly when the failure streak reaches its own, each with its payload |
| `LoopContract.LoopBreaker.ObserveCompaction` | impulse-rs/src/loop_contract.rs:489-491 | compactions are counted and nothing else changes |
| `ToolLoop.RunToolLoop` | impulse-rs/src/llm_backends/mod.rs:838-945 | the run does exactly what was requested, round by round and call by call, to its end, its cut or its first trip, which is the one reported; budgets refuse only when spent, and admitted calls are the observed ones plus the interrupted one |
| `ToolLoop.RequestedCallsOnly` | impulse-rs/src/llm_backends/mod.rs:838-945 | so the calls observed are the first of those requested |
| `ObservedBudget.ObservedTripsExactly` | impulse-rs/src/loop_contract.rs:167-189 | each trip of a record exactly when it is reported and with what: the round cap, then the clock in saturated milliseconds, then the failure streak |
| `ObservedBudget.HardCapsArePermanent` | impulse-rs/src/loop_contract.rs:167-180 | a spent round cap or an expired clock stays so however the record is extended |
| `ObservedBudget.StreakOfExtension` | impulse-rs/src/state/governed_task.rs:2119-2138 | more verifications lengthen a streak exactly while all fail alike, and otherwise leave their own |
| `ObservedBudget.SameErrorTripClearsExactlyWhen` | impulse-rs/src/loop_contract.rs:181-196 | while the caps are unspent, an extension clears a same-error trip exactly when some later verification did not fail alike and the later streak is below the limit |
| `ObservedBudget.FailureStreakIsLongestRun` | impulse-rs/src/state/governed_task.rs:2106-2138 | the streak of a record is its longest suffix of verifications that failed alike |
| `ObservedBudget.SignatureSaysWhatFailed` | impulse-rs/src/state/governed_task.rs:2106-2117 | only a failure has a signature: its first failing command, or else its notes, or else its policy |
| `ObservedBudget.TrailingVerificationFailureStreak` | impulse-rs/src/state/governed_task.rs:2121-2138 | reading the record backwards finds that suffix, its signature, and the streak the judgement uses |
| `ObservedBudget.RecordIsJudgedAsLive` | impulse-rs/src/state/governed_task.rs:1990-2004 | for every breaker history that observed the record's failures, the record's trip is the breaker's at its next round or at its last observation, with the same payload |
| `ObservedBudget.JudgeLive` | impulse-rs/src/state/governed_task.rs:1990-2004 | a breaker driven through the record's rounds and failures answers last what the record is judged as |
| `Text.TrimDropsBlanks` | impulse-rs/src/loop_contract.rs:625-632 | trimming drops the Unicode whitespace around a text and nothing else |
| `ErrorSignature.SignatureNamesTheFailure` | impulse-rs/src/loop_contract.rs:619-634 | detail after the first informative line and structural lines before it never change the signature |
| `ErrorSignature.SignatureIsBounded` | impulse-rs/src/loop_contract.rs:619-634 | a signature is the first 120 characters, or all if fewer, of an informative trimmed line, or of the trimmed whole when there is none |
| `Settlement.ReasonIffIneligible` | impulse-rs/src/settlement.rs:302-337 | a reason is given exactly to ineligible candidates: a stale basis with what moved, and else the first fatal check that did not pass, as failed or not concluded |
| `Settlement.CheckMatrix` | impulse-rs/src/settlement.rs:447-467 | the matrix is accepted exactly when populated and complete; a rejection names the least missing check |
| `Settlement.CheckFatalFlags` | impulse-rs/src/settlement.rs:469-482 | accepted exactly when each check is fatal everywhere or nowhere |
| `Settlement.CheckGrafts` | impulse-rs/src/settlement.rs:508-523 | accepted exactly when every graft's source is a candidate whose archive is on disk |
| `Settlement.CheckDissent` | impulse-rs/src/settlement.rs:525-545 | accepted exactly when dissent names candidates only and every passing loser |
| `Settlement.NewWithCap` | impulse-rs/src/settlement.rs:412-555 | the constructor succeeds exactly when the four-part contract holds, and otherwise reports the first part that fails, truly |
| `Settlement.Deserialize` | impulse-rs/src/settlement.rs:637-652 | reading a wire form succeeds exactly when the contract holds under the default cap |
| `Settlement.RevalidatesIff` | impulse-rs/src/settlement.rs:359-366 | a record re-validates to itself exactly while its graft archives exist and it has at most eight candidates |
| `Telemetry.PreserveOmittedSameSourceAgentFacts` | impulse-rs/src/ops_workbench.rs:120-161 | each incoming agent is merged with the last previous agent of its id and session, and nothing else changes |
| `Telemetry.LastByIdIsLast` | impulse-rs/src/ops_workbench.rs:124-129 | of several agents with one id the last is the one kept |
| `Telemetry.TerminalOpsTelemetryStore.Publish` | impulse-rs/src/ops_workbench.rs:74-90 | the whole new store: the merged record in place, then the purge |
| `Telemetry.PublishedStands` | impulse-rs/src/ops_workbench.rs:74-90 | a published record stands with the time it was received and the agents and sessions reported, unless over age already |
| `Telemetry.TerminalOpsTelemetryStore.FreshReports` | impulse-rs/src/ops_workbench.rs:92-109 | exactly the fresh reports of the project, each source once |
| `Telemetry.TerminalOpsTelemetryStore.PurgeExpired` | impulse-rs/src/ops_workbench.rs:111-118 | no empty project and no over-age record remains |
| `Telemetry.StoredIsAsReported` | impulse-rs/src/ops_workbench.rs:73-161 | for every run of operations and every agent, what is stored is as the reports of its session say since its record last appeared: the latest task, roles and governed task reported, and the highest revision reported with that task since another was named |
| `Telemetry.StepsNeverLose` | impulse-rs/src/ops_workbench.rs:120-161 | within a session no operation loses a known task or lowers its revision; another task is taken at its word, and a report of another session in every field |
| `Telemetry.StoreIsTidy` | impulse-rs/src/ops_workbench.rs:111-118 | after any operation of any run no project is empty and no record is over age |
| `Telemetry.OthersAreUntouched` | impulse-rs/src/ops_workbench.rs:73-118 | a record is only lost by age: no report of another source touches it |
| `CappedReader.ReadCapped` | impulse-rs/src/process_util.rs:209-235 | in both modes, the first `cap` delivered bytes and whether there were more; draining reads to the end, stopping reads at most one buffer past the cap |
| `CappedReader.DeliveredStopsAtFirstEnd` | impulse-rs/src/process_util.rs:213-233 | reading ends at end of file, a failure or a release, and goes on after an interruption |
| `CappedReader.ChunkingDoesNotMatter` | impulse-rs/src/process_util.rs:209-235 | the result does not depend on how the bytes are cut into chunks or interrupted |

## Left out

- Process spawning, reaping, signals, threads and real time: a probe is represented by how it ends.
- SHA-256: digests are compared by the byte streams fed to the hash.
- Git internals: refs and reflogs are data with an atomic compare-and-swap; an `update-ref` that exits
  with a failing code wrote nothing, and other writers do not write the promotion's reflog subject.
- The task checks before promotion touches the repository (scope, acceptance, an active worktree, a
  claim) and the syntax of object ids.
- Which paths `git status` may report without a subject change: a parameter of the observation.
- Resolving `.git` pointers into shared paths; the covered paths are a parameter.
- `~user/` in include paths and Git's own reading of configuration, from which the code differs on purpose.
- Numbers in JSON are opaque tokens; floating-point formatting is not modelled.
- Unicode's letter-or-digit table in error signatures is a parameter; the store's clock readings and
  the files on disk are parameters of the telemetry and settlement operations.
- Elapsed time, the context budget and the wire form of loop reports.
- Verification notes, evidence digests and cleanup.
- The text of settlement errors, and the syntax of settlement ids.
- Supervisor review, materialization and discarding of staged worktrees, desktop, TUI and CLI code,
  the memory pipeline: they would add plumbing or one-branch readings only.
- PromotersOverwriteOnlyExpected: holds for schedules without a foreign change between a swap and its sync, which the program documents as residual, and with HEAD safe at the swap, which it does not.
- VisitedIsTheClosure: needs the spellings a file is reached under to agree on where its includes lead; wherever two do not, states that hide a change are given beside it.
- LostProbesDoNotAnswer: a probe ended by a signal is not lost in this sense, because the code reads its status.
- BlockedChangedNothing: excepts a swap killed by a signal after it landed, which the code reports as Blocked.
- PromotedSawItsBranch: needs other writers to add the promotion's subject to no branch's reflog, and excepts a HEAD that left the swapped branch.
- RecordIsJudgedAsLive: needs bounded signatures to keep the recorded failures apart, because the record compares whole signatures and the breaker bounded ones.
- CompareAndSwap: an `update-ref` killed at its timeout and not yet reaped may land after the attempt has ended; here it lands at the attempt's own step or not at all.
