# ctsubmit: submission coordinator and chain discovery

This project models the parts of ctsubmit whose correctness spans several functions, and proves what
they promise. ctsubmit submits one certificate to many Certificate Transparency logs at once through
the endpoints of sections 4.1 and 4.2 of RFC 6962, and stops when a policy quorum of SCTs is in.

`dafny verify dfyconfig.toml` checks everything.

## What is modelled

**The submission coordinator.** `Quorum.dfy` defines the policy as a predicate on sets of logs
(`Satisfies`) and shows that the running totals of `quorumState` decide it. `KeepLaw.dfy` says which
SCTs trimming has to keep, and `Trim.dfy` proves that the four selection phases of `trimToQuorum`
keep them; `QuorumState.dfy` holds the same code as methods over the mutable `quorumState`, the
`selected` array and the strategy's outcome column. `Worker.dfy` is the event protocol of one
submission goroutine. `Coordinator.dfy` and `Machine.dfy` describe a whole submission as a state
machine: worker states, the bounded channel, the coordinator's variables, and an environment that
chooses who sends next, what logs answer and whether the context is cancelled. `Launches.dfy` says
in which order runs launch their logs. `Liveness.dfy`, `Collection.dfy`, `Guarantees.dfy` and
`Theorems.dfy` prove the results about every run; `Schedules.dfy` shows that the verdict does not
depend on the schedule, `Interruption.dfy` what the outcomes mean after a context error,
`Untried.dfy` which logs a failure leaves untried, and `Surplus.dfy` a run that delivers one SCT too
many. `Submitter.dfy` is `submit` as a class whose methods are its closures and loops; each round of
it is shown to be a step of the machine, so the results carry over to the loop itself.
`Lopsided.dfy` takes a list through the filter and the ranking to a run that fails with a log
untried.

**Optimal parents and chain discovery.** `Issuers.dfy` is the issuer graph, `Bfs.dfy` the
breadth-first search of `buildChains`, `BestParent.dfy` the selection loops and the table they fill,
`Discovery.dfy` the walk of `DiscoverChain`, with the proof that greedy hops along the table
reproduce the optimum that the search found.

**Around them.** `Requests.dfy` raises a request to its policy, `Compatible.dfy` filters a log list,
`Strategies.dfy` ranks it, and `Handler.dfy` runs the stages in order and proves that what the filter
accepts is enough. `Intersect.dfy` intersects log lists whose log objects are narrowed in place.
`Windows.dfy` is the sliding-window monitor. `Finite.dfy` and `Logs.dfy` are shared.

## Findings

- `trimToQuorum` is documented to leave exactly `SCTs` entries (submitter/quorum.go:89). With one SCT
  requested, RFC 6962 required and Static preferred it keeps two if a Static SCT was collected:
  `Trim.TrimMayKeepTwo`, and on a whole run `Surplus.TwoAreDelivered`. `Trim.TrimmedIsQuorum` shows
  that this is the only such case.
- The sufficiency check of `determineCompatibleLogs` counts logs and operators but not a required log
  type. It accepts a list (`Handler.AcceptedWithoutRequiredType`) from which no quorum can be collected
  (`Handler.RequiredTypeIsNotChecked`). `Handler.AcceptedSatisfies` gives the exact condition when no
  log is excluded.
- The check also counts the logs that the configuration or missing tree heads exclude only when the
  list is ranked. It accepts a list of two operators one of which is excluded
  (`Handler.AcceptedThoughExcluded`). `Handler.ExclusionsDecide` gives the exact condition: the logs of
  the list that are not excluded must suffice; `Handler.ExclusionsDecideRuns` says so of runs.
- docs/SubmissionStrategy.md:143 says that failure means that all eligible logs were attempted. The
  code also stops when no untried log would help. The statement holds for a request, whatever the logs
  and the run, exactly if it asks for one operator and requires no log type: `Untried.FailureTriesAll`,
  and for every other request an accepted list and a failing run on it with a log untried,
  `Lopsided.FailureMayLeaveUntried`.
- docs/SubmissionStrategy.md:120 counts all in-flight submissions as successes; the code leaves out
  those past the try-next threshold, and so does the model. `Quorum.SlowCountedHelpsLess` shows that
  the code tries at least as many logs, and the same ones when nothing in flight is past the threshold;
  `Quorum.SlowCountedMayHelpLess` is an input on which the two differ.
- docs/SubmissionStrategy.md:163 lists operator preferences, and the configuration has a field for them
  (config/config.go:40-43); the ranking never reads it. `Strategies.PreferredOperatorIsNeutral` is a log
  of a preferred operator that is ranked as neutral; by `Strategies.PreferredByUrlOnly` a log is ranked
  as preferred exactly if nothing speaks against it and a URL pattern matches.

## Assumptions

- `time.Since(start)` is positive at every launch, so that `BeganAfter != 0` marks attempted logs. The
  model keeps the set of attempted members (`began`).
- SHA-256 is injective on the certificates at hand, the certificates are the same when the table is
  built and when it is followed, and accepted-root pools hold only self-signed certificates:
  `WellIndexed`, `StoreOk` and `PoolsOk` state this. No certificate hashes to zero, the table's mark for
  a missing parent: the model has `None` there.
- Each listed log object occurs once in its list and is not shared between the lists of the three
  programmes; log IDs are unique within the second and third list (`ListOk`, `UniqueIds`).
- The monitor's clock does not go backwards.

## Model

| member | source | states |
|---|---|---|
| `Quorum.AddSuccessValid` | submitter/quorum.go:46-59 | adding a new log keeps the lists aligned and distinct, and the operator set and type flags equal to those of the logs behind them |
| `Quorum.QuorumMetIsPolicy` | submitter/quorum.go:61-73 | the quorum test on running totals holds exactly when the set of collected logs satisfies the policy |
| `Quorum.QuorumFailureReason` | submitter/quorum.go:75-87 | the message lists exactly the unmet requirements, and is empty exactly when the quorum is met |
| `Quorum.HelpsAntitone` | submitter/quorum.go:252-266 | a log that does not help now does not help any larger collection |
| `Quorum.UnhelpfulCannotComplete` | submitter/quorum.go:252-266 | with the quorum unmet, no number of unhelpful logs together closes the gap |
| `Quorum.WouldHelpIsHelpsLater` | submitter/quorum.go:273-312 | `wouldHelp` equals `helpsQuorum` on the state after `addSuccess` for every normal in-flight log, in any order |
| `Quorum.SlowCountedHelpsLess` | submitter/quorum.go:273-312 | a log that would help if slow submissions too were to succeed would help without them; nothing changes if no submission is slow |
| `Quorum.SlowCountedMayHelpLess` | submitter/quorum.go:273-312 | an input on which counting a slow submission as a success rules out a log that the code tries |
| `KeepLaw.KeepIsUnique` | submitter/quorum.go:92-204 | what trimming has to keep, said without searches, leaves exactly one choice: the first entry of each operator while slots last; for a wanted type that is then missing, the first arrival of it in place of the last entry that can be spared; and the earliest of the rest |
| `KeepLaw.EarlierAreKept` | submitter/quorum.go:114-204 | an entry kept without being its operator's first has every earlier arrival of its type kept with it |
| `Trim.SelectionKeepsRight` | submitter/quorum.go:92-204 | the four phases select exactly what has to be kept |
| `Trim.DiverseCovers` | submitter/quorum.go:100-112 | the first phase selects one entry per operator, up to the number of slots |
| `Trim.SomeDropIsSafe` | submitter/quorum.go:225-248 | above the operator count, some entry other than the one just added can be dropped without losing operator diversity |
| `Trim.WithRFC6962Keeps` | submitter/quorum.go:114-146 | the RFC 6962 swap selects such an entry, its drop search succeeds whenever it is needed, and diversity stays |
| `Trim.WithStaticKeeps` | submitter/quorum.go:148-193 | the Static swap selects a Static entry if one was collected, keeps diversity and the RFC 6962 entry, and overflows in one case only |
| `Trim.TrimKeepsQuorum` | submitter/quorum.go:92-204 | the selected entries satisfy the policy on their own, keep a preferred Static entry, and number exactly `SCTs` but for the one case |
| `Trim.TrimmedIsQuorum` | submitter/quorum.go:89-222 | from any state that meets the quorum, trimming leaves distinct aligned entries of that state that are a quorum, with their exact number, and they are exactly those that have to be kept, in their order |
| `Trim.TrimMayKeepTwo` | submitter/quorum.go:89-91 | a Static success followed by an RFC 6962 one: `submit` accepts both, and trimming keeps both although one SCT was requested |
| `Surplus.TwoAreDelivered` | submitter/quorum.go:89-91 | a whole run of `submit` that delivers two SCTs although one was requested |
| `QuorumStates.QuorumState.AddSuccess` | submitter/quorum.go:46-59 | the whole new state after a success |
| `QuorumStates.QuorumState.WouldHelp` | submitter/quorum.go:273-312 | the loop over the in-flight map decides `wouldHelp`, whatever the order of the map |
| `QuorumStates.QuorumState.TrimToQuorum` | submitter/quorum.go:92-222 | the four phases over the `selected` array and the rebuild compute the trimmed state, which holds exactly the entries that have to be kept, and re-mark exactly the dropped entries' outcomes |
| `QuorumStates.CanDropSafely` | submitter/quorum.go:225-248 | the early exit and the counting loop together decide whether enough operators remain |
| `QuorumStates.SelectRFC6962` | submitter/quorum.go:114-146 | the scans of the RFC 6962 phase select its first arrival and drop the last entry that can be spared, if there are more than the slots |
| `QuorumStates.SelectStatic` | submitter/quorum.go:148-193 | the same for the Static phase, which spares the only RFC 6962 entry if one is required |
| `Workers.AutomatonIsProtocol` | submitter/submitToLog.go:67-112 | the worker automaton accepts exactly the event sequences with one terminal event, at the end, and at most one try-next and one slow event |
| `Workers.ProcessHTTPResponse` | submitter/submitToLog.go:129-206 | one event, a success with the reply's own response and SCT exactly if every check passed; which back-off is recorded; the counted outcome |
| `Workers.SubmitToLog` | submitter/submitToLog.go:28-112 | whatever becomes ready in whatever order, the events sent follow the protocol; the last one is the success with the reply's response and SCT exactly if the reply came in time and passed every check, and the cancelled failure if the context was done; each timer that fired is reported, and no other; what is recorded |
| `Coordinator.InitialBatchCovers` | submitter/orchestrate.go:90-121 | the initial batch is exactly min(SCTs, eligible) logs, with a required RFC 6962 log and, slot permitting, a preferred Static log |
| `Coordinator.InitialBatchInOrder` | submitter/orchestrate.go:90-121 | the initial batch follows strategy order: an earlier eligible log is left out only for the first eligible log of a required or preferred type |
| `Coordinator.CandidateIsNext` | submitter/orchestrate.go:128-171 | the log chosen helps; no earlier untried log does, unless the chosen one is of a needed type and the other is not; while any untried log is of a needed type, the chosen one is |
| `Coordinator.NoCandidateHelps` | submitter/orchestrate.go:160-171 | with nothing in flight, launching nothing means that no untried log helps |
| `Machine.InitOk` | submitter/orchestrate.go:68-121 | the invariant holds after the initial batch |
| `Machine.StepOk` | submitter/orchestrate.go:173-263 | every step keeps it: `inFlight` is the size of the two disjoint index sets, no log is launched twice, the channel stays within its capacity, and each worker's events obey its protocol |
| `Launches.RunLaunchesRight` | submitter/orchestrate.go:123-254 | in every step of every run: another log is launched only after a try-next or the last outstanding terminal event, one at most, and it is the one that strategy order calls for; if none is launched then, no untried log would have helped |
| `Launches.NeededTypeIsLaunched` | submitter/orchestrate.go:128-158 | over runs: when a log is launched while some untried log is of a needed type, it is the first such log; the helpfulness guard never turns it down |
| `Liveness.RunInvariant` | submitter/orchestrate.go:173-263 | the invariant holds in every state of every run |
| `Liveness.StepDecreases` | submitter/orchestrate.go:173-254 | every step lowers the measure, and every receipt uses up one event even when it launches another log |
| `Liveness.RunsAreBounded` | submitter/orchestrate.go:173-254 | no run handles more than three events per eligible log, nor takes more than six steps per log and two |
| `Liveness.NeverStuck` | submitter/orchestrate.go:173-254 | until `submit` returns, some step is possible that needs no cancellation, no failure of a log that is to succeed while the main loop runs, whichever logs these are, and no success of a cancelled worker: no deadlock in any interleaving |
| `Liveness.FullChannelIsDrained` | submitter/orchestrate.go:68 | a worker that finds the channel full does not wait for ever: the coordinator can receive |
| `Liveness.ReturnLeavesNothing` | submitter/orchestrate.go:180-225 | on every return path the channel is empty and every launched worker has finished |
| `Collection.CollectEvent` | submitter/orchestrate.go:193-205 | after each event the lists are the accepted replies in arrival order, and every discarded success still does not help |
| `Collection.AcceptBound` | submitter/orchestrate.go:199-208 | beyond the requested count every accepted success strictly lowers what is missing, and the bound on what is held is kept |
| `Collection.TrimKeepsOrder` | submitter/quorum.go:206-221 | after trimming the three lists are still aligned and in arrival order |
| `Guarantees.StepGuaranteed` | submitter/orchestrate.go:173-263 | every step keeps what is collected, why logs were discarded, and what each outcome means |
| `Guarantees.RunGuaranteed` | submitter/orchestrate.go:173-263 | the invariant and these promises hold in every state of every run |
| `Theorems.FailureIffImpossible` | submitter/orchestrate.go:173-263 | every run that returns without a context error reports failure exactly when all successes and all untried logs together miss the quorum |
| `Theorems.SuccessDelivers` | submitter/orchestrate.go:207-225 | every run that reaches quorum returns what trimming has to keep of the successes collected in order of arrival: entry by entry the replies that distinct launched logs sent in that run, satisfying the policy, with their exact number |
| `Theorems.ArrivedWereSent` | submitter/submitToLog.go:67-112 | in every state of every run the events in the channel and those received were sent by their workers earlier in that run |
| `Theorems.OutcomesAccountForAll` | submitter/orchestrate.go:59-66 | after every run that returns without a context error each eligible member has an outcome, and the outcomes split the members exactly into delivered, collected but trimmed, discarded, cancelled, failed and not attempted |
| `Theorems.DiscardedDidNotHelp` | submitter/orchestrate.go:199-204 | a success is marked as not helping exactly if it did not help what had been collected when it arrived |
| `Theorems.FailedAsReported` | submitter/orchestrate.go:226-230 | in every state of every run a member is marked as failed only with the reason that its own worker sent |
| `Interruption.ContextErrorAccountsForAll` | submitter/orchestrate.go:178-191 | every run that ends with a context error launched nothing after the context had ended; a member in flight then has the outcome of a terminal event that its worker sent, every other launched member kept its outcome, and each eligible member that was not launched is marked as not attempted |
| `Interruption.ReturnIsFinal` | submitter/orchestrate.go:180-263 | once `submit` has returned, no step is possible: no worker is left to send and nothing is left to receive |
| `Theorems.CollectionBound` | submitter/orchestrate.go:199-208 | in every state of every run at most SCTs + operators responses are held, and the quorum is never met between events |
| `Theorems.EveryRunDecides` | submitter/orchestrate.go:20-264 | every run can go on or has returned with an empty channel and the right verdict |
| `Schedules.VerdictIgnoresSchedule` | submitter/orchestrate.go:90-263 | once it is fixed which logs would succeed, every run without cancellation is bounded, can go on in the same way until it returns, and has then reached quorum exactly if those logs satisfy the policy: the verdict depends on no order of events and no timer |
| `Schedules.RunCompletes` | submitter/orchestrate.go:173-263 | every run can be completed, with each reply in the main loop as prescribed and with a failure of each worker that a drain waits for |
| `Schedules.PlanCompletes` | submitter/orchestrate.go:173-263 | every run in which the logs reply as prescribed until the quorum is met can be completed so, and reaches quorum exactly if the prescribed successes satisfy the policy |
| `Schedules.NoFailureMeansQuorum` | submitter/orchestrate.go:90-254 | if the eligible logs satisfy the policy, every run in which nobody cancels and no log fails before the quorum is met is bounded, goes on so until it returns, and has then reached quorum; workers cancelled by the quorum may report failures |
| `Schedules.NoFailureReachesQuorum` | submitter/orchestrate.go:90-254 | every such run has a completion of the same kind, which reaches quorum exactly if the eligible logs satisfy the policy |
| `Schedules.NoFailureVerdict` | submitter/orchestrate.go:173-263 | when such a run has returned, it has reached quorum exactly if the eligible logs satisfy the policy |
| `Schedules.PreferenceIsMet` | submitter/orchestrate.go:90-121 | if, while the main loop runs, nobody cancels, no log fails and no try-next timer fires, a delivery holds a preferred Static SCT whenever such a log is eligible and the initial batch has a slot for it |
| `Untried.UntriedLacks` | submitter/orchestrate.go:160-171 | after a failure, no untried log has a missing operator or a missing wanted type; while SCTs are missing no log is untried |
| `Untried.FailureTriesAll` | submitter/orchestrate.go:256-263 | for a request for one operator without a required type, failure means that every eligible log was attempted |
| `Lopsided.FailureMayLeaveUntried` | submitter/orchestrate.go:256-263 | for every other request there are a list that the filter accepts, its ranking, and a run that ends in failure with an eligible log untried |
| `Submitter.Submission.LaunchInitialBatch` | submitter/orchestrate.go:90-121 | the loops of the initial batch lead to the initial state of the machine |
| `Submitter.Submission.StartNextEligible` | submitter/orchestrate.go:128-171 | the two scans launch exactly the log that the machine launches, which is the one that strategy order calls for; nothing only if no untried log would help |
| `Submitter.Submission.HandleSuccess` | submitter/orchestrate.go:194-214 | a success updates the sets, outcomes and quorum state, and reports whether the quorum is met |
| `Submitter.Submission.HandleEvent` | submitter/orchestrate.go:174-253 | one round of the main loop is one receive step of the machine |
| `Submitter.Submission.Run` | submitter/orchestrate.go:173-263 | the loop terminates, its execution is a run of the machine, and the returned value reflects the final state |
| `Submitter.Submit` | submitter/orchestrate.go:20-264 | the call is a run; a delivery is the replies that distinct logs sent in it, satisfying the policy; failure only when the quorum was impossible, naming exactly what is missing; every outcome is accounted for, after a context error too; the early returns change nothing |
| `Issuers.FindParents` | cmd/optimalparents/main.go:326-338 | the parents are exactly the other certificates with the issuer's key |
| `Issuers.IndexBySki` | cmd/optimalparents/main.go:44-51 | the index holds exactly the certificates with a subject key, each under its own |
| `Bfs.InsideOrFar` | cmd/optimalparents/main.go:283-309 | whatever has not been reached is at least as far away as the front of the queue |
| `Bfs.VisitOk` | cmd/optimalparents/main.go:287-308 | looking at one parent keeps the search invariant: least depths, ordered queue, one shortest chain per root |
| `Bfs.BuildChains` | cmd/optimalparents/main.go:266-317 | the search terminates; for a certificate that is not self-signed it returns exactly one shortest chain per reachable self-signed root, in order of length, or the certificate alone if there is none |
| `BestParent.ScoreIsSize` | cmd/optimalparents/main.go:132-137 | the score of a root is the number of logs that accept it |
| `BestParent.ScoreIgnoresOrder` | cmd/optimalparents/main.go:132-137 | the score does not depend on the order of the log groups |
| `BestParent.SelectChain` | cmd/optimalparents/main.go:128-160 | the running best over one candidate's chains is the optimum of all ranks seen; none of these chains beats it in score, then length, then expiry of the candidate, then hash |
| `BestParent.SelectParent` | cmd/optimalparents/main.go:111-166 | the choice is a candidate's chain such that no candidate has a root path of a higher score, at that score none is shorter, at that length too none expires later, and of those that expire together none has a smaller hash; none exactly if nothing scores |
| `BestParent.NoCandidateBeats` | cmd/optimalparents/main.go:127-161 | no path from any candidate to a root, shortest or not, beats the choice in score, length, expiry and hash, compared in this order |
| `BestParent.ChoiceIgnoresOrder` | cmd/optimalparents/main.go:101-166 | the choice is the same for every order of certificates, candidates and groups |
| `BestParent.BuildTable` | cmd/optimalparents/main.go:101-180 | each key's row holds the best parent of every context, by score, length, later expiry and smaller hash; rows without any parent are left out |
| `Discovery.DiscoverChain` | pki/discovery.go:92-155 | the loop terminates and returns the submitted chain followed by the walk along the table, or nothing if it appended nothing |
| `Discovery.Hop` | pki/discovery.go:112-149 | if the best entry of a key has score S and length L > 1, the best entry of its certificate's issuer key has score S and length L - 1 |
| `Discovery.TrailIsSimple` | pki/discovery.go:121-124 | no certificate occurs twice on the trail of best parents |
| `Discovery.GreedyIsOptimal` | pki/discovery.go:92-155 | the walk appends the trail of best parents up to the first certificate that was submitted, or else up to its self-signed root; it appends all L - 1 intermediates exactly when none of them had been submitted |
| `Discovery.StartIsNotOnTrail` | pki/discovery.go:121-124 | the certificate that the walk starts from never stops it |
| `Discovery.OneCertificateGetsAll` | pki/discovery.go:92-155 | a submission of one certificate that is not self-signed gets all L - 1 intermediates, and the walk ends at the root |
| `Discovery.TrailIsPath` | pki/discovery.go:112-149 | the trail behind a certificate is a path of parents to a root of score S |
| `Discovery.NoChainIsBetter` | cmd/optimalparents/main.go:111-166 | no chain above the certificate reaches a root of a higher score, nor one of the same score by fewer certificates, nor by as many through a parent that expires later, or as late with a smaller hash |
| `Discovery.BuildAndDiscover` | cmd/optimalparents/main.go:40-180 | the two programs together, for any set of CA certificates: a table built from them and followed over them adds an optimal trail up to the first of its certificates that was submitted already, and nothing if no parent scores |
| `Discovery.DiscoveryIsIdempotent` | pki/discovery.go:92-155 | the answer of a discovery, submitted again, gains nothing |
| `Discovery.NothingToFollow` | pki/discovery.go:113-120 | without a best parent nothing is appended |
| `Requests.SubmissionRequest.DetermineSubmissionRequirements` | submitter/request.go:36-91 | the new request is the least one that asks for everything the old one did and meets the policy, with two operators, two SCTs, and three above 180 days where the TLS policy applies; which list is chosen |
| `Requests.RaisedInNumbers` | submitter/request.go:60-88 | the raised request in numbers: two operators and two SCTs, three above 180 days, under the TLS policy; else one of each; never fewer SCTs than operators, and no more than one of these reasons asks for |
| `Requests.RaisingIsIdempotent` | submitter/request.go:60-88 | determining the requirements again changes nothing |
| `Compatible.KeptOffers` | submitter/compatibleLogs.go:29-78 | exactly the logs that fit are kept, with their operator and type |
| `Compatible.KeptInFields` | submitter/compatibleLogs.go:36-73 | a log is kept exactly if the chain validates for it, the log for expired certificates is given one, and, when compliance is asked for, it has been Usable until now and has not left that state |
| `Compatible.KeptNames` | submitter/compatibleLogs.go:75-77 | operators keep distinct names and none is left without logs |
| `Compatible.DetermineCompatibleLogs` | submitter/compatibleLogs.go:17-88 | the filtered list if it has enough operators and logs, and which error otherwise |
| `Strategies.StrategyMember.Classify` | submitter/strategy.go:83-125 | from the configuration and the readings, the bucket is the worst that any signal speaks for, preferred only if none does; the outcome says why a log is excluded |
| `Strategies.BucketInSignals` | submitter/strategy.go:83-125 | the bucket and the reason for an exclusion, read off from the configuration and the monitor, in the order in which they count |
| `Strategies.SortedIsBestFirst` | submitter/strategy.go:241-247 | in a sorted strategy a log of a better bucket comes first, from preferred to excluded, and within a bucket one of smaller weight |
| `Strategies.PreferredByUrlOnly` | submitter/strategy.go:230-239 | a log is preferred exactly if nothing speaks against it and a configured pattern matches its URL |
| `Strategies.PreferredOperatorIsNeutral` | submitter/strategy.go:83-125 | a log of a preferred operator, against which nothing speaks, ends in the neutral bucket |
| `Strategies.Devise` | submitter/strategy.go:46-140 | the strategy is a permutation of the compatible logs, each classified by the configuration and its reading, best bucket first and then by weight |
| `Strategies.EligibleIsPrefix` | submitter/strategy.go:241-247 | excluded logs are a suffix of the sorted strategy |
| `Strategies.EligibleListIsIdentity` | submitter/orchestrate.go:44-50 | the eligible index list of a sorted strategy is 0, 1, 2, and so on |
| `Handler.AcceptedSatisfies` | submitter/compatibleLogs.go:80-85 | accepted logs of differently named operators, none excluded, satisfy the policy exactly when a required RFC 6962 log is among them |
| `Handler.SufficiencyIsEnough` | submitter/compatibleLogs.go:80-85 | then every run without cancellation in which no log fails before the quorum is met is bounded, goes on so until it returns, and has then reached quorum |
| `Handler.ExclusionsDecide` | submitter/strategy.go:49-126 | the eligible members of the ranked list satisfy the policy exactly if the listed logs that are not excluded do, counted on the list |
| `Handler.ExclusionsDecideRuns` | submitter/compatibleLogs.go:80-85 | when a run has returned without a cancellation and without a failure before the quorum was met, it has reached it exactly if the accepted logs that are not excluded suffice |
| `Handler.AcceptedThoughExcluded` | submitter/compatibleLogs.go:80-85 | an accepted list whose logs that are not excluded do not suffice |
| `Handler.RequiredTypeIsNotChecked` | submitter/compatibleLogs.go:80-85 | from an accepted list without a log of the required type no set of logs is a quorum |
| `Handler.AcceptedWithoutRequiredType` | submitter/compatibleLogs.go:80-85 | such an accepted list exists |
| `Handler.RowFits` | submitter/strategy.go:49-81 | every strategy member is a log of the base list that fits the submission |
| `Handler.SubmitCertificate` | submitter/handler.go:65-110 | end to end: the list chosen; a submission starts exactly if the filtered list suffices, on a ranking of it; without cancellation and without a failure before the quorum is met it delivers if the logs that are not excluded suffice; a delivery is the replies that distinct logs sent in the run; a policy-compliant certificate that is not a Mark Certificate gets exactly the raised number of SCTs, at least two, three above 180 days, from at least two operators |
| `Intersect.ListedLog.Narrow` | loglists/filter.go:161-171 | the later Usable time and the narrower interval, where both logs state one |
| `Intersect.MatchLogs` | loglists/filter.go:157-177 | the RFC 6962 loops keep exactly the matching logs, once each, and narrow them in place |
| `Intersect.MatchTiledLogs` | loglists/filter.go:178-199 | the tiled loops, nested the other way round, do the same without the test-URL check |
| `Intersect.Intersect` | loglists/filter.go:152-205 | the result holds exactly the first list's logs that the second has and, for RFC 6962 logs, whose URL does not contain "bogus", once each, operator by operator in order; every object of the first list is narrowed exactly if it matched |
| `Intersect.BogusIsContained` | loglists/filter.go:160 | the test-URL check finds the word wherever in the URL it occurs |
| `Intersect.MergeIsMeet` | loglists/filter.go:161-171 | narrowing once more yields the latest start, the earliest end and the latest Usable time among the logs that state one |
| `Intersect.DetermineUsableTLSLogs` | loglists/filter.go:90-100 | the logs that all three lists have, once each, from the latest start to the earliest end and Usable since the latest time, despite narrowing in place twice |
| `Windows.RecentOfKept` | monitor/metrics.go:39-45 | trimming loses nothing that a later window could show |
| `Windows.DropStale` | monitor/metrics.go:96-103 | on samples in order of time, dropping a prefix is filtering |
| `Windows.WindowIsThirtySeconds` | monitor/metrics.go:53-59 | a window shows all of the history but what is more than thirty seconds old |
| `Windows.CountIsSize` | monitor/metrics.go:60-66 | a count is the number of samples with that value |
| `Windows.SumAddsUp` | monitor/metrics.go:117-119 | one sample sums up to its value, two histories to the sum of their sums |
| `Windows.QuotientTruncates` | monitor/metrics.go:107-127 | the average is the exact quotient without its fraction |
| `Windows.Monitor.RecordOutcomeSample` | monitor/metrics.go:31-46 | every outcome but a cancellation joins the history, a cancellation changes nothing, and the stored samples remain its recent part |
| `Windows.Monitor.GetRecentOutcomeCounts` | monitor/metrics.go:49-68 | the numbers of successes and of failures over the last thirty seconds of the whole history; together they count every outcome in it once |
| `Windows.Monitor.RecordResponseTimeSample` | monitor/metrics.go:92-104 | every response time joins the history |
| `Windows.Monitor.GetAvgResponseTime` | monitor/metrics.go:107-127 | the average over the last thirty seconds of the whole history, truncated towards zero, if there was any |
| `Windows.Replay` | monitor/metrics.go:31-127 | for every sequence of calls in order of time, cancellations included, each answer is the one that the whole history before it determines |

## Left out

- HTTP, JSON, DER, SCT decoding, signature verification and contexts as objects: each is a value or a choice of the environment. Durations that are only reported (`TimeTaken`) and the amount in `BeganAfter` are not modelled.
- Workers.SubmitToLog: what becomes ready on the timers, the reply and the context, and in which order, is an input (`ready`); of several things ready at once the source takes any.
- Goroutine scheduling: workers and coordinator take turns in any order; a send is one step, possible only while the channel has room. When and in which order events arrive is otherwise unconstrained.
- Monitor calls of the coordinator and the workers, other than which back-off and which outcome a reply is counted under; the wording of cancellation outcomes.
- `submit`: unsupported entry types and marshalling errors, which return before any log is contacted.
- The strategy slice is split into fixed logs and two mutable columns, outcome and attempted; a member's bucket does not change once `submit` has it.
- After trimming, the operator set and the type flags of `quorumState` are left as they were, as in the source; nothing reads them afterwards.
- Strategies.Sort: stands in for the library sort, which is not stable; nothing depends on more than its contract.
- Strategies.Devise: URL joining is not modelled; a URL pattern is the predicate of the URLs that it matches, and uptimes, back-offs and tree-head ages are inputs (`Reading`); weights are any numbers below 1000, and nothing is said about their distribution.
- Compatible.DetermineCompatibleLogs: starts from the temporally compatible list and takes chain validation as a given set of log IDs and intervals; all readings of the clock within one call are one value.
- Requests.SubmissionRequest.DetermineSubmissionRequirements: the identifier of the Mark Certificate key usage is a parameter, because the package that defines it is not part of this model.
- Handler.SubmitCertificate: chain discovery, parsing and mimic SCTs are not part of it.
- Windows.Monitor.GetAvgResponseTime: durations are unbounded, so the sum does not wrap around.
- Intersect.Intersect: every log has a state, as the source requires; log names are not replaced afterwards.
- Discovery.DiscoverChain: the table is a map from keys to rows; reading it from CSV, with its case folding, is not modelled. A missing parent is `None` rather than a zero hash.
- The validation cache of pki/chain.go, back-off maps, uptime data, STH fetching, configuration, server, dashboard, metrics export and ctlint: plumbing, or simple maxima.
