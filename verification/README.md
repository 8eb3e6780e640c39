# Verified model of the track-intelligence core

This project models, in Dafny, the stateful core of the system: incremental clustering of tracks, the temporal
hysteresis machines, the bounded-resource protocols, the incident lifecycle with its outbox, delegated role
management, polygon containment and the priority score. Code that changes things in place is a class or a method
with loops, proved equal to a function on values; the theorems about whole runs are lemmas about those functions.

| file | what it models |
|---|---|
| `TrackIds.dfy`, `Text.dfy`, `Rounding.dfy` | identifiers in string order, stripping, round-half-even and clamping |
| `Graph.dfy` | undirected graphs, walks, connected components |
| `SpatialGrid.dfy` | the hash grid: cell arithmetic, the paired maps, the neighbourhood query |
| `Grouping.dfy` | correlation test, adjacency, breadth-first traversal, identifier inheritance |
| `GridReach.dfy` | how far the nine cells of the grid reach, and which correlated pairs they miss |
| `Reclustering.dfy` | re-clustering only part of a changed graph |
| `StoreModel.dfy`, `Store.dfy` | the incremental store on values, and as a class |
| `StoreExactness.dfy`, `StoreRuns.dfy` | exactness of local steps, whole runs |
| `StoreSummary.dfy`, `StoreRecords.dfy` | what a reader finds in the summary, and what each record in it says |
| `StoreView.dfy` | whether the groups and the priorities of a summary agree |
| `StoreOrder.dfy`, `StoreIds.dfy` | independence of set order, which inputs make identifiers collide |
| `EquatorLine.dfy`, `StoreLoss.dfy` | tracks in a row on the equator, and runs in which the store loses a group |
| `Anomaly.dfy`, `Behavior.dfy` | the anomaly accumulator and the behaviour classifier |
| `RateLimiter.dfy`, `EventBus.dfy`, `Lockout.dfy` | sliding-window limiter, bounded queues, account lockout |
| `Incidents.dfy`, `Rbac.dfy`, `Polygon.dfy`, `Priority.dfy` | lifecycle and outbox, delegation, ray casting, scoring |

Clocks and generated identifiers are parameters. Scores and coordinates are exact reals; the trigonometry
(haversine distance, the cosine of a grid row, the synchronization index, the member hash) is a parameter about
which only what a theorem states as a hypothesis is known. The decay is a function with `d(0) = 1`, `0 < d <= 1`
and `d(a + b) = d(a) d(b)`.

## What the proofs found

- **Local re-clustering is not always exact.** `update_track` and `drop_track` add the grid candidates of the
  first-hop tracks to the affected set, but not the groups of those candidates (`ai/incremental/store.py:156-161`).
  A group that sticks out of the set is taken apart. `StoreIds.UpdateExactOnInputs` gives the exact condition,
  `StoreLoss.StoreLosesPair` runs of two operations, at any usual cell size, in which an update that moves nothing
  or a drop of another track loses a correlated pair. Re-clustering the first hop and its groups alone would always
  be exact for groups of two (`Reclustering.FirstHopGroupsAreExact`).
- **Group identifiers can collide.** At the default threshold of one half, a group that splits into equal halves
  gives both halves its identifier, and the second overwrites the first in the store's dictionary
  (`StoreLoss.StoreLosesHalf`); a pair that grew into a larger group and leaves it again is hashed to the identifier
  the group kept from it (`StoreLoss.StoreRepeatsHash`). `StoreIds.IdsFreeIff` says exactly when identifiers collide.
- **Summaries are not always internally consistent**, although `ai/incremental/store.py:24` guarantees it to readers:
  after an update that takes a group apart, the priority of a track outside the affected set still names the group
  that is gone. `StoreView.RunAgreesIff` gives the exact condition, whatever the grid covers, and by
  `StoreView.RunExactIffAgrees` this inconsistency shows up in exactly the runs in which the groups go wrong.
- **The grid can miss a correlated pair**, against the guarantee of `ai/correlation/spatial_grid.py:35-37`. Rows are
  as high as the cell size rounded down to divide the meridian, so tracks between one row height and one cell size
  apart can have a whole row between them. On a meridian nothing is missed if and only if the cell size divides 180
  degrees or is at least 90 (`GridReach.GridMissesNoPairIff`); 180 degrees are about 40030.17 times the default of
  500 metres.
- **The store reports each track as NORMAL or COORDINATED only**: it hands the classifier no evidence but the group
  (`ai/incremental/store.py:226-233`, `StoreRecords.RunTwoStates`).
- **De-escalation accepts every legal transition.** Its description at `backend/app/services/incident.py:659` speaks
  of ESCALATED back to TRIAGED or ACKNOWLEDGED; `Incidents.DeEscalateIs` lists the pairs it accepts, closing a
  resolved incident among them.
- **Set iteration order can decide an identifier**, exactly when at a threshold of one half a new component is the
  merger of two existing groups of equal size (`StoreOrder.StepOrderFreeIff`); above one half it never does.
- **The event bus offers a publication on the wildcard channel twice** to wildcard subscribers. A full queue evicts
  its oldest event although the comment at `backend/app/core/events.py:171` speaks of the oldest non-critical item;
  the two are the same exactly when the head of the queue is not critical.
- **An expired lock does not reset the failure counter**, so afterwards one wrong password locks again.
- **`reset_seconds` is truncated**: waiting exactly that long works if and only if the time left was at most one
  second or a whole number of seconds.
- **`publish_pending_events` can break the outbox**: at any point of any run it matches the log if and only if
  nothing was drained in the open transaction and no drained transaction was ever rolled back
  (`Incidents.OutboxMatchesLog`).
- **Revoking SUPER_ADMIN from an active user is always refused**, whoever else holds it.
- **The `1e-12` in the ray cast** makes both the bounding-box pre-filter and the direction of the vertex list
  matter for some points, and can make a denominator vanish; both have an exact condition in coordinates.
- **A forecast lowers the geofence component** exactly when it brings the first breach time of an approaching track
  and that time is more than 1203/70 seconds off.

## Model

| member | source | states |
|---|---|---|
| `StoreRuns.UpdateExactIff` | ai/incremental/store.py:140-196 | after one track update on an exact store the groups are those of a full re-clustering if and only if every old group the affected set meets lies in it, the track's new group lies in it, and no group identifier collides |
| `StoreRuns.UpdateSmallExactIff` | ai/incremental/store.py:140-196 | for a minimum group size up to three (the default is two) the second hop makes the condition on the new group automatic |
| `StoreRuns.DropExactIff` | ai/incremental/store.py:385-443 | the same equivalence for a dropped track, where there is no new group to look at |
| `StoreRuns.BatchExactIff` | ai/incremental/store.py:288-320 | a batch is exact from any earlier state, if and only if no two new groups get one identifier |
| `StoreRuns.RunExact` | ai/incremental/store.py:123-516 | in every run whose steps meet those conditions the incrementally kept groups are, after every operation, the components of the whole population |
| `StoreRuns.RunExactIff` | ai/incremental/store.py:123-516 | in a run whose positions the grid covers the store is exact after every operation if and only if every operation met them |
| `StoreRuns.RunCoherent` | ai/incremental/store.py:123-528 | after every operation of every run, exact or not, the cached summary equals one rebuilt from the parts, tracks, behaviours, priorities and classifier states have the same keys, and formations belong to groups |
| `StoreRuns.VersionsIdentifyStates` | ai/incremental/store.py:274-275 | versions never fall in a run, and two moments with one version have the same state |
| `StoreSummary.SummaryListsEverything` | ai/incremental/store.py:260-272 | over every run, the summary lists exactly the stored groups, formations, behaviours and priorities, each once and in strictly ascending order of group, formation and track identifiers |
| `StoreSummary.OneLineEach` | ai/incremental/store.py:263-264 | every active track has exactly one behaviour and one priority in it, no other track any |
| `StoreSummary.SummaryIsExact` | ai/incremental/store.py:260-272 | on an exact store the listed member sets are the components of all active tracks |
| `StoreSummary.SummaryIsTimely` | ai/incremental/store.py:266-275 | it carries the time of the last operation that changed anything; an operation that changed nothing left it and the version alone |
| `StoreView.RunAgreesIff` | ai/incremental/store.py:163-273 | in every run the summary is internally consistent after every operation (each priority names exactly the listed group that has its track as a member) if and only if no operation touches a group that sticks out of its affected set or gives an identifier twice |
| `StoreView.ApplyAgreesIff` | ai/incremental/store.py:163-273 | the same of one operation on any state that was consistent before, exact or not |
| `StoreView.RunExactIffAgrees` | ai/incremental/store.py:123-516 | for a minimum group size up to three, in a run whose positions the grid covers, the groups are right after every operation if and only if the summary is consistent after every operation |
| `StoreView.RunManned` | ai/incremental/store.py:177-196 | after every operation of every run no group is empty or lists a dropped track |
| `StoreRecords.LastSightingCounts` | ai/incremental/store.py:288-291 | of several observations of one track in a batch the last counts |
| `StoreRecords.OthersStay` | ai/incremental/store.py:288-291 | tracks without an observation in the batch stay as they were |
| `StoreRecords.OnlyGroupsAreEvidence` | ai/incremental/store.py:226-233 | for any record the classifier's candidate is COORDINATED if the track is in a stored group of the configured size, else NORMAL |
| `StoreRecords.RunTwoStates` | ai/incremental/store.py:217-240 | so in every run no track is reported as anything else |
| `StoreRecords.AssessedFromEvidence` | ai/incremental/store.py:243-258 | a priority weighs the track's own stored anomaly score, behaviour, speed and confidence, the synchronization of its own group, and no geofence |
| `StoreRecords.FormationIs` | ai/incremental/store.py:198-208 | a group of two or more active members has a formation of exactly those members, from their current observations; a smaller one none |
| `StoreIds.UpdateExactOnInputs` | ai/incremental/store.py:140-196 | for thresholds of one half or more the condition of an update in terms of its inputs: no old group sticks out, the new group is looked at whole, no touched group is halved by two new components, no hash clashes |
| `StoreIds.DropExactOnInputs` | ai/incremental/store.py:385-443 | the same for a dropped track |
| `StoreIds.BatchExactOnInputs` | ai/incremental/store.py:288-320 | a batch is exact if and only if no old group is halved by two components of the whole population and no hash clashes |
| `StoreIds.RunExactOnInputs` | ai/incremental/store.py:123-516 | in every run whose operations meet these conditions beforehand the store is exact after every operation |
| `StoreIds.RunExactOnInputsIff` | ai/incremental/store.py:123-516 | and in a run whose positions the grid covers only then |
| `StoreIds.RunOwned` | ai/incremental/store.py:182-196 | after every operation of every run, exact or not, each group's members point at it, so stored groups never overlap |
| `StoreIds.IdsFreeIff` | ai/correlation/grouping.py:235-268 | new groups collide with each other or with a staying group if and only if an existing group is halved at a threshold of exactly one half, or the hash of a component that inherits nothing is the identifier of a staying group, of another such component, or of the group another component inherits from |
| `StoreIds.NewHashesClear` | ai/correlation/grouping.py:265-268 | when those hashes are new, only halving is left |
| `StoreIds.BothInherit` | ai/correlation/grouping.py:235-263 | two disjoint components that inherit get one identifier if and only if they are the equal halves of an existing group at one half |
| `StoreLoss.StoreLosesPair` | ai/incremental/store.py:140-180 | for every kernel that is right on the equator and every cell size from ten metres to fifteen degrees: a batch of four tracks groups the one correlated pair exactly, with the pair within reach of the grid, and then an update that moves nothing, or a drop of another track, leaves no group at all while the pair stays correlated |
| `StoreLoss.StoreLosesHalf` | ai/incremental/store.py:288-310 | at a threshold of one half a group of four that splits into two pairs becomes one stored group under the old identifier |
| `StoreLoss.StoreRepeatsHash` | ai/incremental/store.py:288-310 | in four batches a pair grows into a group of five and leaves it: two components, one stored group, under the hash of the pair |
| `EquatorLine.LineGraph` | ai/correlation/spatial_grid.py:103-151 | on the equator, for those cell sizes, the grid-built correlation graph joins exactly the tracks at most one column width apart, when none are between 1 and 1.1 apart |
| `StoreExactness.RegroupExactIff` | ai/incremental/store.py:163-196 | the general local step, for any affected set that covers the first hop |
| `StoreExactness.RegroupKeepsExact` | ai/incremental/store.py:177-196 | under that condition the group dictionary and the reverse map also stay consistent with each other |
| `StoreExactness.BoxCovers` | ai/incremental/store.py:140-161 | when correlation implies the degree box of the store's grid both ways, correlated tracks are candidates of each other |
| `StoreOrder.StepOrderFreeIff` | ai/incremental/store.py:167-180 | the new groups of a local step are the same in every order of walking the touched groups if and only if no new component, at a threshold of exactly one half, merges two touched groups of equal size |
| `StoreOrder.BatchOrderFreeIff` | ai/incremental/store.py:288-320 | the same for the groups of a batch |
| `Store.IncrementalIntelligenceStore.UpdateTrack` | ai/incremental/store.py:123-275 | the method's whole effect equals `StoreModel.UpdateTrack`, keeps the grid in step with the tracks, and returns the recorded assessment |
| `Store.IncrementalIntelligenceStore.DropTrack` | ai/incremental/store.py:380-493 | the same for `StoreModel.DropTrack`; an unknown track changes nothing and answers false |
| `Store.IncrementalIntelligenceStore.UpdateTracksBatch` | ai/incremental/store.py:277-378 | the same for `StoreModel.UpdateBatch`, with one recorded assessment per observation in order; an empty batch changes nothing |
| `Store.IncrementalIntelligenceStore.ExpandSeed` | ai/incremental/store.py:157-161 | walking the seed in any order adds exactly the group mates and candidates of its members |
| `Store.IncrementalIntelligenceStore.Recluster` | ai/incremental/store.py:163-210 | clustering the affected tracks replaces exactly the touched groups, mappings and formations |
| `Store.IncrementalIntelligenceStore.Reevaluate` | ai/incremental/store.py:217-257 | classifying and scoring the affected tracks one after another gives each the record computed from the state before the loop |
| `Store.IncrementalIntelligenceStore.Clear` | ai/incremental/store.py:495-516 | everything is empty, the grid and the accumulator included, and the version rises |
| `Store.IncrementalIntelligenceStore.GetSummarySnapshot` | ai/incremental/store.py:518-528 | a reader gets the cached summary |
| `Reclustering.LocalExactIff` | ai/incremental/store.py:163-196 | on graphs differing only at one vertex: replacing the touched groups by the components of the affected part gives all groups of the new graph if and only if that part contains every old group it meets and the vertex's new group |
| `Reclustering.SmallGroupsExactIff` | ai/incremental/store.py:156-196 | for minimum size two (three with the second hop) it is enough that no old group sticks out |
| `Reclustering.FirstHopGroupsAreClosed` | ai/incremental/store.py:156-160 | the first hop with the whole of every group it touches is closed, whatever the group size |
| `Reclustering.FirstHopGroupsAreExact` | ai/incremental/store.py:156-160 | so re-clustering exactly that set is exact if and only if it holds the changed track's whole new group, and always for groups of two |
| `Reclustering.SecondHopLosesGroup` | ai/incremental/store.py:161 | the loss on the graph alone, for any four tracks: a set that satisfies both hops but holds one member of a pair drops the pair |
| `Grouping.CorrelateTracks` | ai/correlation/grouping.py:288-400 | the method's result is the reference clustering of the population, in which a repeated identifier keeps its last observation |
| `Grouping.Traverse` | ai/correlation/grouping.py:350-366 | the queue loop terminates having visited exactly the start's connected component, each member once |
| `Grouping.BuildAdjacency` | ai/correlation/grouping.py:318-343 | the candidate loop builds exactly the graph of correlated candidate pairs |
| `Grouping.ClustersAreComponents` | ai/correlation/grouping.py:345-400 | the groups are exactly the components with at least the minimum size, one record each, with members, size and inherited or hashed identifier |
| `Grouping.ClustersDisjoint` | ai/correlation/grouping.py:345-400 | any two groups are disjoint, members are ascending and counted |
| `Grouping.GridGraphIsAllPairs` | ai/correlation/grouping.py:318-343 | when correlation implies the degree box, the grid leaves out no correlated pair |
| `Grouping.GridGroupsAreAllPairsGroups` | ai/correlation/grouping.py:306-400 | then the grid-built groups are the components of the all-pairs correlation graph |
| `Grouping.OrderIndependent` | ai/correlation/grouping.py:306-400 | permuting distinct tracks changes nothing |
| `Grouping.SortGroupsSorted` | ai/correlation/grouping.py:399-400 | the result is in group-identifier order |
| `Grouping.CorrelatedIff` | ai/correlation/grouping.py:101-186 | two tracks correlate if and only if distance, velocity difference, heading difference some way around the circle, and time difference are within their limits, each of the last three where both tracks have it |
| `Grouping.DeltasAre` | ai/correlation/grouping.py:101-186 | the recorded deltas are those quantities, the heading one the smallest over all whole turns, each present exactly when it was reached |
| `TrackIds.BelowIs` | ai/correlation/grouping.py:312 | the order of identifiers: a proper prefix, or the smaller character at the first difference |
| `Grouping.CorrelatedSymmetric` | ai/correlation/grouping.py:101-186 | with a symmetric distance the whole correlation test is symmetric, heading wrap-around included |
| `Grouping.AssignGroupId` | ai/correlation/grouping.py:235-268 | the best-so-far loop returns the identifier of the first group of greatest sufficient overlap, or the hash |
| `Grouping.InheritsIff` | ai/correlation/grouping.py:250-263 | an identifier is inherited exactly when some existing group overlaps enough |
| `Grouping.InheritanceInjective` | ai/correlation/grouping.py:235-263 | for thresholds of one half or more, disjoint components inherit one identifier only by halving exactly that group, and only at one half |
| `Grouping.HalvingCollides` | ai/correlation/grouping.py:235-263 | conversely every exact halving makes both halves inherit |
| `Grouping.ExistingOrderFreeIff` | ai/correlation/grouping.py:250-260 | a component gets the same identifier in every order of the existing groups if and only if it is not, at a threshold of exactly one half, the union of two of them of equal size |
| `Grouping.MergeTie` | ai/correlation/grouping.py:257 | among any disjoint existing groups, when the component is the union of two of them of equal size, at one half the one offered first passes on its identifier |
| `SpatialGrid.BoxNeighbourIsProbed` | ai/correlation/spatial_grid.py:103-151 | a point within one row height and one column width of its own row, cyclically over the antimeridian, lies in the nine probed cells |
| `SpatialGrid.NormalizeKeepsCells` | ai/correlation/spatial_grid.py:60-71 | storing normalized coordinates does not move a point to another cell |
| `SpatialGrid.NormalizeMeans` | ai/correlation/spatial_grid.py:60-71 | a longitude moves by whole turns into [-180, 180), a latitude to the nearest one there is |
| `GridReach.CellsFill` | ai/correlation/spatial_grid.py:87-124 | rows fill the meridian and columns every parallel, in the least number for which no cell is larger than asked for |
| `GridReach.MeridianCoveredIff` | ai/correlation/spatial_grid.py:35-37 | any two tracks on one meridian at most one cell size apart are in the probed cells if and only if the cell size divides the meridian or is at least 90 degrees |
| `GridReach.GridMissesNoPairIff` | ai/correlation/grouping.py:318-343 | so, for a distance that is right on the meridian, the grid-built graph of two tracks there is the all-pairs graph, wherever they are, under exactly that condition on the correlation distance |
| `SpatialGrid.SpatialHashGrid.Insert` | ai/correlation/spatial_grid.py:155-189 | inserting or moving a track keeps the maps inverse, no cell empty, and records the normalized position |
| `SpatialGrid.SpatialHashGrid.Update` | ai/correlation/spatial_grid.py:191-199 | the same for an update |
| `SpatialGrid.SpatialHashGrid.Remove` | ai/correlation/spatial_grid.py:201-216 | removal keeps the maps inverse, forgets exactly that track and reports whether it was there |
| `SpatialGrid.SpatialHashGrid.Clear` | ai/correlation/spatial_grid.py:218-225 | nothing is left |
| `SpatialGrid.SpatialHashGrid.GetCandidateNeighbors` | ai/correlation/spatial_grid.py:227-257 | exactly the other tracks of the probed cells, sorted, without duplicates |
| `Anomaly.PersistentAnomalyAccumulator.Update` | ai/anomaly/persistent.py:174-266 | one evaluation replaces one track's state as `UpdateState` says and leaves the others |
| `Anomaly.AnomalyIsLatch` | ai/anomaly/persistent.py:226-254 | after any history the flag is up exactly when a full entry streak ends later than every full exit streak |
| `Anomaly.CountersMean` | ai/anomaly/persistent.py:226-249 | the counters are the lengths of the current entry and exit streaks |
| `Anomaly.FlipSpacing` | ai/anomaly/persistent.py:237-249 | two consecutive flips are a whole entry or exit streak apart |
| `Anomaly.FlipBound` | ai/anomaly/persistent.py:237-249 | f flips need at least (f/2)(enter + exit) + (f mod 2) enter updates, and the parity of f is the flag |
| `Anomaly.DriftBound` | ai/anomaly/persistent.py:201-224 | after n updates the stored score is within 0.0005 n of the unrounded integrator |
| `Anomaly.DriftUniform` | ai/anomaly/persistent.py:201-224 | with every decay at most r < 1 the drift never exceeds 0.0005 / (1 - r), however long the run |
| `Anomaly.StepsCompose` | ai/anomaly/persistent.py:209-220 | two exact steps over dt1 and dt2 with one score are one step over dt1 + dt2 |
| `Anomaly.StoredInRange` | ai/anomaly/persistent.py:221-224 | the stored score stays in [0, 100] |
| `Anomaly.StepTowardInput` | ai/anomaly/persistent.py:201-224 | an observation brings the score to the decayed part of its distance from the clamped input, up to 0.0005 |
| `Anomaly.StepWithoutInput` | ai/anomaly/persistent.py:201-224 | without an input the score is multiplied by the decay, up to 0.0005 |
| `Anomaly.UpdateMonotone` | ai/anomaly/persistent.py:201-224 | through the rounding, a larger input or earlier score never gives a smaller score |
| `Anomaly.SustainedScore` | ai/anomaly/persistent.py:201-224 | from a fresh state a constant input x gives x times one minus the decay over the whole time, up to 0.0005 for each update |
| `Anomaly.SustainedRaises` | ai/anomaly/persistent.py:201-254 | so an input sustained long enough to lift `enter_ticks` scores over the threshold raises the flag |
| `Anomaly.EventuallyRaised` | ai/anomaly/persistent.py:201-254 | an input over the threshold, repeated at least a half-life apart, raises the flag after a number of updates logarithmic in its excess and keeps it up |
| `Anomaly.EventuallyCleared` | ai/anomaly/persistent.py:201-254 | after any history, as many updates without input clear it |
| `Anomaly.EnoughHalvings` | ai/anomaly/persistent.py:201-208 | such a number of updates exists for every positive excess, at most the input divided by it |
| `Rounding.TiesGoToEven` | ai/anomaly/persistent.py:224 | halfway between two steps the even one is taken |
| `Anomaly.ObserveMeans` | ai/anomaly/persistent.py:174-254 | for any updates of one track through the class, whatever their timestamps: the flag is the latch over the stored scores and the stored score is within 0.0005 per update of the exact integrator |
| `Behavior.StateIsLatestStreak` | ai/behavior/classifier.py:388-446 | after any history the state is the label of the latest streak of `enter_ticks` equal candidates, NORMAL if none; exit counters play no part |
| `Behavior.LatestLabelUnique` | ai/behavior/classifier.py:388-446 | that label is unique |
| `Behavior.PendingMeans` | ai/behavior/classifier.py:400-446 | the pending counter is the current streak of another label, shorter than `enter_ticks` |
| `Behavior.StartNotLater` | ai/behavior/classifier.py:388-446 | in an ordered history the start of the current state is never in the future |
| `Behavior.CandidateIsMostUrgent` | ai/behavior/classifier.py:218-348 | the candidate is the first state in the documented order of urgency for which the input has evidence |
| `Behavior.StartIsEntry` | ai/behavior/classifier.py:388-446 | the start of the state is the time of the update that entered it |
| `Behavior.ChangeRecorded` | ai/behavior/classifier.py:388-446 | each change records its time and the state it left; nothing else moves them |
| `Behavior.ExitCounterMeans` | ai/behavior/classifier.py:388-446 | the exit counter is how long the candidates have differed from the state |
| `Behavior.ClassificationIs` | ai/behavior/classifier.py:430-476 | the classification reports the state after the step and the time since it was entered |
| `RateLimiter.InMemoryRateLimitStore.CheckAndIncrement` | backend/app/core/rate_limiter.py:42-70 | decision, counters and the new list of the key, with the index error for a non-positive limit; other keys are untouched |
| `RateLimiter.HitsAreRecentAdmissions` | backend/app/core/rate_limiter.py:45-52 | the pruned list is exactly the recent part of everything ever admitted |
| `RateLimiter.DeniedIffWindowFull` | backend/app/core/rate_limiter.py:50-70 | a request is denied exactly when the full admission history has `max_requests` entries in the window behind it |
| `RateLimiter.ResultIs` | backend/app/core/rate_limiter.py:50-70 | `remaining` is the limit less everything admitted in the window up to and including the request, 0 when denied |
| `RateLimiter.WindowBound` | backend/app/core/rate_limiter.py:42-70 | every interval of one window length holds at most `max_requests` admissions |
| `RateLimiter.RetryAdmittedIff` | backend/app/core/rate_limiter.py:42-63 | with nothing admitted in between, a request after a denial is admitted if and only if it comes no earlier than the oldest hit's departure from the window |
| `RateLimiter.ResetSecondsSufficeIff` | backend/app/core/rate_limiter.py:54-57 | waiting exactly `reset_seconds` works if and only if the time left was at most one second or a whole number of seconds |
| `RateLimiter.RetryIsAdmitted` | backend/app/core/rate_limiter.py:54-63 | waiting one second more always works |
| `RateLimiter.ResetSecondsNotEnough` | backend/app/core/rate_limiter.py:56-57 | an instance in which waiting exactly `reset_seconds` is refused again |
| `RateLimiter.KeysIndependent` | backend/app/core/rate_limiter.py:42-70 | in any interleaving, each key under its own limits, a key's list is what its own requests alone would leave |
| `EventBus.EventBus.Publish` | backend/app/core/events.py:108-165 | the channel's next number, and every matching subscriber offered the event as often as the lists mention it; an envelope that fails its schema uses up the number and reaches nobody |
| `EventBus.EventBus.GetNextSequence` | backend/app/core/events.py:73-77 | numbers rise by one per channel |
| `EventBus.EventBus.Subscribe` | backend/app/core/events.py:79-97 | a fresh subscriber with its queue size forced into 10 to 1000, added to its channel only |
| `EventBus.EventBus.Unsubscribe` | backend/app/core/events.py:99-106 | exactly the subscribers with that identifier leave the channel |
| `EventBus.Subscription.Receive` | backend/app/core/events.py:148-184 | one offer: queued, or dropped, or put in place of the oldest event |
| `EventBus.RunOk` | backend/app/core/events.py:108-184 | for a subscriber joining at any time, in every run: offered = consumed + queued + dropped, the queue never exceeds its size, kept events are in order with rising numbers, and a critical event is missing only after `maxsize` later offers |
| `EventBus.ViewIsDispatch` | backend/app/core/events.py:144-165 | the subscriber's view used in the run theorem is what the dispatch loop does |
| `EventBus.ConsumedInOrder` | backend/app/core/events.py:108-165 | consumption is an in-order subsequence with strictly increasing numbers per channel |
| `EventBus.NothingLostWithoutOverflow` | backend/app/core/events.py:148-184 | with no drop counted, consumed and queued events are the whole history in order |
| `EventBus.DeliveredIs` | backend/app/core/events.py:144-184 | `delivered_count` counts the envelopes queued: all offered but the non-critical ones turned away at a full queue |
| `EventBus.EvictsOldestNonCriticalIff` | backend/app/core/events.py:167-184 | a critical event at a full queue evicts the oldest non-critical one if and only if the head of the queue is not critical |
| `EventBus.CriticalEvictedFirst` | backend/app/core/events.py:167-184 | on every subscription of two places or more a run in which the critical head is lost while everything behind it is not critical |
| `EventBus.WildcardOfferedTwice` | backend/app/core/events.py:144-165 | a publication on the wildcard channel is queued twice for a wildcard subscriber |
| `Lockout.AuthService.VerifyCredentials` | backend/app/services/auth.py:50-117 | every refusal looks alike; only the account found by user name or e-mail changes, as `Step` says |
| `Lockout.EitherName` | backend/app/services/auth.py:50-52 | both names of an account, in any case and with white space around them, find that one account, so attempts under either share one counter |
| `Lockout.LockIs` | backend/app/services/auth.py:74-117 | in every run, successes included, the counter is the number of failures since the last success, and the account is locked exactly while that is at the limit and the latest failure less than a lockout ago |
| `Lockout.SuccessClears` | backend/app/services/auth.py:74-117 | the right password gets in exactly when the account is not locked, and clears both |
| `Lockout.ChecksSpaced` | backend/app/services/auth.py:74-101 | from the limit on, consecutive password checks are a full lockout apart |
| `Lockout.ChecksBound` | backend/app/services/auth.py:74-110 | without a success, at most max + floor(T / lockout) checks in any span T, from any state |
| `Lockout.OneCheckPerPeriod` | backend/app/services/auth.py:81-98 | the counter survives the lock, so one check per period goes on for ever |
| `Lockout.BoundIsReached` | backend/app/services/auth.py:74-101 | for every limit and every number of periods k there is an ordered run of exactly max + k checks within k lockout periods: the bound is tight |
| `Incidents.RunCoherent` | backend/app/services/incident.py:42-210 | at any point of any run of operations, manual drains, commits and rollbacks, what is published is what the committed timelines announce and what is published or pending what the session's announce, if and only if nothing was drained in the open transaction and no drained transaction was ever rolled back |
| `Incidents.RunSound` | backend/app/services/incident.py:121-163 | in every run, whatever was drained, every timeline is legal and replays to its incident's status |
| `Incidents.ExcessStays` | backend/app/services/incident.py:42-71 | once more was published for an incident than it has entries, no later operation, commit or rollback makes up for it |
| `Incidents.OutboxMatchesLog` | backend/app/services/incident.py:42-71 | for every incident the published events are its committed timeline entries, once each, numbered 1..n, under exactly the same condition |
| `Incidents.ManualDrainLeaks` | backend/app/services/incident.py:208-210 | a drain followed at once by a rollback does no harm if and only if nothing was pending |
| `Incidents.IncidentService.PublishPendingEvents` | backend/app/services/incident.py:208-210 | the manual drain puts the pending events on the bus in order, before any commit |
| `Incidents.StatusChain` | backend/app/services/incident.py:121-163 | each status entry starts where the previous status entry ended, by a pair in the transition table |
| `Incidents.NoStatusAfterClosed` | backend/app/models/incident.py:50-71 | no status entry follows CLOSED |
| `Incidents.Milestones` | backend/app/models/incident.py:50-89 | past NEW means acknowledged, ESCALATED means triaged, CLOSED means resolved |
| `Incidents.LegalNumbers` | backend/app/services/incident.py:121-163 | sequences are 1..n without gaps |
| `Incidents.AcknowledgeIs` | backend/app/services/incident.py:353-419 | it succeeds if and only if the incident exists in status NEW or ESCALATED; it then has status ACKNOWLEDGED and one new entry of the matching type saying so; a refusal changes nothing |
| `Incidents.TriageIs` | backend/app/services/incident.py:500-574 | it succeeds if and only if the incident exists in status ACKNOWLEDGED, ESCALATED or RESOLVED; it then has status TRIAGED and one new entry of the matching type saying so; a refusal changes nothing |
| `Incidents.EscalateIs` | backend/app/services/incident.py:576-647 | it succeeds if and only if the incident exists in status TRIAGED; it then has status ESCALATED and one new entry of the matching type saying so; a refusal changes nothing |
| `Incidents.ResolveIs` | backend/app/services/incident.py:718-784 | it succeeds if and only if the incident exists in status ACKNOWLEDGED or TRIAGED; it then has status RESOLVED and one new entry of the matching type saying so; a refusal changes nothing |
| `Incidents.CloseIs` | backend/app/services/incident.py:786-852 | it succeeds if and only if the incident exists in status RESOLVED; it then has status CLOSED and one new entry of the matching type saying so; a refusal changes nothing |
| `Incidents.DeEscalateIs` | backend/app/services/incident.py:649-716 | for each target the exact statuses it is accepted from, with the same effect |
| `Incidents.CreateIs` | backend/app/services/incident.py:212-307 | one NEW incident with its first entry and announcement, if and only if the title is not blank |
| `Incidents.AssignIs` | backend/app/services/incident.py:421-498 | the stripped assignee is recorded, as a reassignment exactly when it replaces another one; the status stays |
| `Incidents.NoteIs` | backend/app/services/incident.py:854-982 | notes and logged actions add one entry and change nothing else; when each is refused |
| `Incidents.RunTyped` | backend/app/services/incident.py:121-163 | in every run each entry's type and its new status belong together |
| `Incidents.IncidentService.CreateIncident` | backend/app/services/incident.py:212-307 | creation with its first entry, or the refusal of a blank title |
| `Incidents.IncidentService.AcknowledgeIncident` | backend/app/services/incident.py:353-419 | lookup, transition check, status, entry and queued event as one step |
| `Incidents.IncidentService.AssignIncident` | backend/app/services/incident.py:421-498 | assignment or reassignment entry, or the refusal of a blank assignee |
| `Incidents.IncidentService.DeEscalateIncident` | backend/app/services/incident.py:649-716 | any legal target is accepted |
| `Incidents.IncidentService.CloseIncident` | backend/app/services/incident.py:786-852 | closing is a validated transition |
| `Incidents.IncidentService.CommitSession` | backend/app/services/incident.py:42-67 | a commit makes the session's rows permanent and publishes the pending events in order |
| `Incidents.IncidentService.RollbackSession` | backend/app/services/incident.py:70-71 | a rollback restores the committed rows and publishes nothing |
| `Rbac.NoEscalation` | backend/app/services/rbac.py:142-228 | after any run by a set of actors every user's permissions lie in that user's initial ones united with the actors' initial ones |
| `Rbac.NewPermissionComesFromAnActor` | backend/app/services/rbac.py:100-115 | a permission gained in a run was held by an actor at the start |
| `Rbac.SystemRolesFixed` | backend/app/services/rbac.py:156-169 | system roles survive every run unchanged |
| `Rbac.SuperAdminRevokedIffInactive` | backend/app/services/rbac.py:118-197 | an otherwise allowed revocation of SUPER_ADMIN succeeds exactly when the target is inactive |
| `Rbac.AssignRoleIs` | backend/app/services/rbac.py:171-182 | when an assignment succeeds; then the target has the role and its permissions in addition, and nothing else changed |
| `Rbac.RevokeRoleIs` | backend/app/services/rbac.py:184-197 | when a revocation succeeds; then the role is gone, the target's permissions are exactly those of the remaining roles, and nothing else changed |
| `Rbac.AssignPermissionIs` | backend/app/services/rbac.py:199-213 | when a grant succeeds; then exactly the users with the role have the permission in addition |
| `Rbac.RevokePermissionIs` | backend/app/services/rbac.py:215-228 | when a withdrawal succeeds; then exactly those users lose it who have it from no other role |
| `Rbac.CreateRoleIs` | backend/app/services/rbac.py:142-154 | when a creation succeeds: a name, normalized, neither reserved nor taken; the role gives nothing yet |
| `Rbac.UpdateRoleIs` | backend/app/services/rbac.py:156-162 | only the description changes, and never that of a system role |
| `Rbac.DeleteRoleIs` | backend/app/services/rbac.py:164-169 | the role is nobody's any more, and its permissions go where no other role gives them |
| `Rbac.RunNoDuplicates` | backend/app/services/rbac.py:142-228 | in every run no user holds a role twice and no role a permission twice |
| `Rbac.RunUniqueNames` | backend/app/services/rbac.py:142-154 | in every run role names stay unique |
| `Text.StripIs` | backend/app/services/rbac.py:90-91 | stripping takes exactly the white space at both ends |
| `Rbac.RbacService.Assign` | backend/app/services/rbac.py:171-182 | the assignment or the refusal that applies first |
| `Rbac.RbacService.Revoke` | backend/app/services/rbac.py:184-197 | the revocation or the refusal that applies first |
| `Rbac.RbacService.Grant` | backend/app/services/rbac.py:199-213 | the same for granting a permission to a role |
| `Rbac.RbacService.Withdraw` | backend/app/services/rbac.py:215-228 | the same for withdrawing one |
| `Polygon.PointInPolygon` | backend/app/geofencing/engine.py:69-91 | the answer: false below three vertices or outside the box, else the parity of crossings, or the division error |
| `Polygon.RayCast` | backend/app/geofencing/engine.py:77-91 | the toggling loop computes the crossing parity or stops at the first vanishing denominator |
| `Polygon.StraddlesEven` | backend/app/geofencing/engine.py:84 | a closed cycle has an even number of edges straddling a latitude |
| `Polygon.RectangleIs` | backend/app/geofencing/engine.py:77-91 | of a rectangle along the axes the inner points and those on the western and southern side are inside, and no others |
| `Polygon.PrefilterHarmlessIff` | backend/app/geofencing/engine.py:72-91 | for any point outside the box, the crossing count alone would answer false if and only if no edge rises across the latitude by exactly the constant and an even number of edges overshoots, a test by cross-multiplied coordinates that needs the latitude within the constant above the lower end of a rising edge |
| `Polygon.PrefilterHarmless` | backend/app/geofencing/engine.py:72-91 | which holds when the latitude is not within the added constant above the lower end of a rising edge |
| `Polygon.PrefilterHarmlessExact` | backend/app/geofencing/engine.py:72-91 | and always with exact division |
| `Polygon.PrefilterMatters` | backend/app/geofencing/engine.py:85 | a triangle and a point outside its box that the crossing count alone would call inside |
| `Polygon.RotationInvariant` | backend/app/geofencing/engine.py:77-91 | starting the vertex list at any other vertex changes nothing, the division error included |
| `Polygon.ReversalInvariant` | backend/app/geofencing/engine.py:77-91 | with exact division neither does reversing it |
| `Polygon.ReversalHarmlessIff` | backend/app/geofencing/engine.py:77-91 | reversing the list changes nothing if and only if edges rising and falling by exactly the constant are both present, or both absent and an even number of straddling edges has the point west of one of its two computed intersections only, in cross-multiplied coordinates |
| `Polygon.ReversalMatters` | backend/app/geofencing/engine.py:85 | with the constant a point of a triangle's box is inside one way round and outside the other |
| `Priority.ScoreMonotone` | ai/priority/scoring.py:428-450 | more evidence in any component or more confidence never lowers the final score or its level, through all rounding |
| `Priority.FinalInRange` | ai/priority/scoring.py:428-442 | the final score is in [0, 100] and within 0.05 of the unrounded one |
| `Priority.ContributionsReconcile` | ai/priority/scoring.py:388-436 | the displayed contributions sum to within 0.025 of the base score |
| `Priority.ComponentsInRange` | ai/priority/scoring.py:109-334 | every component is in [0, 100] whatever the evidence or override |
| `Priority.DefaultScoreIs` | ai/priority/scoring.py:388-442 | by default the score is the weighted sum with 30, 25, 20, 15 and 10 percent times 0.3 plus 0.7 of the confidence, to one decimal |
| `Priority.DefaultLevelIs` | ai/priority/scoring.py:337-346 | the levels start at 80, 60 and 30 |
| `Priority.ContributionsAre` | ai/priority/scoring.py:388-393 | each displayed contribution is its own component's share |
| `Priority.AssessmentIs` | ai/priority/scoring.py:428-476 | the assessment reports its track, group and time, the final score with its level, and the confidence |
| `Priority.OverrideOrNeutral` | ai/priority/scoring.py:109-334 | an override is taken as it is, clamped; missing evidence is neutral |
| `Priority.BehaviorsRanked` | ai/priority/scoring.py:94-102 | the order and the scores of the behavioural states |
| `Priority.MeasuresAre` | ai/priority/scoring.py:223-334 | measured scores come through clamped, a synchronization index in percent |
| `Priority.KinematicsAre` | ai/priority/scoring.py:289-334 | speed, acceleration and turn rate count 40, 30 and 30, each up to its own cap |
| `Priority.GeofenceIs` | ai/priority/scoring.py:109-177 | inside, approaching by the earliest breach time, diverging and nothing, over all forecasts |
| `Priority.ForecastLowersIff` | ai/priority/scoring.py:109-177 | a further forecast lowers the geofence component if and only if nothing is inside, an approaching track had no breach time, and the forecast gives one of more than 1203/70 seconds |
| `Priority.FirstForecastMayLower` | ai/priority/scoring.py:109-177 | an instance: from 80 to 30 |

## Left out

- Floating-point rounding, haversine distance, circular statistics and the cosine in grid rows: exact reals and parameters instead, so most theorems about the grid are in degrees; the metre claim of `ai/correlation/spatial_grid.py:35-37` is decided along meridians only.
- The dispersion and heading fields of formations: derived values nothing else reads.
- Confidence values, factor lists and reason strings of the classifier and the priority score.
- The empty string as a group identifier, which the store's truthiness checks treat as absent.
- `SpatialHashGrid.query_radius_candidates`, the observation cache of the grid and its inspection accessors: easy members beside the neighbourhood query.
- `Grouping.CorrelateTracks`: a group's centroid, radius of gyration and confidence are not part of the result, because they are trigonometric values nothing else reads; nor is the conversion of foreign objects to observations.
- `Anomaly.DriftBound`: an out-of-order update moves `last_timestamp` back; the run theorems take the decay of each update as given, at most one.
- The store's lock and its thread interleavings: each operation is one step.
- `RedisRateLimitStore`, policy parsing and header rendering of the rate limiter.
- `EventBus.EventBus.Publish`: which envelopes pass the schema is a parameter, and envelope timestamps and metrics are left out; a filter that raises counts as not matching.
- Failed commits in `verify_credentials`, password hashing and sessions.
- `Lockout.AuthService.VerifyCredentials`: when a user name equals another account's e-mail, which of the two the database returns is left open.
- Events whose publication raises: the source logs and skips them.
- Incident numbers, severity, messages, audit records and the timestamps tied to a status; incident purging.
- `Incidents.IncidentService.CreateIncident`: identifiers are supplied by the caller and must be new, as a fresh UUID is.
- Seeding and bootstrapping of roles, user creation and status changes.
- `Polygon.PointInPolygon`: starts from (lon, lat) vertices; the guess of the coordinate order at `backend/app/geofencing/engine.py:61-67` has no specification to state.
- Distance to the geofence boundary and the other geofence shapes.
- `Store.IncrementalIntelligenceStore.UpdateTrack`: a missing observation timestamp falling back to the wall clock; the evaluation time is a parameter.
- Unicode stripping and case mapping: white space is the ASCII set and `Upper` maps ASCII letters.
