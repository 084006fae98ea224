# Keeping MO in step with SD

SD-tool-plus keeps one temporal database of an organisation (OS2mo, "MO") in step with another
(Silkeborg Data's "SD"). This project models the code that decides what to write and writes it, and
proves what the writes come to. `dafny verify dfyconfig.toml` checks all of it.

Time is counted in whole days, with a last day that stands for "for ever". A timeline is a list of
half-open intervals; what it means is the partial function `At` from instants to values. Almost every
main result is a statement about `At` at every instant, or about every state a run goes through.

**Timelines and engagements**

- `Timelines` - intervals, the validators, `combine_intervals` as a normal form, chunks between endpoints.
- `MoDates`, `MoRows`, `PatchTiles` - MO's inclusive validities, MO's rows about one object, patches.
- `EngagementModel`, `MoStore`, `EngagementWrites`, `LeaveWrites` - MO's engagement and leave as a mutable
  store that remembers every state it has been in, and the writes of one chunk.
- `EngagementSync`, `LeaveSync`, `EngagementPipeline`, `EngagementTheorems` - the two write loops, one after the
  other, and what a whole run means.
- `EngagementRun` - strategy, preparation and loops as one run.
- `Removal`, `RegionStrategy`, `NyLevel`, `Managers`, `ElevateManagers` - the strategies that compute the desired
  engagement, each with its pointwise rule.
- `RelatedUnits`, `Forest` - the recursive look-up over a parent relation that changes over time, and the facts
  about parent relations that several parts share.

**Units**

- `OrgUnitTimelines`, `OrgUnitStore`, `OrgUnitWrites`, `OrgUnitSync` - SD's departments, the patches, the ascending
  write loop and the pipeline around it.
- `ParentRequeue` - the queue of unit events in which a unit waits for its parent, or for its children to go.

**Trees**

- `SdTree`, `ExtraUnits` - the SD tree and its completion in arbitrary order.
- `MoTrees` - the breadth-first reconstruction of MO's trees.
- `OrgTrees`, `SubtreeEngagements`, `TreeDiff` - node dictionaries, the memoised search for engagements, the diff.
- `Reparenting`, `TreeDiffExecutor`, `TreeDiffTheorems`, `TreeDiffExamples` - applying the diff step by step, what it
  comes to, and trees on which it falls short.

## Where the code falls short of its intent

Each point names a member with a concrete input and the condition under which, and only under which, the code does
meet its intent.

- The leave loop uses the leave timeline read before the engagement loop, and raises an exception when the
  engagement loop has removed all leave it still wants to terminate. Input: `EngagementPipeline.LeaveLoopCanFail`;
  condition: `EngagementPipeline.FailsIffLost`.
- MO turns the empty string into null and a missing SD unit is written as the text "None"; such values are never
  read back as desired, and the second kind makes MO's rows unreadable for every later run. Inputs:
  `EngagementTheorems.EmptyNameIsLost`, `EngagementTheorems.MissingSdUnitIsUnreadable`; condition:
  `EngagementTheorems.ConvergesIffStorable`.
- In region mode a change of MO's SD unit alone starts no new chunk, so the rule can be missed. Input:
  `RegionStrategy.SdUnitChangeCanBeMissed`; condition: `RegionStrategy.RuleHeldIff`.
- When managers are elevated a change of SD's unit identifier alone starts no new chunk either. Input:
  `ElevateManagers.IdentifierChangeCanBeMissed`; condition: `ElevateManagers.IdentifierHeldIff`.
- Updating a unit asks MO about a range that ends on the chunk's last day, so a row that starts on that day is
  overlooked; terminating a chunk of at most one day does nothing. Inputs: `OrgUnitStore.LastDayRowIsOverlooked`,
  `OrgUnitStore.OneDayUnitStays`; condition: `OrgUnitStore.ConvergesIffForeseen`.
- The memo of the search for engagements marks the nodes between a queried unit and the engagement found as
  processed without engagements. Input: `TreeDiffExamples.MemoCanMissEngagements`; condition:
  `TreeDiff.AnsweredRightlyIff`.
- A unit that is to be moved below one that is held back because of engagements can stand above that one in MO. MO
  refuses the move, and the execution stops half way with an exception. Input:
  `TreeDiffExamples.WithheldUnitStopsExecution`; condition: the equivalence with `SafePlan` in
  `TreeDiffTheorems.CompareAndExecute`.
- A unit put off waits for its parent or its children for ever if these have nothing left to do: a parent neither SD
  nor MO has, or, below a unit SD does not have, a child that SD wants just there. Inputs:
  `ParentRequeue.ParentNobodyHas`, `ParentRequeue.ChildThatStays`; condition: `ParentRequeue.DrainsIffGrounded`.
  Dates are not part of that model: a parent that is as SD wants it, but whose dates do not cover its child's
  (V_DATE_OUTSIDE_ORG_UNIT_RANGE), makes the child wait for ever in the same way.
- The search for engagements asks MO about the units of a candidate's SD subtree, also about those only just to be
  added. MO does not know these, and the comparison ends with an exception. Input:
  `TreeDiffExamples.NewUnitStopsComparison`; condition: the equivalence with `AllSearchable` in
  `TreeDiff.OrgTreeDiff.CompareTrees`.

## Model

| member | source | states |
|---|---|---|
| Timelines.CanonicalIffValid | sdtoolplus/models.py:328-349 | on non-empty intervals the three validators together say exactly: sorted, disjoint at any distance, no repeated value at a touching point |
| Timelines.AtMostOneCovers | sdtoolplus/models.py:351-357 | on a timeline at most one interval covers an instant, so a look-up by instant is never ambiguous |
| Timelines.ConstantOnChunk | sdtoolplus/models.py:351-360 | if a list of endpoints contains all endpoints of a timeline, the timeline has one value throughout each chunk between neighbours |
| Timelines.NothingOutsideHull | sdtoolplus/models.py:351-360 | before the first and from the last of such endpoints on the timeline has no value |
| Timelines.GapFree | sdtoolplus/models.py:362-369 | intervals with a value at every instant of a range, and none outside it, start and end with the range and have no holes |
| Timelines.CombineCanonical | sdtoolplus/models.py:289-308 | combining ordered intervals keeps the value at every instant and yields a canonical list |
| Timelines.CombineIsNormal | sdtoolplus/models.py:289-308 | the result passes every validator, and combining it again changes nothing |
| Timelines.CombineDecidesEquality | sdtoolplus/models.py:289-308 | two ordered lists combine to the same list if and only if they have the same value at every instant |
| Timelines.CanonicalUnique | sdtoolplus/models.py:311-349 | canonical lists with the same values are the same list |
| MoDates.DayShiftRoundTrip | sdtoolplus/mo/timelines/common.py:20-52 | converting an interval to MO's inclusive form and back loses nothing, also at infinity |
| MoDates.PatchIsIntersection | sdtoolplus/mo/timelines/common.py:55-74 | a patch validity is the intersection of the validity found and the chunk |
| PatchTiles.PatchesAreApart | sdtoolplus/mo/timelines/engagement.py:315-363 | the patches of one update are non-empty, inside the chunk and pairwise disjoint |
| PatchTiles.PatchesCoverRows | sdtoolplus/mo/timelines/engagement.py:315-363 | together they are exactly the instants of the chunk at which MO has a row |
| PatchTiles.PatchesTileCoveredChunk | sdtoolplus/mo/timelines/engagement.py:315-363 | they tile the chunk, each beginning where the one before ends, if and only if MO has a row at every instant of it |
| MoRows.FieldTimelineAt | sdtoolplus/mo/timelines/engagement.py:123-247 | a field read back from MO's rows is a canonical timeline with the field's value of the row at every instant |
| EngagementModel.ReadBackMirrors | sdtoolplus/mo/timelines/engagement.py:123-247 | the whole engagement timeline read back says at every instant what MO's row there says, and nothing where there is no row |
| EngagementModel.WrittenReadsBackIffStorable | sdtoolplus/mo/timelines/engagement.py:250-289 | a record written and read again is the same record if and only if it has no empty text and an SD unit |
| EngagementWrites.CreateEngagement | sdtoolplus/mo/timelines/engagement.py:250-289 | the chunk holds the desired record of its start, every other instant is unchanged |
| EngagementWrites.UpdateEngagement | sdtoolplus/mo/timelines/engagement.py:292-388 | at every instant of the chunk with a row the desired values replace the row's, while the attributes MO owns stay as at that instant; a chunk without any row is written as a whole; nothing else changes |
| EngagementWrites.TerminateEngagement | sdtoolplus/mo/timelines/engagement.py:391-438 | the chunk is emptied, every other instant is unchanged, with and without an end |
| LeaveWrites.TerminateLeave | sdtoolplus/mo/timelines/leave.py:202-242 | as for engagements, but it fails, changing nothing, if and only if MO has no leave at all |
| LeaveWrites.TerminateLeaveBeforeEngagementTermination | sdtoolplus/mo/timelines/leave.py:245-293 | leave is removed from exactly the chunk, piece by piece, and every single state on the way keeps leave inside engagement |
| LeaveWrites.CreateLeave | sdtoolplus/mo/timelines/leave.py:69-106 | the chunk holds leave if the engagement covers it, otherwise nothing changes |
| LeaveWrites.UpdateLeave | sdtoolplus/mo/timelines/leave.py:109-199 | the rows found are patched up to the first refusal; none is refused if leave lies inside engagement |
| EngagementSync.SyncChunk | sdtoolplus/sync/engagement.py:159-213 | one pair of endpoints: equal instants are left alone, inactive ones emptied after their leave, incomplete ones left alone, all others hold the desired record; leave never leaves engagement |
| MoStore.NeverOnLeaveUnemployed | sdtoolplus/mo/timelines/leave.py:245-293 | what keeping leave inside engagement means: after no single write is there a day with leave and without engagement |
| EngagementSync.ResultsCompose | sdtoolplus/sync/engagement.py:155-213 | processing an earlier range after a later one processes both, leave included |
| EngagementSync.MergedEndpoints | sdtoolplus/sync/engagement.py:148-157 | between neighbouring merged endpoints neither timeline changes, and outside them both are silent |
| EngagementSync.SyncEngIntervals | sdtoolplus/sync/engagement.py:116-219 | after the reverse loop every instant, inside and outside the endpoints, is what the rule for one instant makes of it; leave is gone exactly where engagements were terminated; every intermediate state keeps leave inside engagement |
| EngagementTheorems.ConvergesIffStorable | sdtoolplus/sync/engagement.py:143-213 | where the desired engagement is active and complete MO afterwards says exactly that, if and only if MO can hold the values or held them already; what MO owns is kept |
| EngagementTheorems.RunCaseByCase | sdtoolplus/sync/engagement.py:159-213 | what is equal, or active but incomplete, is left alone; what is inactive and differs leaves no row; anything else leaves a row with each desired value, the empty text as none and a missing SD unit as the text "None" |
| EngagementTheorems.TerminatesWithEngagement | sdtoolplus/sync/engagement.py:173-185 | where MO has an engagement the leave is terminated if and only if the run leaves no engagement |
| EngagementTheorems.EmptyNameIsLost | sdtoolplus/mo/timelines/engagement.py:250-289 | an engagement with an empty name, after whose run MO does not say what is desired |
| EngagementTheorems.MissingSdUnitIsUnreadable | sdtoolplus/mo/timelines/engagement.py:250-289 | an engagement without an SD unit, after whose run the timeline in MO cannot be read at all |
| EngagementTheorems.RunIsReadable | sdtoolplus/sync/engagement.py:143-213 | after a run towards a desired timeline MO can hold, every row in MO can be read, also if some could not be before |
| EngagementTheorems.FullConvergence | sdtoolplus/sync/engagement.py:143-213 | if MO can hold every record of the desired timeline, reading MO after the run gives the identical timeline; that it can be read is part of the claim |
| EngagementTheorems.SecondRunChangesNothing | sdtoolplus/sync/engagement.py:143-213 | a second run with the same desired timeline leaves every instant as it is |
| EngagementTheorems.NothingWrittenOutsideHull | sdtoolplus/sync/engagement.py:143-157 | outside all endpoints there was nothing and there is nothing |
| LeaveSync.SyncLeaveChunk | sdtoolplus/sync/leave.py:76-131 | one pair of endpoints of the leave loop, with the exact case in which it fails |
| LeaveSync.SyncLeaveIntervals | sdtoolplus/sync/leave.py:27-137 | what the ascending loop makes of every instant, given a leave timeline that may be stale, and exactly when it raises an exception |
| LeaveSync.FailsIffNothingLeft | sdtoolplus/sync/leave.py:83-96 | the loop fails at a chunk if and only if leave is to be terminated there and none is left, told from the state before the loop |
| EngagementPipeline.LeaveConverges | sdtoolplus/sync/leave.py:70-131 | if SD's leave lies inside the desired engagement, MO has leave after both loops exactly where SD has - the row it had, if any, else the new one - although the second loop uses the leave read before the first |
| EngagementPipeline.FailsIffLost | sdtoolplus/sync/engagement.py:966-996 | for any leave: the leave loop fails if and only if, at one of its pairs of endpoints, it wants to terminate leave while the engagement loop has left none from there on and it has itself left none before, all told from the state before both loops |
| EngagementPipeline.FailsIffLeaveGotLost | sdtoolplus/sync/engagement.py:966-996 | if SD's leave lies inside the desired engagement, that is so if and only if some endpoint lost its leave in the first loop with none wanted before it |
| EngagementPipeline.SecondRunIsQuiet | sdtoolplus/sync/engagement.py:966-996 | after a run that succeeded, with SD's leave inside the desired engagement, another one succeeds and leaves engagement and leave as they are at every instant |
| EngagementPipeline.NextRunSucceeds | sdtoolplus/sync/engagement.py:966-996 | after a run that failed in the leave loop the next one does not |
| EngagementPipeline.RunLoops | sdtoolplus/sync/engagement.py:966-996 | both loops from any state of MO and for any leave: the engagement is as ruled even on failure, a desired timeline MO can hold is read back as it is, the leave loop fails exactly as foreseen from the state before and then no leave is left, otherwise leave at every instant is what was foreseen, and leave stays inside engagement in every single state |
| EngagementPipeline.SyncEngagementAndLeave | sdtoolplus/sync/engagement.py:966-996 | the same after reading MO: an exception at once, and nothing written, if MO's rows cannot be read; otherwise all that holds of the two loops |
| EngagementPipeline.LeaveLoopCanFail | sdtoolplus/sync/leave.py:70-96 | a valid input on which the leave loop raises an exception |
| Removal.RemoveRanges | sdtoolplus/sync/engagement.py:73-113 | a canonical timeline that every validator accepts, equal to the input outside the ranges and empty inside |
| Removal.TerminateInPastWhereUnitUnknown | sdtoolplus/sync/engagement.py:585-635 | all seven fields are emptied exactly at instants placed in the unknown unit by an interval that has ended; no such interval is left |
| Removal.CurrentPlacementUntouched | sdtoolplus/sync/engagement.py:606-616 | an interval that ends after now, or lies in another unit, is left alone in every field |
| Removal.FixMissingJobFunctions | sdtoolplus/sync/engagement.py:680-727 | keys MO does not know become "unknown" at every instant, nothing else changes, the result is canonical |
| Removal.NarrowToActive | sdtoolplus/sync/engagement.py:766-793 | one interval cut where MO's unit starts or ends: its unit where that is active, else unknown, without gap or overlap |
| Removal.FixTooNarrowOuValidities | sdtoolplus/sync/engagement.py:730-821 | at every instant placed in a unit other than the unknown one: that unit if MO has it then, else the unknown unit; nothing where there was no unit |
| Removal.PrepareDesired | sdtoolplus/sync/engagement.py:946-964 | the three stages in order, field by field: ended placements in the unknown unit are emptied; elsewhere nothing differs but a job function MO does not know, which is "unknown", and a unit MO does not have then, which is the unknown unit |
| EngagementRun.EngagementOuStrategy | sdtoolplus/sync/engagement.py:638-677 | the strategy the settings choose: a placement if and only if everything that strategy looks up is there, always in region mode; and at every instant the unit managed, the parent in SD's history, or the unit of the region's rule |
| EngagementRun.PlacedEndsInTime | sdtoolplus/sync/engagement.py:638-677 | whatever the strategy, no field of the placement reaches beyond the end of time |
| EngagementRun.SyncEngagement | sdtoolplus/sync/engagement.py:930-996 | the whole of a run: nothing is written if MO cannot be read or the strategy fails; otherwise the placement is that of the strategy, what is desired is, field by field at every instant, what preparation makes of the placement, and both loops end as promised for exactly that timeline |
| RelatedUnits.RelatedUnitAt | sdtoolplus/mo/timelines/related_unit.py:54-72 | the least unit, other than the unit itself, in a relation in force at the instant; none if there is none |
| RelatedUnits.CandidatesFound | sdtoolplus/mo/timelines/related_unit.py:25-51 | a query for a range misses no relation in force at an instant of it |
| RelatedUnits.MaxDepthOfParent | sdtoolplus/mo/timelines/related_unit.py:75-128 | going on to a parent held throughout part of the interval decreases the greatest depth over the interval: why the recursion ends |
| RelatedUnits.ParentAtIsParent | sdtoolplus/mo/timelines/related_unit.py:103-128 | the parent used at an instant is the one MO's row covering that instant gives, none where no row with a parent covers it |
| RelatedUnits.NearestIsNearest | sdtoolplus/mo/timelines/related_unit.py:131-161 | the answer is that of the ancestor-or-self with the fewest steps that has a related unit, else unknown |
| RelatedUnits.NearestIsAnswer | sdtoolplus/mo/timelines/related_unit.py:131-161 | the rule in terms of MO's rows: from the unit up through the parents in force at the instant, past units without a relation in force, to the least related unit of the first that has one, or unknown where the parents end |
| RelatedUnits.ResolveInterval | sdtoolplus/mo/timelines/related_unit.py:131-161 | one chunk of constant relations: the wanted unit at every instant of it |
| RelatedUnits.ResolveViaParents | sdtoolplus/mo/timelines/related_unit.py:75-128 | one chunk without own relation: at every instant the answer MO's rows give then, through parents that change within the chunk |
| RelatedUnits.RelatedUnits | sdtoolplus/mo/timelines/related_unit.py:164-206 | at every instant of the interval the answer MO's relation and parent rows give at that instant: the nearest ancestor-or-self's least related unit, else unknown; only the unit itself counts without recursion; it ends whenever parents are acyclic at each instant |
| RelatedUnits.ResolvedIsPartition | sdtoolplus/mo/timelines/related_unit.py:164-206 | the answer is an ordered partition of the interval without gap |
| RegionStrategy.EngagementOuStrategyRegion | sdtoolplus/sync/engagement.py:447-582 | a canonical timeline that differs in the unit only: at every instant MO's unit if known and if MO's SD unit at the start of the chunk is SD's, else the answer MO's rows give for SD's unit at that instant, recursively only if asked to, unknown without SD's unit |
| RegionStrategy.UnitIntervals | sdtoolplus/sync/engagement.py:517-536 | the first loop: one interval per chunk, with MO's unit if it is to be kept at the chunk's start, else unknown |
| RegionStrategy.PlaceChunk | sdtoolplus/sync/engagement.py:540-560 | one unit interval: kept, or resolved through related units, at every instant of it |
| RegionStrategy.RuleHeldIff | sdtoolplus/sync/engagement.py:508-571 | at an instant the code meets the documented rule if and only if the chunk's start gives the same answer about keeping MO's unit, or the look-up would give that unit anyway |
| RegionStrategy.DocumentedRule | sdtoolplus/sync/engagement.py:508-571 | the rule is met everywhere when MO's SD unit changes only at endpoints of the unit timelines |
| RegionStrategy.SdUnitChangeCanBeMissed | sdtoolplus/sync/engagement.py:508-533 | an input on which the rule is missed |
| RegionStrategy.PlacementHasNoHole | sdtoolplus/sync/engagement.py:508-571 | from the first endpoint to the last there is a unit at every instant |
| NyLevel.ReadParents | sdtoolplus/sync/engagement.py:240-282 | succeeds if and only if every department's parent history is found, valid and free of holes, and says otherwise what is wrong with which |
| NyLevel.ElevateInterval | sdtoolplus/sync/engagement.py:292-318 | one engagement interval cut at the endpoints of its parent timeline: the parent at every instant, without gap |
| NyLevel.ElevateUnits | sdtoolplus/sync/engagement.py:286-318 | all engagement intervals: works if and only if each lies within its department's parents, then has the wanted parent at every instant; otherwise says which interval is the one that does not |
| NyLevel.ElevateToNyLevel | sdtoolplus/sync/engagement.py:222-337 | works if and only if each department's history is found, valid, free of holes and has a parent at every instant of the engagement there; then at every instant a parent SD's history gives that department at that instant, on the same domain |
| Managers.UnitsManagedAt | sdtoolplus/mo/timelines/manager.py:44-59 | one manager object's timeline has the unit exactly where the person is its employee |
| Managers.FirstInCharge | sdtoolplus/mo/timelines/manager.py:67-81 | the loop with break finds the unit of the manager with the lowest identifier in charge at the instant |
| Managers.GetManagerTimeline | sdtoolplus/mo/timelines/manager.py:22-90 | a canonical timeline: at every instant the unit of a manager row in force that has the person, of the manager object with the lowest identifier among those that have one; nothing where no row has |
| ElevateManagers.ElevateManagers | sdtoolplus/sync/engagement.py:340-444 | while active: the unit managed, with its identifier at that instant, wherever one is managed; else SD's unit with SD's identifier at the start of the chunk; nothing while not active; an exception exactly when a value looked up at a chunk's start is missing |
| ElevateManagers.UnitWhereActive | sdtoolplus/sync/engagement.py:405-418 | when everything looked up is there, there is a unit exactly where the engagement is active |
| ElevateManagers.ElevatedIntervals | sdtoolplus/sync/engagement.py:403-423 | the loop over the chunks: succeeds if and only if everything looked up is there at each chunk's start, then unit and identifier have the computed value at every instant |
| ElevateManagers.IdentifierHeldIff | sdtoolplus/sync/engagement.py:390-436 | the identifier is that of its own instant if and only if nobody is active, a unit is managed, or SD's identifier is still that of the chunk's start |
| ElevateManagers.IdentifierOfItsInstant | sdtoolplus/sync/engagement.py:390-436 | so it is everywhere when SD's identifiers change only at endpoints the loop knows |
| ElevateManagers.IdentifierChangeCanBeMissed | sdtoolplus/sync/engagement.py:390-436 | an input on which the identifier is that of an earlier day |
| OrgUnitTimelines.CondensedSingle | sdtoolplus/sd/timelines/org_unit.py:70-89 | where exactly one parent interval covers an instant its value is the parent |
| OrgUnitTimelines.CondensedNone | sdtoolplus/sd/timelines/org_unit.py:70-89 | where no parent interval covers an instant there is no parent |
| OrgUnitTimelines.CondensedSeveral | sdtoolplus/sd/timelines/org_unit.py:70-89 | where two or more do, the parent is unknown |
| OrgUnitTimelines.CondenseMultipleParents | sdtoolplus/sd/timelines/org_unit.py:37-89 | for any finite list of non-empty intervals, unsorted and overlapping ones included: a timeline every validator accepts with the condensed value at every instant |
| OrgUnitTimelines.GetDepartmentTimeline | sdtoolplus/sd/timelines/org_unit.py:131-213 | active, name, identifier and level have one common domain, that of the departments; the parent has its own; everything is empty if SD finds no department or no parents |
| OrgUnitTimelines.PatchMissingParents | sdtoolplus/sync/org_unit.py:58-94 | a parent exactly where the unit is active, its own if there is one, else unknown |
| OrgUnitTimelines.PatchedNames | sdtoolplus/sync/org_unit.py:97-123 | missing names get the placeholder, others and the domain stay |
| OrgUnitTimelines.DesiredUnitTimeline | sdtoolplus/sync/org_unit.py:344-355 | everything MO requires exactly where SD has a department and a parent history, and nothing at all elsewhere: the department's own data, a placeholder for a missing name, the parent if the history gives exactly one at that instant, else unknown |
| OrgUnitStore.ReadBackMirrors | sdtoolplus/mo/timelines/org_unit.py:58-133 | the unit timeline read back says at every instant what MO's row there says |
| OrgUnitStore.ConvergesIffForeseen | sdtoolplus/mo/timelines/org_unit.py:405-560 | a chunk ends up as desired at every instant if and only if that can be foreseen from its length and MO's rows before |
| OrgUnitStore.LastDayRowIsOverlooked | sdtoolplus/mo/timelines/org_unit.py:427-433 | a unit whose last day keeps the old name when it is renamed |
| OrgUnitStore.OneDayUnitStays | sdtoolplus/mo/timelines/org_unit.py:549-555 | a unit of one day that stays although it should be terminated |
| OrgUnitWrites.CreateOu | sdtoolplus/mo/timelines/org_unit.py:330-402 | the chunk is written, or MO refuses, nothing changes and exactly one event for the parent is sent, one lower in number |
| OrgUnitWrites.UpdateOu | sdtoolplus/mo/timelines/org_unit.py:405-538 | succeeds if and only if MO accepts every write for the chunk; then the rows found are patched, hierarchy and time planning stay as they were in every row of a chunk longer than a day, rows starting on the last day are overlooked; on refusal the parent is queued and nothing outside the chunk has changed |
| OrgUnitWrites.PatchFound | sdtoolplus/mo/timelines/org_unit.py:450-497 | the loop over the rows found, which stops at the first refusal and queues the parent |
| OrgUnitWrites.SameWrites | sdtoolplus/mo/timelines/org_unit.py:405-538 | what an update of a chunk sends does not depend on rows before the chunk, nor on how earlier chunks were written |
| OrgUnitWrites.TerminateOu | sdtoolplus/mo/timelines/org_unit.py:541-633 | a chunk longer than a day is emptied, or MO refuses because of active children, nothing changes and they are queued, or it fails because MO has no row there; a shorter one is left alone; all else is unchanged |
| OrgUnitWrites.QueueOuChildren | sdtoolplus/mo/timelines/org_unit.py:302-327 | one event for each child, in order, with the number given; nothing else changes |
| OrgUnitSync.SyncOuChunk | sdtoolplus/sync/org_unit.py:147-200 | one pair of endpoints: done as ruled, stopped for missing data, stopped with the parent or the children queued, or failed because there is nothing to terminate, which takes a field where the unit is not active |
| OrgUnitSync.SyncOuIntervals | sdtoolplus/sync/org_unit.py:126-203 | the ascending loop: all chunks done, or those before the one it stopped at, nothing after that touched, and exactly the events that have to come first queued |
| OrgUnitSync.ChunkConverges | sdtoolplus/sync/org_unit.py:147-203 | after normal completion a chunk agrees with the desired timeline if and only if that was foreseen |
| OrgUnitSync.SyncOu | sdtoolplus/sync/org_unit.py:323-388 | the pipeline: desired is SD's data field by field; it completes if and only if, in MO as it was, nothing stands in the way of any chunk - a write refused or active children - and always if MO refuses nothing; then MO has each desired field on all but the last day of every chunk, every chunk agrees as a whole exactly as foreseen, hierarchy and time planning are kept, and nothing exists outside the endpoints; otherwise the chunks before the first one hindered are done, those after it untouched, and parent or children queued one lower in number |
| ParentRequeue.OrgEvents.Fetch | sdtoolplus/main.py:34-43 | one of the events with the lowest number |
| ParentRequeue.OrgEvents.Handle | sdtoolplus/mo/timelines/org_unit.py:282-327 | nothing to do; or the unit is written below its parent, or terminated once it has no children; or the event stays, and one for the missing parent, or one for each child, is added, one lower in number |
| ParentRequeue.QueuedAreNext | sdtoolplus/mo/timelines/org_unit.py:282-327 | after a unit is put off only the parent or the children queued for it can come next, and the front ranks lower if they do |
| ParentRequeue.StaysUnderway | sdtoolplus/mo/timelines/org_unit.py:375-400 | however an event ends, and whatever SD and MO hold: only units sought are queued, those done are settled, all others are as at first, no parent is missing, and units have been written after their parents and terminated after their children |
| ParentRequeue.SoughtAreSettled | sdtoolplus/mo/timelines/org_unit.py:375-400 | once the queue is empty every unit sought is as SD wants it |
| ParentRequeue.Progress | sdtoolplus/mo/timelines/org_unit.py:375-400 | in a grounded run each event handled decreases: unsettled units, events about settled units, rank of the next unit - down to what MO has below it, then up to what SD has above that |
| ParentRequeue.OrgEvents.Drain | sdtoolplus/main.py:34-43 | a grounded queue drains, whatever the order among equal numbers and of children: every unit queued is below its SD parent in the end, or gone if SD gives none; exactly the units sought that were not settled are written or terminated, once each and in turn; all others stay |
| ParentRequeue.DrainsIffGrounded | sdtoolplus/main.py:34-43 | for any queue, MO and SD without cycles: some run empties the queue if and only if no unit sought lies in SD below a unit sought that SD does not have, which is told before the run |
| ParentRequeue.RunCanEnd | sdtoolplus/main.py:34-43 | every run from a grounded queue, however far it has got, can be continued to an empty queue |
| ParentRequeue.NeverEmpty | sdtoolplus/main.py:34-43 | in a run that is not grounded some event is queued after any number of steps, in whatever order they are taken |
| ParentRequeue.ParentNobodyHas | sdtoolplus/mo/timelines/org_unit.py:375-400 | a unit that waits for ever for a parent neither SD nor MO has |
| ParentRequeue.ChildThatStays | sdtoolplus/mo/timelines/org_unit.py:607-632 | a unit SD does not have that waits for ever for a child to go that SD wants below it |
| ParentRequeue.RunKeepsForest | sdtoolplus/mo/timelines/org_unit.py:375-400 | where the units both have were settled before a run, no unit is above itself after it |
| OrgTrees.AddNodeChildren | sdtoolplus/diff_org_trees.py:46-50 | the assignments made are the units of the tree with their parents, in preorder |
| OrgTrees.UnitsAreAllBelow | sdtoolplus/diff_org_trees.py:46-50 | the units listed, each with its parent, are the children of the root and the children of units listed |
| OrgTrees.UuidToNodesMap | sdtoolplus/diff_org_trees.py:33-52 | with unique identifiers the dictionary lists the units in preorder, each with its own node and parent |
| OrgTrees.ParentsComeFirst | sdtoolplus/diff_org_trees.py:46-50 | in that order the parent of every unit is the root or comes earlier |
| OrgTrees.TreeIsRanked | sdtoolplus/diff_org_trees.py:33-52 | positions in that order decrease from unit to parent and end at the root |
| SubtreeEngagements.ScanIsExact | sdtoolplus/diff_org_trees.py:223-241 | a search that stops at the first hit tells whether anything below is engaged, as long as MO knows all of it |
| SubtreeEngagements.VisitedBelow | sdtoolplus/diff_org_trees.py:223-241 | what a search finds below a node it has looked at: it meets no unit MO does not know there, and looks at nothing it has not looked at already |
| SubtreeEngagements.SearchKeepsSound | sdtoolplus/diff_org_trees.py:223-241 | a search from any node keeps the memo sound: hits have engagements at or below them and are processed, other processed nodes have none themselves |
| TreeDiff.ObsoleteIsBelowRoot | sdtoolplus/diff_org_trees.py:55-71 | the check holds if and only if one of the obsolete roots stands above the unit |
| TreeDiff.OrgTreeDiff.HasActiveEngagements | sdtoolplus/diff_org_trees.py:182-210 | answers what MO answers and records name and identifier of engaged units, no others |
| TreeDiff.OrgTreeDiff.AddNodeIfSubtreeHasEngagements | sdtoolplus/diff_org_trees.py:223-245 | the recursive search visits the preorder of the subtree up to the hit, marks exactly those nodes as processed, and records exactly root and hit |
| TreeDiff.OrgTreeDiff.SubtreeHasActiveEngagements | sdtoolplus/diff_org_trees.py:212-245 | the memo's answer without any change for a node already processed, else what the search finds and the memo it leaves; a sound memo stays sound |
| TreeDiff.MemoAnswer | sdtoolplus/diff_org_trees.py:220-221 | in a sound memo, whatever queries led to it, a yes is right about the subtree and a no about the node itself |
| TreeDiff.NextAnswer | sdtoolplus/diff_org_trees.py:212-245 | with a memo left by the queries before: the answer for the next candidate is an exception if and only if its own search would meet a unit MO does not know, and else yes exactly if the candidate is to be held back |
| TreeDiff.AnsweredRightlyIff | sdtoolplus/diff_org_trees.py:132-144 | a candidate is held back rightly if and only if nothing is engaged at or below it, it is engaged itself, or no earlier candidate's search has looked at it |
| TreeDiff.OrgTreeDiff.PartitionByEngagements | sdtoolplus/diff_org_trees.py:132-144 | ends without exception if and only if no candidate's search meets a unit MO does not know; then a candidate is held back if and only if something is engaged at or below it and it is engaged itself or no earlier candidate's search has looked at it |
| TreeDiff.ExactWhenApart | sdtoolplus/diff_org_trees.py:132-144 | in particular, if no candidate lies below an earlier one, exactly those with engagements in their subtree are held back |
| TreeDiffExamples.MemoCanMissEngagements | sdtoolplus/diff_org_trees.py:212-245 | two trees and MO's answers for which the comparison moves a candidate although a unit below it is engaged |
| TreeDiff.OrgTreeDiff.CompareTrees | sdtoolplus/diff_org_trees.py:96-144 | raises an exception if and only if some candidate's search meets a unit MO does not know, told from the two trees and MO's answers; otherwise the three lists are the plan for the two trees with exactly the units held back that the rule names |
| TreeDiffTheorems.PlanMembers | sdtoolplus/diff_org_trees.py:101-144 | a unit is added if and only if MO lacks it, updated or held back if and only if its parent or name differs, and never both |
| TreeDiffTheorems.HigherFirst | sdtoolplus/diff_org_trees.py:118-144 | of two updates the unit higher up in SD comes first, those into obsolete subtrees after all others |
| TreeDiffTheorems.PlanIsOrderly | sdtoolplus/diff_org_trees.py:118-144 | if no unit is moved below one held back, every unit is moved after all units above it are in place |
| TreeDiffTheorems.NoneBelowWithheldIsSafe | sdtoolplus/tree_diff_executor.py:317-369 | then no move ever takes a unit to itself or to one below it, as MO is at that moment |
| TreeDiffTheorems.SafePlanHasNoCycle | sdtoolplus/tree_diff_executor.py:317-369 | what a safe plan comes to has no cycle |
| TreeDiffTheorems.PlanFindsParents | sdtoolplus/diff_org_trees.py:101-144 | without filters the parent of everything added or updated is the root, in MO or among the units added |
| Reparenting.CarefulIsAcyclic | sdtoolplus/tree_diff_executor.py:317-369 | a relation that is partly MO's and partly SD's has no cycle and no missing parent as long as moved units have all above them in place and added units their parent |
| Forest.MoveIsSafeIff | sdtoolplus/tree_diff_executor.py:75-112 | one move in a relation without a cycle leaves none if and only if the unit neither is its new parent nor stands above it |
| Forest.StandsAboveIff | sdtoolplus/tree_diff_executor.py:75-112 | going up from a unit, never through one twice, finds exactly the units that stand above it, in relations with cycles, too |
| TreeDiffExecutor.FiltersKeepWork | sdtoolplus/filters.py:50-78 | exactly the units asked for whose name matches no expression are added, and of the updates those asked for, names mattering only if the setting says so; filtering keeps SD's order, and what is left is still additions and updates |
| TreeDiffExecutor.MoUnits.AddUnit | sdtoolplus/tree_diff_executor.py:115-155 | accepted if and only if the parent is there; then exactly this unit gets parent and name |
| TreeDiffExecutor.MoUnits.UpdateUnit | sdtoolplus/tree_diff_executor.py:75-112 | accepted if and only if unit and parent are there and the unit does not come to lie below itself; then exactly this unit gets parent and name |
| TreeDiffExecutor.AddAll | sdtoolplus/tree_diff_executor.py:320-348 | all additions succeed if and only if each parent is the root, in MO or among them; no state has a cycle or a missing parent |
| TreeDiffExecutor.UpdateAll | sdtoolplus/tree_diff_executor.py:350-369 | the updates are accepted one after the other up to the first MO refuses, and the state is that after exactly those |
| TreeDiffExecutor.OrderlyMovesAreSafe | sdtoolplus/tree_diff_executor.py:350-369 | units moved after everything above them has been settled are never moved to themselves or below themselves |
| TreeDiffExecutor.SafeMovesKeepAcyclic | sdtoolplus/tree_diff_executor.py:350-369 | if no update moves its unit to itself or below itself there is no cycle after them |
| TreeDiffExecutor.Execute | sdtoolplus/tree_diff_executor.py:317-369 | with filters and dry run: nothing written on a dry run; success if and only if all parents are foreseen and no update moves its unit to itself or below itself, told before the run; then exactly the units kept have their SD parent and name; an execution that stops has come exactly as far as the updates before; everything written is free of cycles and missing parents |
| TreeDiffTheorems.ExecutePlan | sdtoolplus/tree_diff_executor.py:317-369 | an unfiltered execution of a comparison succeeds if and only if the plan is safe, which the two trees and the units held back decide; whether it does or not, all it writes is free of cycles and missing parents, and it has come exactly as far as the updates before |
| TreeDiffTheorems.FinalAgrees | sdtoolplus/tree_diff_executor.py:317-369 | in the end an SD unit has its SD parent and name if and only if it was not held back |
| TreeDiffTheorems.OthersAreUntouched | sdtoolplus/tree_diff_executor.py:317-369 | units SD does not have keep parent and name, and none appears |
| TreeDiffTheorems.SecondComparison | sdtoolplus/diff_org_trees.py:96-144 | comparing SD with any tree that shows the final state finds nothing to add and, as candidates for an update, exactly the units held back |
| TreeDiffTheorems.CompareAndExecute | sdtoolplus/tree_diff_executor.py:317-369 | the comparison raises an exception exactly when foreseen, writing nothing; the execution succeeds if and only if the plan is safe, which it is if no unit is held back; every relation written is free of cycles and missing parents; all SD units have their SD values in the end if and only if none was held back |
| TreeDiffExamples.WithheldUnitStopsExecution | sdtoolplus/diff_org_trees.py:132-144 | two trees whose plan is not safe, and would end in a cycle, because an engaged unit was held back |
| TreeDiffExamples.NewUnitStopsComparison | sdtoolplus/diff_org_trees.py:191-245 | two trees whose comparison ends with an exception although MO knows all units of its own tree |
| SdTree.Tree.ProcessNode | sdtoolplus/sd/tree.py:133-203 | an exception, and nothing added, if and only if a department up to the first one present has no data or nests several references; otherwise nothing present changes and the departments added have the parents the reference gives them |
| SdTree.Attached | sdtoolplus/sd/tree.py:163-203 | processing a reference leaves what is in the tree as it is, and gives what it adds the parents the reference says |
| SdTree.BuildTree | sdtoolplus/sd/tree.py:322-361 | for any references: an exception exactly if one of them cannot be processed after those before it, and otherwise a department has the parent given by the first reference that reaches it; for references that follow SD's parents: the tree of exactly the departments named, each below its SD parent, or an exception if and only if one of them has no data |
| SdTree.NewFitsIff | sdtoolplus/sd/tree.py:157-164 | a reference that names nothing present is processed if and only if all it names has data and none of it nests several references |
| SdTree.RepeatedIsNotLookedInto | sdtoolplus/sd/tree.py:160-161 | a reference that is processed although it nests two departments without data, because its own is in the tree already |
| SdTree.BuiltIsForest | sdtoolplus/sd/tree.py:322-361 | also when references disagree the tree has no cycle and no missing parent, as long as none names a department again above itself |
| SdTree.FollowsIsForest | sdtoolplus/sd/tree.py:322-361 | a tree that follows SD's parents has no cycle and no missing parent |
| SdTree.GetExtraNodes | sdtoolplus/sd/tree.py:206-237 | the departments no reference names at any level |
| ExtraUnits.ReachesIffArrives | sdtoolplus/sd/tree.py:261-319 | a unit reaches the tree if and only if asking SD for the parent again and again leads to the institution, the root or a unit of the tree |
| ExtraUnits.BlockedIffMeets | sdtoolplus/sd/tree.py:261-319 | it is blocked if and only if on the way there, before the first such place, it meets a unit without data |
| ExtraUnits.GetParentNode | sdtoolplus/sd/tree.py:261-319 | a parent node if and only if the units above arrive at the institution, the root or the tree; an exception if and only if they do so past one without data; the node is the parent SD gives, the root for the institution; ancestors created below their SD parents, and the units left waiting are not in the tree |
| ExtraUnits.BuildExtraTree | sdtoolplus/sd/tree.py:364-414 | for any references, in whatever order units are taken: it ends, raises an exception if and only if some department no reference names meets a unit without data on its way up, and otherwise has exactly those of them in the tree that arrive; every unit added hangs below its SD parent, or the root for the institution, and is added once |
| ExtraUnits.BuildFullTree | sdtoolplus/sd/importer.py:101-114 | both parts together for any references: an exception if and only if a reference cannot be processed or a department is blocked, otherwise the completed tree |
| ExtraUnits.OrderDoesNotMatter | sdtoolplus/sd/tree.py:390-412 | any two runs give the same tree |
| ExtraUnits.CompletedIsForest | sdtoolplus/sd/tree.py:364-414 | the completed tree has no cycle and no missing parent |
| ExtraUnits.FullTreeIsForest | sdtoolplus/sd/importer.py:101-114 | the full tree has no cycle and no missing parent, also when references disagree |
| MoTrees.NamingMembers | sdtoolplus/mo_org_unit_importer.py:289-294 | the children found for a unit are the units naming it as parent, once each |
| MoTrees.NamingOrder | sdtoolplus/mo_org_unit_importer.py:289-294 | of two units naming the parent the one that comes first in the input comes first among the children |
| MoTrees.BuildTrees | sdtoolplus/mo_org_unit_importer.py:266-305 | with unique identifiers, none the organisation's, it ends even if unreachable units form cycles; every reachable unit is taken once, after its parent, with exactly the units naming it as children in input order; no unreachable unit is touched |

## Left out

Assumptions about what surrounds the code:

- Time zones, daylight saving and sub-day times; an interval is a range of whole days.
- MO answers a query for a range with exactly the validities that overlap it, an object exists if and only if it has
  a row, and a write replaces what was there in its range; MO refuses leave on days without an engagement, and a unit
  whose parent it does not have or that would come to lie below itself.
- MO's GraphQL schema, SD and DAR calls, FastAPI, AMQP, logging, retries, mails, settings and the run database.
- Which writes about units MO accepts is a parameter (`Accepts`); without a parent there is nothing to refuse.
- Class look-ups (engagement types, unit types and levels, job functions) succeed; addresses, telephone numbers,
  P-numbers, associations and persons are not modelled.
- SD's histories are chronological with non-empty intervals; the unknown unit is configured, and condensing several
  parents is switched on.
- Key and identifier prefixes, and the restriction of the unit read to MO's SD subtree.
- Regular expressions in the name filter are a predicate on names.
- Units of one tree have unique identifiers, different from the root's. The dictionary itself is modelled without this.
- Dates of tree mutations (`_truncate_start_date`, `_fix_parent_unit_validity`) and the values the executor yields.
- When a termination is refused because of children, the query for them answers with the same children; which ones is a
  parameter (`ActiveChildren`). Any other error of MO's is not modelled. Addresses terminated with a unit are left out.
- An update that sends null for an engagement's identifier of its SD unit (`extension_4`) is taken to clear it;
  `sdtoolplus/mo/timelines/engagement.py:334-336` suggests that null alone may leave a field as it is.
- Parents named by SD that stand for an institution are not replaced by MO's root for it
  (`sd_institution_to_mo_root_ou_uuid_map`).

Contracts that say less than one might wish:

- RegionStrategy.DocumentedRule: one way; the exact condition at one instant is RegionStrategy.RuleHeldIff.
- ElevateManagers.IdentifierOfItsInstant: one way; the exact condition at one instant is ElevateManagers.IdentifierHeldIff.
- OrgUnitWrites.UpdateOu: for a chunk of one day the source asks MO about a range with equal ends; the model has MO answer with no rows, so that the chunk is written as a whole, while `sdtoolplus/mo/timelines/related_unit.py:181-184` suggests that MO may refuse.
- ParentRequeue.OrgEvents.Handle: a unit counts as present in MO or absent, without dates; MO refuses a write for a missing parent and a termination for children, and for no other reason.
- EngagementPipeline.LeaveConverges: only for SD leave inside the desired engagement; what any other comes to is part of RunEnds, which EngagementPipeline.RunLoops ensures.
- EngagementPipeline.FailsIffLeaveGotLost: the same; the condition for any leave is EngagementPipeline.FailsIffLost.
- TreeDiff.ExactWhenApart: one way; the exact condition for one candidate is TreeDiff.AnsweredRightlyIff.
- TreeDiffTheorems.NoneBelowWithheldIsSafe: one way; the exact condition is SafePlan itself.
- SdTree.BuiltIsForest: a department that a reference names again above itself gets two nodes in the source; the model's parent relation keeps one entry for it, so nothing is claimed for such references.
- ExtraUnits.BuildExtraTree: requires acyclic parent answers, a unit being its own parent excepted, and that the root is no department.
- LeaveSync.SyncLeaveIntervals: more than one engagement for a key, an exception in the source, is not modelled.
