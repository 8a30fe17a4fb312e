# AutoStructure: a verified model

AutoStructure is an Eclipse scripting (ESAPI) script for radiotherapy planning. It reads the
PTVs (planning target volumes) a plan is meant for from the plan id. It then adds optimisation
helper structures to the structure set:

- a merged PTV `z_PTV_ges`, or failing that the largest PTV;
- organs at risk cropped away from that target (`z_<organ>`);
- a message box listing the PRVs that overlap the target;
- a control ring `z_Ring_<id>` around the target;
- for every child PTV, its parent cropped around the child (`z_PTV_<parent>`).

This project models three versions of the script:

- the current `AutoStructure.cs`;
- the 21.02.22 version in `bkp/AutoStructure_210222.cs`;
- the 18.02.22 version in `bkp/AutoStructure_180222.cs`.

It proves what each step does to the structure set.

How the model is built:

- **The structure set** is a class, `Structures.StructureSet`. It holds the ids in the order the
  host lists them (`names`) and the structures by id (`table`). Each host call is a method:
  `AddStructure` (which finds an existing id instead of failing, as every `try`/`catch` around
  it does), `RemoveStructure`, and the setters for the segment, the colour and the structure
  code. Each method states its new state as a pure function of the old one, on the value
  `Structures.Store`.
- **Every generator** of the script is a method that changes the structure set in place with
  loops. Each is proved equal to a specification function on `Store` values, with the same
  branches and the same order of calls. What the script promises is proved about those
  functions as lemmas.
- **Results.** A step either returns or throws. `Results.Outcome` records which: `Completed`, or
  `Threw` with the exception. A throw stops the run with every change made before it.
  `Structures.Run` carries the final store, the outcome and the message boxes shown, in order.
- **Geometry.** A segment is a finite set of voxels and its volume is the number of voxels.
  `Margin` is the Chebyshev dilation of that set (an erosion for a negative distance).
  Distances are in tenths of a millimetre: the 20 mm ring is 200, the 3 mm crop is 30, the
  0.3 mm crop of the 21.02.22 version is 3 and the 2 mm step per enclosing PTV is 20.
- **Regular expressions.** Each pattern the scripts use is a small matcher written out over
  `seq<char>`. Its contract states what the pattern accepts.
- **The main theorem for each version** (`ExecuteKeepsUserStructures`): a run changes only `tmp`
  and structures whose id starts with `z_`. That includes a `z_` structure the user made: the
  current script, for instance, crops a user-made `z_PTV_ges` around a child PTV
  (`AutoStructure.cs:273-277`), because a non-empty user-made `z_PTV_ges` becomes the target
  (`AutoStructure.cs:155-158`) and is added to the PTV list (`AutoStructure.cs:83-86`). When a run completes, it leaves no `tmp` behind. In the table below,
  "user structures" means every structure other than `tmp` whose id does not start with `z_`.

Behaviour of the scripts that the model keeps as written:

- The dash form of a plan id (`c1A-1DCBA`) yields the chain `1DCBA, 1CBA, 1BA, 1A`, because the
  character at index 1 is deleted each time (`AutoStructure.cs:423`).
- The enumerated form takes every match of `\d[A-Z]+` in the plan id, left to right, whatever
  character follows it (`AutoStructure.cs:429-433`).
- Volumes are compared with `>` and `<` exactly (`AutoStructure.cs:138`, `143`, `148`).
- An empty list of resolved PTVs raises no error of its own. What follows depends on the version:
  - The current script always calls `CreateMaxMergedPTV` (`AutoStructure.cs:82`). A non-empty
    user-made `z_PTV_ges` becomes the target and the run goes on (`AutoStructure.cs:155-158`).
    Otherwise `ptvmax.Volume` dereferences null inside `CreateMaxMergedPTV`
    (`AutoStructure.cs:148`), and the run throws with `tmp` and `z_PTV_ges` left in the set.
  - The 21.02.22 version calls `CreateMaxMergedPTV` only for two or more PTVs, so the target is
    null (`bkp/AutoStructure_210222.cs:58-66`). The first organ throws
    (`bkp/AutoStructure_210222.cs:262`), or else the first PRV does (line 297), leaving `tmp`
    behind. With no organ and no PRV, the run completes.
  - The 18.02.22 version takes a non-empty user-made `z_PTVges` as the target
    (`bkp/AutoStructure_180222.cs:88-92`). Otherwise it removes `z_PTVges` and the target is null.
    The first organ throws (`bkp/AutoStructure_180222.cs:179`), or else the first PRV does
    (line 208). With no organ and no PRV, the run completes and removes `tmp`.
- A generator that throws does not remove its `tmp`.

## Model

| member | source | states |
|---|---|---|
| Text.RemoveAt | AutoStructure.cs:423 | `String.Remove(i, 1)` drops exactly the character at `i` and keeps both sides |
| Text.UpperRun | AutoStructure.cs:354 | the greedy `[A-Z]+` run from `i` is all uppercase and stops at the end or at a non-uppercase character |
| Text.AzRun | AutoStructure.cs:182 | the greedy `[A-z]+` run from `i` stays in `'A'..'z'` and stops at the end or outside that range |
| Geometry.Cube | AutoStructure.cs:204 | the cube of a margin holds exactly the voxels within Chebyshev distance `d` |
| Geometry.MarginContains | AutoStructure.cs:204 | a structure lies inside its own non-negative margin |
| Geometry.MarginMonotone | AutoStructure.cs:208 | a larger margin distance never gives a smaller margin |
| Geometry.MarginOfSubset | AutoStructure.cs:301 | the margin of a subset is a subset of the margin |
| Structures.FindOrAdd | AutoStructure.cs:117-118 | an existing id is returned unchanged; a new id is added empty, with the given type and no colour or code, and nothing else changes |
| Structures.Delete | AutoStructure.cs:160 | removing a structure drops exactly that id and keeps the set well formed |
| Structures.DeleteKeepsOrder | AutoStructure.cs:160 | removing a structure drops its one entry from the listing and the remaining ids keep their order; an id not listed changes nothing |
| Structures.SetVox | AutoStructure.cs:142 | assigning a segment changes that structure's voxels only |
| Structures.SetColor | AutoStructure.cs:308 | assigning a colour changes that structure's colour only |
| Structures.SetCode | AutoStructure.cs:309 | assigning a structure code changes that structure's code only |
| Structures.StructureSet.constructor | AutoStructure.cs:65 | the object holds the given well-formed structure set |
| Structures.StructureSet.AddStructure | AutoStructure.cs:117-118 | the new state is `FindOrAdd` of the old; `created` holds exactly when the id was new |
| Structures.StructureSet.RemoveStructure | AutoStructure.cs:160 | the new state is the old one without that id |
| Structures.StructureSet.SetSegment | AutoStructure.cs:145 | the new state is the old one with that segment replaced |
| Structures.StructureSet.SetStructureColor | AutoStructure.cs:210 | the new state is the old one with that colour replaced |
| Structures.StructureSet.SetStructureCode | AutoStructure.cs:211 | the new state is the old one with that structure code replaced |
| PlanName.DashCapture | AutoStructure.cs:415-417 | a match of `\d[A-Z]+?-(\d[A-Z]{3,})` captures a digit followed by at least three uppercase letters |
| PlanName.ChainShape | AutoStructure.cs:420-424 | the chain of a token of length n has n-1 entries; entry k is the token with characters 1..k deleted |
| PlanName.ChainTokens | AutoStructure.cs:420-424 | every chain entry is again a digit followed by uppercase letters |
| PlanName.TokensAreMaximalMatches | AutoStructure.cs:429-433 | every enumerated suffix is a greedy match of `\d[A-Z]+` at some position of the plan id (soundness; completeness and order are `TokensAreAllMatches`) |
| PlanName.TokensAreAllMatches | AutoStructure.cs:429-433 | the enumerated suffixes are exactly the greedy `\d[A-Z]+` matches starting at each digit that is followed by an uppercase letter, left to right |
| PlanName.TokensComplete | AutoStructure.cs:429-433 | every digit followed by an uppercase letter starts a greedy match that is among the enumerated suffixes |
| PlanName.SuffixesAreTokens | AutoStructure.cs:414-434 | every suffix read from a plan id has the `\d[A-Z]+` form |
| PlanName.ExtractSuffixes | AutoStructure.cs:411-434 | the two loops return exactly the suffixes of the plan id, all of token form |
| PlanName.DashFormExample | AutoStructure.cs:414-425 | `c1A-1DCBA` yields `1DCBA, 1CBA, 1BA, 1A` |
| PlanName.NoDashNoCapture | AutoStructure.cs:415-418 | a plan id with no dash never takes the dash branch |
| PlanName.EnumeratedFormExample | AutoStructure.cs:426-434 | `c1A1BA1CBA1DCBA` yields `1A, 1BA, 1CBA, 1DCBA` in that order |
| PlanName.PlanTokensFromPlans | bkp/AutoStructure_210222.cs:316-322 | every suffix gathered from the course's plans has token form and is a match in one of the plan ids (soundness only) |
| PlanName.SinglePlanReading | bkp/AutoStructure_210222.cs:315-321 | for a single plan id without a dash, the 21.02.22 reading equals the current one |
| PlanName.DashPlanReading | bkp/AutoStructure_210222.cs:315-321 | on `c1A-1DCBA` the 21.02.22 reading finds only `1A, 1DCBA`, where the current script finds the whole chain |
| PlanName.GatherPlanTokens | bkp/AutoStructure_210222.cs:313-322 | the nested loops over plans and matches return exactly the gathered suffixes |
| PlanName.ResolvedPtvs | AutoStructure.cs:436-460 | the resolved PTVs are distinct; every suffix had at most one candidate; a PTV is listed exactly when it is the only structure starting with `PTV_` plus some suffix |
| PlanName.ResolvedMissing | AutoStructure.cs:455-458 | the suffixes reported as missing are exactly those with no candidate, in order |
| PlanName.ResolvedOrder | AutoStructure.cs:436-453 | the resolved PTVs are listed in the order of the suffixes that first found them: of two PTVs, the earlier one has a suffix that matched it before any suffix matched the later one |
| PlanName.AmbiguousSuffix | AutoStructure.cs:441-449 | an aborted resolution names a suffix of the plan with more than one candidate |
| PlanName.ResolvePtvs | AutoStructure.cs:436-461 | the loop computes the resolution; on success the PTVs are distinct structures of the set |
| PlanName.AmbiguityIsFinal | AutoStructure.cs:445-449 | once a suffix is ambiguous, the remaining suffixes change nothing (the exception ends the loop) |
| Hierarchy.PtvHead | AutoStructure.cs:354-356 | `^(PTV_\d[A-Z]+)` matches exactly the ids starting with a PTV name; the match is a greedy prefix |
| Hierarchy.GetParentId | AutoStructure.cs:352-371 | a non-PTV id has no parent; a parent found is a PTV name listed in the PTVs and shorter than the child's head |
| Hierarchy.GetParentCount | AutoStructure.cs:332-344 | the count is zero exactly when there is no parent |
| Hierarchy.AncestorStep | AutoStructure.cs:359 | removing index 5 from an ancestor gives the next ancestor |
| Hierarchy.ParentWalk | AutoStructure.cs:357-368 | the parent is the nearest listed ancestor, and is empty exactly when no ancestor is listed |
| Hierarchy.ParentOfHead | AutoStructure.cs:354-359 | the parent of an id is the parent of its PTV head |
| Hierarchy.CountIsListedAncestors | AutoStructure.cs:332-344 | the parent count equals the number of listed ancestors |
| Merge.MergeStep | AutoStructure.cs:137-146 | one merge iteration changes no id and no listing |
| Merge.MergeLoop | AutoStructure.cs:135-147 | the merge loop changes no id and no listing |
| Merge.Prepared | AutoStructure.cs:116-128 | after the two find-or-adds, `tmp` and `z_PTV_ges` exist; everything else is untouched and a user-made `z_PTV_ges` keeps its segment |
| Merge.MaxMerged | AutoStructure.cs:110-168 | a non-empty list of PTVs always yields a target |
| Merge.UnionGrows | AutoStructure.cs:142-146 | the union is strictly larger exactly when the PTV is not already inside the accumulator |
| Merge.MergeLoopFrame | AutoStructure.cs:135-147 | the loop changes nothing but `tmp` and the merged PTV |
| Merge.MergeLoopUnion | AutoStructure.cs:135-147 | after the loop the merged PTV is the old one joined with every listed PTV |
| Merge.MergeLoopVox | AutoStructure.cs:135-147 | the loop leaves every other segment unchanged |
| Merge.MaxOfIn | AutoStructure.cs:131-141 | the largest PTV found is the first one or one of the list |
| Merge.MergeLoopMax | AutoStructure.cs:131-141 | the target the loop tracks is the first PTV of the largest volume |
| Merge.MaxOfBound | AutoStructure.cs:137-141 | no listed PTV is larger than the one the loop keeps |
| Merge.MaxOfFirst | AutoStructure.cs:138-141 | the PTV kept is the start or the first PTV strictly larger than all before it |
| Merge.UserMergedWins | AutoStructure.cs:155-160 | a non-empty `z_PTV_ges` is returned untouched and only `tmp` is removed |
| Merge.LoopFacts | AutoStructure.cs:131-147 | from an empty `z_PTV_ges`, the loop yields the first largest PTV and the union of all PTVs |
| Merge.MaxOfFrame | AutoStructure.cs:138-141 | the choice depends only on the PTVs' segments |
| Merge.MaxOfIsFirstLargest | AutoStructure.cs:131-141 | the kept PTV is the first of the largest volume |
| Merge.MergeFromFrame | AutoStructure.cs:148-160 | `tmp` is gone; `z_PTV_ges` stays exactly when it is the target; nothing else changes |
| Merge.MergedFrame | AutoStructure.cs:117-160 | the whole merge yields a target, removes `tmp`, keeps `z_PTV_ges` exactly when it is the target and changes nothing else |
| Merge.MergeFromChoice | AutoStructure.cs:148-153 | a union larger than the largest PTV becomes the target; otherwise the largest PTV does |
| Merge.MergedOrLargest | AutoStructure.cs:110-168 | the target is the union of all PTVs, strictly larger than each, or else the first largest PTV, at least as large as the union |
| Merge.MergeFromKeeps | AutoStructure.cs:148-160 | the last step changes only `tmp` and `z_PTV_ges` and keeps the set well formed |
| Merge.MaxMergedKeeps | AutoStructure.cs:110-168 | the merge touches only `tmp` and `z_` structures and keeps the set well formed |
| Merge.UnionOfBounds | AutoStructure.cs:142-146 | the union contains every listed PTV and nothing outside them |
| Merge.UnionOfFrame | AutoStructure.cs:142 | the union depends only on the listed segments |
| Merge.MergeSegments | AutoStructure.cs:135-147 | the `foreach` loop performs exactly the specified merge loop |
| Merge.MergeOne | AutoStructure.cs:137-146 | one loop body performs exactly one merge iteration |
| Merge.CreateMaxMergedPTV | AutoStructure.cs:110-168 | the method performs the specified merge and returns its target |
| Oars.OarStep | AutoStructure.cs:300-320 | one organ keeps `tmp` in the set |
| Oars.OarLoop | AutoStructure.cs:298-321 | the organ loop keeps `tmp` in the set |
| Oars.OarStepFrame | AutoStructure.cs:300-320 | one organ shows no message and changes only `tmp` and `z_` structures |
| Oars.OarStepKeeps | AutoStructure.cs:300-320 | one organ keeps every user structure |
| Oars.OarLoopFrame | AutoStructure.cs:298-321 | the loop shows no message and changes only `tmp` and `z_` structures |
| Oars.OarStepContents | AutoStructure.cs:300-320 | an organ further than the margin from the target, or a nerve, only sets `tmp`. A short id throws. Otherwise an existing non-empty helper is left as it is and only `tmp` changes; an empty helper gets the organ minus the target's margin and stays only if that is non-empty; a new helper takes the organ's colour and the Control code |
| Oars.CroppedOarsKeeps | AutoStructure.cs:291-323 | `CreateCroppedOARs` keeps user structures, shows nothing and removes `tmp` when it completes |
| Oars.OarFor | AutoStructure.cs:300-320 | the loop body performs exactly one organ step |
| Oars.CreateCroppedOARs | AutoStructure.cs:291-323 | the method performs the specified cropping of all organs |
| Oars.CropEach | AutoStructure.cs:298-321 | the `foreach` loop performs the specified organ loop |
| Oars.OarLoopThrown | AutoStructure.cs:307 | an exception from `Substring(4)` ends the loop with the state reached |
| Prvs.PrvLoop | AutoStructure.cs:387-396 | the PRV loop changes only `tmp` |
| Prvs.PrvLoopReports | AutoStructure.cs:387-396 | the message is the overlapping PRVs joined by `, `, and the count is their number |
| Prvs.WarnOnPrvsState | AutoStructure.cs:379-401 | `WarnOnPRVs` completes and leaves the set as it was, except that `tmp` is gone |
| Prvs.WarnOnPrvsMessages | AutoStructure.cs:397-398 | no overlap shows nothing; one shows `Struktur … überlappt mit einem PTV`; several show `Strukturen … überlappen mit einem PTV` |
| Prvs.OverlappingFrame | AutoStructure.cs:389 | which PRVs overlap depends only on the segments |
| Prvs.PrvFor | AutoStructure.cs:389-395 | the loop body performs exactly one PRV step |
| Prvs.WarnOnPRVs | AutoStructure.cs:379-401 | the method performs the specified warning and returns its message boxes |
| Prvs.ReportEach | AutoStructure.cs:387-396 | the `foreach` loop performs the specified PRV loop |
| CroppedPtvs.FirstContaining | AutoStructure.cs:260 | the parent used is the first listed PTV whose id contains the parent name |
| CroppedPtvs.CropStepFrame | AutoStructure.cs:252-280 | no parent, or a non-empty `z_` parent, leaves the set unchanged. Only `z_` structures and `z_PTV_ges` change, and at most one id is added |
| CroppedPtvs.CropLoopFrame | AutoStructure.cs:252-280 | the loop changes only `z_` structures and `z_PTV_ges` |
| CroppedPtvs.CropStepContents | AutoStructure.cs:255-277 | an empty `z_<parent>` becomes the parent minus the child's margin. A new one takes the parent's code. For a child with at least two letters after the digit (second level or deeper), a listed `z_PTV_ges` also loses the child's margin |
| CroppedPtvs.CroppedPtvsKeeps | AutoStructure.cs:247-281 | `CreateCroppedPTVs` keeps user structures and never adds or removes `tmp` |
| CroppedPtvs.CropFor | AutoStructure.cs:254-279 | the loop body performs exactly one crop step |
| CroppedPtvs.CreateCroppedPTVs | AutoStructure.cs:247-281 | the method performs the specified crops of all listed PTVs |
| Ring.GroupAt | AutoStructure.cs:182 | the group `(\d?[A-z]+)` matched from a position is a non-empty piece of the id |
| Ring.RingMatchAt | AutoStructure.cs:182 | a match starts at `P`; its group follows `PTV_`, or `PTV` with an optional underscore in the loose pattern |
| Ring.UnderscoreMatchAt | AutoStructure.cs:182 | a match of `PTV_(\d?[A-z]+)` has its group right after `PTV_` |
| Ring.LooseMatchAt | bkp/AutoStructure_180222.cs:100 | a match of `PTV_?(\d?[A-z]+)` has its group after `PTV` or `PTV_` |
| Ring.RingSuffixEmpty | AutoStructure.cs:187-189 | the ring id is empty exactly when the pattern matches nowhere |
| Ring.RingSuffixLeftmost | AutoStructure.cs:187-188 | the ring id is the group of the leftmost match |
| Ring.RingSuffixExamples | AutoStructure.cs:181-188 | `z_PTV_ges` gives `ges`; `PTV_1A_2Gy` gives `1A_`, because `[A-z]` includes `_` |
| Ring.LooseRingSuffixExamples | bkp/AutoStructure_180222.cs:99-106 | the loose pattern reads `z_PTVges` as `ges` and `PTV1A` as `1A` |
| Ring.DigitOnlyExample | AutoStructure.cs:182-193 | `PTV_1` matches nothing and gets no ring; the loose pattern reads it as `_` |
| Ring.RingCut | AutoStructure.cs:206-209 | the cut loop changes only the ring's segment and only shrinks it |
| Ring.BuildRing | AutoStructure.cs:202-212 | building changes only the ring, which gets the ring colour and the Ring code |
| Ring.ExclusionMembers | AutoStructure.cs:206-209 | a voxel is cut exactly when it lies in some listed PTV's clearance margin |
| Ring.RingCutRemovesExclusion | AutoStructure.cs:206-209 | the loop removes exactly the union of the clearance margins |
| Ring.BuildRingContents | AutoStructure.cs:202-212 | the ring holds exactly the voxels of the 20 mm margin of the top PTV that are outside every PTV's clearance margin |
| Ring.RingContents | AutoStructure.cs:176-212 | the ring is around the first largest PTV. Its voxels are that PTV's 20 mm margin minus each PTV's margin of the crop plus 2 mm per parent. It takes the ring colour and code |
| Ring.ExclusionFrame | AutoStructure.cs:206-209 | the cut depends only on the listed segments |
| Ring.RingOnlyTouchesRing | AutoStructure.cs:194-212 | only the ring changes, at most one id is added, and an existing non-empty ring is left alone |
| Ring.CutRing | AutoStructure.cs:206-209 | the `foreach` loop performs exactly the specified cut |
| Ring.RingKeeps | AutoStructure.cs:176-212 | `CreateRing` keeps user structures and never adds or removes `tmp` |
| Ring.CreateRing | AutoStructure.cs:176-212 | the method performs the specified ring and its message boxes |
| Rings.OwnRing | bkp/AutoStructure_210222.cs:186-192 | a per-PTV ring changes only the ring, and gives it the ring colour and code |
| Rings.RingIsNotItsPtv | bkp/AutoStructure_210222.cs:171-180 | a ring id never equals the PTV it is built from |
| Rings.RingsStepContents | bkp/AutoStructure_210222.cs:171-192 | a misnamed PTV only shows the warning. Otherwise the ring exists afterwards, only it changes, a non-empty ring is kept, and an empty one becomes the PTV's 20 mm margin minus its crop margin |
| Rings.RingsStepKeeps | bkp/AutoStructure_210222.cs:171-192 | one ring keeps user structures and adds its ring id |
| Rings.RingsLoopKeeps | bkp/AutoStructure_210222.cs:169-193 | the ring loop completes, keeps user structures and never removes an id |
| Rings.RingsStepWarns | bkp/AutoStructure_210222.cs:173-177 | one PTV warns exactly when the pattern does not match it |
| Rings.RingsLoopWarns | bkp/AutoStructure_210222.cs:169-193 | the loop shows one warning exactly when some PTV is misnamed |
| Rings.RingsLoopCovers | bkp/AutoStructure_210222.cs:169-193 | every PTV before the first misnamed one has its ring |
| Rings.RingsLoopStopped | bkp/AutoStructure_210222.cs:176 | after a warning the `break` leaves the rest of the list unvisited |
| Rings.RingFor | bkp/AutoStructure_210222.cs:171-192 | the loop body performs exactly one ring step |
| Rings.CreateRings | bkp/AutoStructure_210222.cs:161-194 | the method performs the specified rings and their warning |
| SingleCrop.ChildCapture | bkp/AutoStructure_210222.cs:208-218 | a match of `^PTV_?(\d[A-Z]+)` captures a token |
| SingleCrop.FirstWhere | bkp/AutoStructure_210222.cs:231 | `FirstOrDefault` finds nothing exactly when no id qualifies, else the first that does |
| SingleCrop.ParentNameExamples | bkp/AutoStructure_210222.cs:213-225 | `PTV_1CBA` has the parent name `PTV_1BA`; `PTV1CBA` is read too; `PTV_1A` is skipped |
| SingleCrop.ExactParentNotFound | bkp/AutoStructure_180222.cs:147-151 | the 18.02.22 pattern never matches a parent id that ends right after its name, while the 21.02.22 one does |
| SingleCrop.HelperNameFacts | bkp/AutoStructure_210222.cs:236 | the `z_` parent is a helper and neither `tmp` nor the child |
| SingleCrop.SingleCropStepFrame | bkp/AutoStructure_210222.cs:214-247 | no parent leaves the set unchanged; otherwise only `z_<parent>` changes, at most it is added, and a non-empty one is left alone |
| SingleCrop.SingleCropStepContents | bkp/AutoStructure_210222.cs:234-246 | an empty `z_<parent>` becomes the parent minus the child's 3 mm margin; a new one takes the parent's code |
| SingleCrop.SingleCropStepKeeps | bkp/AutoStructure_210222.cs:214-247 | one crop keeps user structures and never removes an id |
| SingleCrop.SingleCropLoopKeeps | bkp/AutoStructure_210222.cs:211-249 | the crop loop keeps user structures and never adds or removes `tmp` |
| SingleCrop.SingleCropFor | bkp/AutoStructure_210222.cs:214-247 | the loop body performs exactly one crop step |
| SingleCrop.CreateCroppedPTVs | bkp/AutoStructure_210222.cs:203-250 | the method performs the specified crops of all listed PTVs |
| VolumeOrder.InsertPermutes | bkp/AutoStructure_180222.cs:53 | inserting by volume adds exactly that one id |
| VolumeOrder.InsertSorted | bkp/AutoStructure_180222.cs:53 | inserting into a list ordered by volume keeps it ordered |
| VolumeOrder.OrderBySortsAndPermutes | bkp/AutoStructure_180222.cs:53 | `OrderBy(Volume)` returns the same ids, in ascending volume |
| VolumeOrder.SortedUnchanged | bkp/AutoStructure_180222.cs:53 | a list already ordered by volume is left as it is |
| Execute.MissingNotices | AutoStructure.cs:455-458 | one `Keine Struktur mit Id PTV_… gefunden!` box per missing suffix, in order |
| Execute.ResolvedNotScratch | AutoStructure.cs:438-453 | resolved PTVs start with `PTV_`, so none is `tmp` or `z_PTV_ges` |
| Execute.AfterOarsKeeps | AutoStructure.cs:93-102 | the PRV warning, the ring and the cropped PTVs keep user structures and leave no `tmp` |
| Execute.AfterMergeKeeps | AutoStructure.cs:88-102 | from the organs on, user structures are kept, and a completed run leaves no `tmp` |
| Execute.GenerateKeeps | AutoStructure.cs:82-102 | from the merge on, user structures are kept, and a completed run leaves no `tmp` |
| Execute.ExecuteKeepsUserStructures | AutoStructure.cs:53-103 | a run changes only `tmp` and structures whose id starts with `z_`, including user-made ones, and when a plan is open and the run completes no `tmp` is left |
| Execute.ExecuteAmbiguousAborts | AutoStructure.cs:441-449 | an ambiguous suffix aborts before any change, with that suffix in the exception |
| Execute.Execute | AutoStructure.cs:53-103 | the method performs the specified script run |
| Execute210222.MergeStageKeeps | bkp/AutoStructure_210222.cs:57-66 | the merge stage keeps user structures |
| Execute210222.WithoutTargetKeeps | bkp/AutoStructure_210222.cs:252-262 | a generator called without a target throws exactly when it has something to iterate, and touches only `tmp` |
| Execute210222.OarStageKeeps | bkp/AutoStructure_210222.cs:77-80 | the organ stage keeps user structures |
| Execute210222.PrvStageKeeps | bkp/AutoStructure_210222.cs:83-86 | the PRV stage keeps user structures and leaves no `tmp` when it completes |
| Execute210222.GenerateKeeps | bkp/AutoStructure_210222.cs:55-86 | from the merge on, user structures are kept, and a completed run leaves no `tmp` |
| Execute210222.AfterRingsKeeps | bkp/AutoStructure_210222.cs:77-86 | organs and PRVs keep user structures and a completed run leaves no `tmp` |
| Execute210222.ExecuteKeepsUserStructures | bkp/AutoStructure_210222.cs:29-88 | a run changes only `tmp` and structures whose id starts with `z_`, including user-made ones; a completed run on a loaded set leaves no `tmp` |
| Execute210222.UserMergedOnlyForSeveral | bkp/AutoStructure_210222.cs:57-66 | a user-made `z_PTV_ges` is used only when several PTVs are listed; a single PTV is the target itself |
| Execute210222.NoPtvLeavesTmp | bkp/AutoStructure_210222.cs:55-80 | with no resolved PTV and some organ, the run throws a null reference and leaves `tmp` behind |
| Execute210222.SelfPrefixListed | bkp/AutoStructure_210222.cs:61 | the target's own id starts with itself, so it is appended to the list |
| Execute210222.LargestListedTwice | bkp/AutoStructure_210222.cs:58-62 | when the largest PTV is the target, it is listed a second time |
| Execute210222.TouchTmp | bkp/AutoStructure_210222.cs:252-262 | the method performs the specified null-target behaviour |
| Execute210222.CropOars | bkp/AutoStructure_210222.cs:77-80 | the method performs the specified organ stage |
| Execute210222.WarnPrvs | bkp/AutoStructure_210222.cs:83-86 | the method performs the specified PRV stage |
| Execute210222.MergeTargets | bkp/AutoStructure_210222.cs:57-66 | the method performs the specified merge stage |
| Execute210222.Execute | bkp/AutoStructure_210222.cs:29-88 | the method performs the specified script run |
| Execute180222.MergeStage | bkp/AutoStructure_180222.cs:55-96 | the merge stage keeps `tmp` |
| Execute180222.OarPart | bkp/AutoStructure_180222.cs:175-199 | the organ loop keeps `tmp` |
| Execute180222.PtvsApart | bkp/AutoStructure_180222.cs:53 | the listed PTVs are ordered by volume and none is `tmp` or `z_PTVges` |
| Execute180222.MergeStageKeeps | bkp/AutoStructure_180222.cs:55-96 | the merge stage keeps user structures |
| Execute180222.MergeStageChoice | bkp/AutoStructure_180222.cs:65-87 | with several PTVs and an empty `z_PTVges`, the target is the union, strictly larger than each PTV, or else the first largest PTV, and then `z_PTVges` is removed |
| Execute180222.UserMergedListed | bkp/AutoStructure_180222.cs:88-92 | a user-made `z_PTVges` is the target, nothing changes, and it is appended to the list |
| Execute180222.FinishKeeps | bkp/AutoStructure_180222.cs:173-219 | organs and PRVs keep user structures and a completed run removes `tmp` |
| Execute180222.GenerateKeeps | bkp/AutoStructure_180222.cs:55-219 | from the merge on, user structures are kept and a completed run leaves no `tmp` |
| Execute180222.ExecuteKeepsUserStructures | bkp/AutoStructure_180222.cs:29-220 | a run changes only `tmp` and structures whose id starts with `z_`, including user-made ones; a `tmp` already present throws before any change; a completed run leaves no `tmp` |
| Execute180222.MergeTargets | bkp/AutoStructure_180222.cs:55-96 | the method performs the specified merge stage |
| Execute180222.CropOars | bkp/AutoStructure_180222.cs:175-199 | the method performs the specified organ loop |
| Execute180222.WarnPrvs | bkp/AutoStructure_180222.cs:201-219 | the method performs the specified PRV warning and removes `tmp` |
| Execute180222.Execute | bkp/AutoStructure_180222.cs:29-220 | the method performs the specified script run |

## Left out

- Message boxes are modelled as the strings they show, collected in order. Their title, buttons and icons are not modelled, and neither is the user closing them.
- `Patient.BeginModifications` is a host permission call with no effect on the structure set, so it is not modelled.
- Contour geometry is not modelled. A segment is a finite voxel set and a margin is a cube dilation. Anisotropic margins, high-resolution segments and floating-point volumes are outside the model. `Volume != 0.0` is read as a non-empty set.
- Colours are opaque integers. The structure code dictionary is read as its key (`Ring`, `Control`). The code a parent PTV carries is copied as it is.
- `AddStructure` is modelled failing only on an id that already exists, the case every `try`/`catch` handles. Other refusals by the host, such as an invalid DICOM type or an overlong id, are not modelled.
- Execute180222.ExecuteSpec: the exception type of the unguarded `AddStructure("CONTROL", "tmp")` is not modelled; the outcome only names the failing call.
- A missing patient, structure set or course is modelled only as the checks at the start of each script. The current script is assumed to have a structure set once a plan is open.
- VolumeOrder.OrderBySortsAndPermutes: LINQ's `OrderBy` is stable. The model is a stable insertion sort, but only order and permutation are proved, plus `SortedUnchanged` for an already ordered list; stability itself is not stated.
- Regular expressions are modelled only for the patterns the scripts use, as matchers over characters. Case-insensitive options, cultures and other patterns do not occur.
- Commented-out code in the three scripts is not modelled.
- Lists of structures are modelled as lists of ids. Ids are unique in a structure set, so two references to the same structure are the same id.
- Text.IsDigit: accepts the ASCII digits `0`-`9` only. The .NET pattern `\d` also matches other Unicode decimal digits, so a plan id or PTV id with such a digit is read differently.
- Text.StartsWith: compares ordinally. The .NET `string.StartsWith(string)` the scripts call is culture-sensitive; for the ASCII prefixes `PTV`, `OAR`, `PRV` and `z_` the two agree except on ids holding characters the culture ignores or folds.
