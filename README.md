# Animation Syncer: a Dafny model of the synchronisation pass

Animation Syncer is a game-client plugin. Once per frame it looks for
players and battle NPCs that stand still close together, face roughly the
same way and play an animation of the same length. For each such group it
computes one shared root position (mean X and Z), one shared root
orientation and one playback time (the latest differing one). It writes
the time into the actors and stores a root correction per skeleton pose.
A hook on the game's pose finalisation then applies the stored correction
to each pose it finalises.

The model covers `AnimSync/AnimSync.cs`:

- the per-frame `Tick`, with its outer loop, inner loop, accumulation,
  rotation combination, in-place time writes, correction writes and
  snapshot rebuild;
- the pose interceptor `AnimRoot`;
- the command handler `OnCommand`, with its toggle and reset branches;
- the eligibility predicate `IsValidObject`;
- the state the plugin keeps between frames: the pose store `RootSyncs`,
  the motion snapshot `LastPositions` and the `Enabled` setting.

Modules:

- `Objects` (objects.dfy) holds the host's side. It has the object table
  entries, skeleton root transforms and `IsValidObject`. Its `Host` class
  holds the live object table and skeleton transforms, which the plugin
  updates in place.
- `Yaw` (yaw.dfy) holds the yaw test exactly as written, with C#'s
  truncating `%` on doubles, and a normalised version of it.
- `Rotation` (rotation.dfy) models the ordering of a cluster's
  orientations by similarity to the identity and the weighted blend over
  them. The spherical interpolation itself is a function parameter.
- `Sync` (sync.dfy) holds the specification functions of one tick:
  - the filters;
  - the cluster of an outer object;
  - the reconciled time;
  - the corrections written and the times written;
  - one outer-loop iteration (`Step`) and the whole outer loop
    (`TickPass`);
  - the rebuilt snapshot.

  The lemmas about them are in the same module.
- `Plugin` (plugin.dfy) holds the plugin object as a class. Its fields are
  `rootSyncs`, `lastPositions` and `enabled`, and its methods are `Tick`,
  `OnCommand`, `AnimRoot` and `Update`. Each loop of the source is a
  `while` loop. The tick's loops are proved against the functions of
  `Sync`. The combining loop is proved against `Rotation.Combine`, and the
  reset loop of `OnCommand` against the new table its contract spells out.
- `Scenario` (scenario.dfy) works out whole ticks on small concrete
  tables. It also holds the yaw asymmetry at the cluster level.

The time writes are modelled in place, in the source's order. A later
outer iteration therefore reads the times written by earlier ones.
`PairClusters` shows that the second player's cluster sees the first
player's updated time: its one member is no longer flagged as differing.
A later write to the pose store replaces an earlier one for the same pose:

- `EmitAllLastWriter` covers this within one cluster.
- `SecondIteration` covers it across clusters.

Only the outer loop applies the slot-index cut-off and the mounted test.
The yaw test is a parameter of the pass, so no symmetry is assumed of it.

Three points of the code shape the model:

- The `lock` at AnimSync/AnimSync.cs:84-85 covers only the clearing of the
  pose store. The store writes at lines 140 and 145 run outside it. The
  model treats each method body as atomic.
- The orientations are ordered at line 133 with `List.Sort`, which is not
  stable. See `Rotation.SortBySimilarity` below.
- The yaw test at line 104 is not symmetric in the two objects. See
  "## Findings".

## Model

| member | source | states |
|---|---|---|
| Yaw.FMod | AnimSync/AnimSync.cs:104 | C#'s `%` on doubles. The remainder has the sign of the dividend and is smaller in magnitude than the divisor. |
| Yaw.SourceYawOk | AnimSync/AnimSync.cs:104 | The yaw filter as written, built on `FMod`. Its properties are stated by `SourceAgreesNearZero` and `SourceYawAsymmetric`. |
| Yaw.TurnDistance | AnimSync/AnimSync.cs:104 | The distance from a yaw difference to the nearest whole number of turns. It lies in [0, pi] and is attained by some whole number of turns. |
| Yaw.SourceAgreesNearZero | AnimSync/AnimSync.cs:104 | While the difference lies in [-pi, pi), the test as written is "absolute difference at most 45 degrees". It agrees with the normalised test there. |
| Yaw.SourceYawAsymmetric | AnimSync/AnimSync.cs:104 | The test as written rejects (3.0, -3.0) but accepts (-3.0, 3.0). The normalised test accepts both. |
| Yaw.NormalizedYawSymmetric | AnimSync/AnimSync.cs:104 | The normalised yaw test gives the same answer whichever object is the outer one. |
| Rotation.Blend | AnimSync/AnimSync.cs:133-136 | The running blend: the least identity-like orientation, pulled toward the i-th with weight 1/(i+1). `CombineRotations` is proved to compute it. |
| Rotation.Combine | AnimSync/AnimSync.cs:127-137 | The combined orientation: the midpoint interpolation for two orientations, otherwise `Blend` over the sorted list. `CombineOrderIndependent` and `CombineRotations` state its properties. |
| Rotation.SortBySimilarity | AnimSync/AnimSync.cs:132-133 | The sort orders orientations by ascending \|dot(identity, q)\|. The result is sorted and is a permutation of the input. |
| Rotation.SortedIsUnique | AnimSync/AnimSync.cs:133 | Two sequences sorted by similarity with the same elements are equal when no two elements are equally similar. |
| Rotation.CombineOrderIndependent | AnimSync/AnimSync.cs:127-137 | With three or more orientations of distinct similarity, the combined orientation does not depend on the order in which the cluster listed them. |
| Rotation.CombineRotations | AnimSync/AnimSync.cs:127-137 | The combining loop computes `Combine`. Two orientations give their midpoint interpolation. Otherwise the loop folds over the sorted list with weights 1/(i+1). A single orientation is returned unchanged. |
| Objects.IsValidObject | AnimSync/AnimSync.cs:199-201 | An object is eligible when it is a player or a battle NPC and has an animation control. `ClusterUpTo`, `Step` and `Snapshot` state what the tick does with it. |
| Sync.OuterCandidate | AnimSync/AnimSync.cs:88-91 | The outer filters: index at most 200, valid, unmoved since the last snapshot, not mounted. `StepSkips` states that a failing object changes nothing. |
| Sync.Admits | AnimSync/AnimSync.cs:98-105 | The inner filters for a candidate member: valid, unmoved, same duration, the yaw test, and distance at most 0.25. `ClusterUpTo` and `BuildCluster` state that membership is exactly these filters plus "another slot". |
| Sync.ClusterUpTo | AnimSync/AnimSync.cs:96-108 | The cluster of outer object `i` contains exactly the other slots that pass validity, stationarity, equal duration, the yaw test and distance <= 0.25. Members appear in table order. Each carries the flag "local times differ". |
| Sync.MaxFlagged | AnimSync/AnimSync.cs:115-123 | The reconciled time is at least the outer object's time and at least every flagged member's time. It equals one of those times. |
| Sync.Emit | AnimSync/AnimSync.cs:139-145 | The correction written for one participant: the cluster's X and Z, that participant's own skeleton height, the cluster's orientation and its skeleton handle. `EmitAllLastWriter` and `StepCorrections` state where it ends up. |
| Sync.EmitAll | AnimSync/AnimSync.cs:143-148 | After the member loop the store holds the old keys plus every member's pose. Every member's pose carries the cluster's X, Z and orientation. Other entries are kept. |
| Sync.EmitAllLastWriter | AnimSync/AnimSync.cs:143-148 | A member's pose holds that member's own correction (its own height and skeleton) unless a later member shares the pose. |
| Sync.SetTimes | AnimSync/AnimSync.cs:143-148 | The member loop writes the reconciled time into exactly the flagged members. Every other slot and every other field is unchanged. |
| Sync.Reconcile | AnimSync/AnimSync.cs:110-148 | The body of the outer loop for a non-empty cluster: average, combine, raise the outer time, write the outer correction, then the members'. `StepTimes`, `StepCorrections` and `ReconcileTimes` state its effect. |
| Sync.ReconcileTimes | AnimSync/AnimSync.cs:115-147 | Reconciling a cluster only changes playback times. A time never goes down, and it changes only for a valid, stationary object. |
| Sync.Step | AnimSync/AnimSync.cs:87-149 | One outer iteration changes only playback times and never lowers one. It changes a time only for a valid, stationary object. It only adds keys, and only poses of valid, stationary objects. |
| Sync.StepSkips | AnimSync/AnimSync.cs:88-91 | An outer object that fails the index, validity, stationarity or mounted test, or whose cluster is empty, changes nothing. |
| Sync.StepTimes | AnimSync/AnimSync.cs:110-147 | After reconciling a non-empty cluster, the outer object and every flagged member hold the reconciled time. Every other slot is untouched. |
| Sync.StepCorrections | AnimSync/AnimSync.cs:110-148 | After reconciling a non-empty cluster, every participant's pose holds the mean skeleton X and Z of the participants and the combined orientation. The outer pose, and each member pose no later member shares, carries its own skeleton's height and handle. No other pose is added, and every other entry of the store keeps its value. |
| Sync.TickPass | AnimSync/AnimSync.cs:84-150 | The outer loop starts from an empty store. Afterwards every key is the pose of a valid, stationary object. Only playback times change, and only upwards for valid, stationary objects. |
| Sync.Snapshot | AnimSync/AnimSync.cs:152-155 | The rebuilt snapshot's keys are exactly the addresses of the currently valid objects. |
| Sync.SnapshotPosition | AnimSync/AnimSync.cs:152-155 | Each valid object's address maps to its current position, unless a later valid object has the same address. |
| Sync.SumBounds | AnimSync/AnimSync.cs:116-118 | The accumulated sum of n values lies between n * lo and n * hi. |
| Sync.MeanWithin | AnimSync/AnimSync.cs:116-125 | The emitted X or Z (the sum divided by the participant count) lies within any bounds common to the participants. |
| Sync.ClusterSymmetric | AnimSync/AnimSync.cs:96-108 | With a yaw test that ignores which object is outer, membership is mutual between valid, stationary objects. |
| Plugin.BuildCluster | AnimSync/AnimSync.cs:94-108 | The inner loop builds `Cluster`. A slot is a member if and only if it is another slot admitted by the inner filters. |
| Plugin.Accumulate | AnimSync/AnimSync.cs:110-125 | The accumulation loop yields the mean skeleton X and Z of the participants and their orientations (outer object first). It also yields `MaxFlagged` of their times. |
| Plugin.AnimSync.constructor | AnimSync/AnimSync.cs:54-62 | Loading gives an empty store and snapshot, with `enabled` taken from the configuration. |
| Plugin.AnimSync.Update | AnimSync/AnimSync.cs:61-62 | The framework update runs `Tick` only while enabled. When disabled, nothing changes. |
| Plugin.AnimSync.Tick | AnimSync/AnimSync.cs:83-156 | The new table and store are `TickPass` of the old table and old snapshot. The new snapshot is `Snapshot` of the new table. Skeletons are untouched. |
| Plugin.AnimSync.OuterLoop | AnimSync/AnimSync.cs:87-150 | Starting from an empty store, the outer loop leaves the table and store at `TickPass` of the table it started from. |
| Plugin.AnimSync.OuterIteration | AnimSync/AnimSync.cs:87-149 | Iteration `i` takes the pass over the first `i` slots to the pass over the first `i + 1`. |
| Plugin.AnimSync.ProcessOuter | AnimSync/AnimSync.cs:87-149 | One outer iteration, written in place, computes `Step` of the table and store. A skipped outer object or an empty cluster leaves both alone. |
| Plugin.AnimSync.ReconcileCluster | AnimSync/AnimSync.cs:110-148 | For a non-empty cluster, the in-place writes give the table `SetTimes` after the outer object's time is raised. The store gets the outer correction first and then the members' through `EmitAll`. X, Z, the orientation and the time are the means, `Combine` and `MaxFlagged` of the participants. |
| Plugin.AnimSync.WriteMembers | AnimSync/AnimSync.cs:143-148 | The member loop leaves the table as `SetTimes` and the store as `EmitAll`. |
| Plugin.AnimSync.RebuildSnapshot | AnimSync/AnimSync.cs:152-155 | The snapshot is cleared and refilled to `Snapshot` of the current table. |
| Plugin.AnimSync.OnCommand | AnimSync/AnimSync.cs:158-185 | Another command name changes nothing. "toggle" flips `enabled` and empties the store when turning off. Other arguments set every valid object's time to 0 and leave the rest alone. |
| Plugin.AnimSync.AnimRoot | AnimSync/AnimSync.cs:187-197 | The original routine runs first. On a hit, the stored skeleton's root takes the stored position and orientation. On a miss, or while disabled, only the original's effect remains. The store is never changed. |
| Scenario.PairCloseEnough | AnimSync/AnimSync.cs:104-105 | Two players 0.1 apart and 0.2 rad apart pass the yaw test and the distance test in both directions. |
| Scenario.PairClusters | AnimSync/AnimSync.cs:96-108 | The first player's cluster is the second player, flagged. After the first iteration, the second player's cluster is the first player, unflagged. |
| Scenario.SingleObjects | AnimSync/AnimSync.cs:115-147 | For a one-member cluster, the outer object, and the member when it is flagged, take the larger of their times. |
| Scenario.SingleSyncs | AnimSync/AnimSync.cs:111-145 | For a one-member cluster, both poses take the pair's mean X and Z and the midpoint orientation. The outer pose is written first. |
| Scenario.FirstIteration | AnimSync/AnimSync.cs:87-149 | The first iteration raises both players to time 3 and writes both poses with X = 0.05 and slerp(qa, qb, 0.5). |
| Scenario.SecondIteration | AnimSync/AnimSync.cs:140-145 | The second iteration overwrites both poses with slerp(qb, qa, 0.5). |
| Scenario.TwoPlayersTick | AnimSync/AnimSync.cs:83-150 | The whole pass on the pair ends with both players at time 3. The store holds both poses with the later cluster's orientation. |
| Scenario.SourceClusterAsymmetric | AnimSync/AnimSync.cs:96-108 | With the yaw test as written, the object facing -3.0 clusters the one facing 3.0, but not the other way round. |
| Scenario.NormalizedClusterMutual | AnimSync/AnimSync.cs:104 | With the normalised yaw test, cluster membership is mutual. |

## Left out

- The plugin services, hook installation, signature scanning and
  `Dispose` (AnimSync/AnimSync.cs:22-28, 54-81) are host I/O and foreign
  calls. The hook is modelled as the `AnimRoot` method, which receives the
  original routine as a parameter.
- The framework subscription is modelled as `Update`, which runs `Tick`
  only while enabled.
- `Config.Load` and `Config.Save` (AnimSync/AnimSync.cs:33-39) are file
  I/O. Only the `enabled` flag is kept. Saving on toggle is not modelled.
- The `lock(RootSyncs)` blocks are concurrency control. Each method body
  is modelled as atomic. The interleaving of the interceptor with a
  running tick is not modelled.
- `Quaternion.Slerp` is host-library floating-point numerics. It is a
  function parameter. The code's midpoint slerp of two rotations is
  modelled but not related to the n-rotation branch.
- `Quaternion.Dot` with the identity rotation is modelled as |w|.
- Rotation.SortBySimilarity: `List.Sort` is an unstable sort. The model
  uses a stable insertion sort. The two agree whenever no two
  orientations are equally similar, as `SortedIsUnique` shows. With ties,
  the order the library picks is not modelled.
- Floating-point rounding is not modelled. Positions, times, yaws and
  durations are reals, and `Vector3.Distance` <= 0.25 is compared as a
  squared distance.
- The yaw test is a parameter of the pass. The source's expression is
  modelled separately as `Yaw.SourceYawOk`.
- AnimSync/MemoryStructures.cs is not part of this model. Its pointer
  chains are replaced by per-object fields:
  - `hasControl`: the control pointer is non-null;
  - `skeleton`: the skeleton handle;
  - `pose`: the first Havok pose handle;
  - `duration` and `localTime` of the animation control;
  - `notMounted`.
- The reference test `obj == obj2` is modelled as "a different table
  slot". Two slots that share one animation control are not modelled.
  Time writes go to the slot, not to a shared control.
- Objects.SkeletonOf: a slot without a skeleton in the host's map reads an
  identity transform. `Host.Valid` ensures this never happens for a
  controlled object.
- `AnimRoot` writes through the stored skeleton handle. It does not model
  a handle that went stale between the tick and the interceptor call.
- Sync.TickPass: states that every key is the pose of a valid, stationary
  object. Which cluster wrote which key is stated one iteration at a time,
  by `Sync.StepCorrections`.
- Logging and the help texts of the commands are not modelled.

## Findings

| source | as written | input that shows it | evidently intended | confidence | as-written member | corrected member |
|---|---|---|---|---|---|---|
| AnimSync/AnimSync.cs:104 | The test shifts the yaw difference by pi, takes C#'s remainder by 2 pi, shifts back and compares the magnitude with 45 degrees. C#'s remainder keeps the dividend's sign, so a difference below -pi is not wrapped into [-pi, pi). | Outer yaw 3.0, candidate yaw -3.0, about 16 degrees apart across the ±pi seam. The test rejects this pair, yet accepts the reversed pair. | Compare the yaw difference reduced to the nearest whole turn with 45 degrees. Membership is then mutual. | not executed | Yaw.SourceYawAsymmetric, Scenario.SourceClusterAsymmetric | Yaw.NormalizedYawSymmetric, Scenario.NormalizedClusterMutual |
