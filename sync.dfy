/** What one tick of the synchronisation pass computes, stated as functions
    of the object table it starts from: eligibility, the cluster of each
    outer object, the reconciled position, orientation and playback time,
    the corrections written to the pose store and the motion snapshot
    rebuilt at the end. */
module Sync {
  import opened Objects
  import Rotation

  /** Largest distance between clustered objects. */
  const MaxDist: real := 0.25
  /** Table slots above this index hold pose-studio and UI copies. */
  const IndexCutoff: nat := 200

  /** A pending override for one pose: the root position and orientation to
      write, and the skeleton to write them to. */
  datatype Correction = Correction(position: Vec3, rotation: Quat, skeleton: SkelId)

  /** The part of the world one tick changes: the table's playback times
      and the pose store. */
  datatype TickState = TickState(objects: seq<GameObject>, syncs: map<PoseId, Correction>)

  /** A cluster member: its slot in the table, and whether its playback
      time differed from the outer object's when it was admitted. */
  datatype Member = Member(idx: nat, timeDiffers: bool)

  /** Present in the last snapshot at exactly its current position. */
  predicate Stationary(last: map<Addr, Vec3>, o: GameObject) {
    o.addr in last && last[o.addr] == o.position
  }

  /** The filters of the outer loop, in the source's order. */
  predicate OuterCandidate(last: map<Addr, Vec3>, o: GameObject) {
    o.index <= IndexCutoff && IsValidObject(o) && Stationary(last, o) && o.notMounted
  }

  function DistanceSq(p: Vec3, q: Vec3): real {
    (p.x - q.x) * (p.x - q.x) + (p.y - q.y) * (p.y - q.y) + (p.z - q.z) * (p.z - q.z)
  }

  /** The filters of the inner loop for candidate `b` of outer object `a`;
      the distance test compares squares, which on reals is the same as
      comparing the distance itself with MaxDist. */
  predicate Admits(last: map<Addr, Vec3>, yawOk: (real, real) -> bool, a: GameObject, b: GameObject) {
    && IsValidObject(b)
    && Stationary(last, b)
    && a.duration == b.duration
    && yawOk(a.rotation, b.rotation)
    && DistanceSq(a.position, b.position) <= MaxDist * MaxDist
  }

  ghost predicate MembersIn(c: seq<Member>, n: nat) {
    forall k :: 0 <= k < |c| ==> c[k].idx < n
  }

  function Indices(c: seq<Member>): set<nat> {
    set k | 0 <= k < |c| :: c[k].idx
  }

  function Flagged(c: seq<Member>): set<nat> {
    set k | 0 <= k < |c| && c[k].timeDiffers :: c[k].idx
  }

  lemma MembersSnoc(c: seq<Member>, m: Member)
    ensures Indices(c + [m]) == Indices(c) + {m.idx}
    ensures Flagged(c + [m]) == Flagged(c) + (if m.timeDiffers then {m.idx} else {})
  {
    var c' := c + [m];
    assert forall k :: 0 <= k < |c| ==> c'[k] == c[k];
    assert c'[|c|] == m;
  }

  /** The cluster of outer object `i` among the first `n` slots. */
  function ClusterUpTo(objs: seq<GameObject>, last: map<Addr, Vec3>, yawOk: (real, real) -> bool, i: nat, n: nat): (c: seq<Member>)
    requires i < |objs| && n <= |objs|
    ensures MembersIn(c, n)
    ensures forall k :: 0 <= k < |c| ==> c[k].idx != i && Admits(last, yawOk, objs[i], objs[c[k].idx])
    ensures forall k :: 0 <= k < |c| ==> c[k].timeDiffers == (objs[i].localTime != objs[c[k].idx].localTime)
    ensures forall k, l :: 0 <= k < l < |c| ==> c[k].idx < c[l].idx
    ensures forall j :: 0 <= j < n ==> (j in Indices(c) <==> j != i && Admits(last, yawOk, objs[i], objs[j]))
  {
    if n == 0 then []
    else
      var c := ClusterUpTo(objs, last, yawOk, i, n - 1);
      var b := objs[n - 1];
      if n - 1 != i && Admits(last, yawOk, objs[i], b) then
        var m := Member(n - 1, objs[i].localTime != b.localTime);
        MembersSnoc(c, m);
        c + [m]
      else
        c
  }

  /** Scanning one more slot appends it exactly when it is admitted. */
  lemma ClusterUpToNext(objs: seq<GameObject>, last: map<Addr, Vec3>, yawOk: (real, real) -> bool, i: nat, n: nat)
    requires i < |objs| && n < |objs|
    ensures ClusterUpTo(objs, last, yawOk, i, n + 1) ==
      if n != i && Admits(last, yawOk, objs[i], objs[n])
      then ClusterUpTo(objs, last, yawOk, i, n) + [Member(n, objs[i].localTime != objs[n].localTime)]
      else ClusterUpTo(objs, last, yawOk, i, n)
  {
  }

  function Cluster(objs: seq<GameObject>, last: map<Addr, Vec3>, yawOk: (real, real) -> bool, i: nat): (c: seq<Member>)
    requires i < |objs|
  {
    ClusterUpTo(objs, last, yawOk, i, |objs|)
  }

  /** The outer object followed by its members, in cluster order. */
  function Participants(i: nat, c: seq<Member>): (ps: seq<nat>)
  {
    [i] + seq(|c|, k requires 0 <= k < |c| => c[k].idx)
  }

  function Sum(xs: seq<real>): real {
    if xs == [] then 0.0 else Sum(xs[..|xs| - 1]) + xs[|xs| - 1]
  }

  function Mean(xs: seq<real>): real
    requires |xs| > 0
  {
    Sum(xs) / (|xs| as real)
  }

  ghost predicate SlotsIn(ps: seq<nat>, n: nat) {
    forall k :: 0 <= k < |ps| ==> ps[k] < n
  }

  /** Skeleton root X of each participant. */
  function Xs(objs: seq<GameObject>, skels: map<SkelId, Transform>, ps: seq<nat>): (xs: seq<real>)
    requires SlotsIn(ps, |objs|)
  {
    seq(|ps|, k requires 0 <= k < |ps| => SkeletonOf(skels, objs[ps[k]]).position.x)
  }

  /** Skeleton root Z of each participant. */
  function Zs(objs: seq<GameObject>, skels: map<SkelId, Transform>, ps: seq<nat>): (zs: seq<real>)
    requires SlotsIn(ps, |objs|)
  {
    seq(|ps|, k requires 0 <= k < |ps| => SkeletonOf(skels, objs[ps[k]]).position.z)
  }

  /** Skeleton root orientation of each participant. */
  function Rots(objs: seq<GameObject>, skels: map<SkelId, Transform>, ps: seq<nat>): (qs: seq<Quat>)
    requires SlotsIn(ps, |objs|)
  {
    seq(|ps|, k requires 0 <= k < |ps| => SkeletonOf(skels, objs[ps[k]]).rotation)
  }

  /** The reconciled playback time: `t0` raised to the time of every member
      flagged as differing. */
  function MaxFlagged(objs: seq<GameObject>, c: seq<Member>, t0: real): (t: real)
    requires MembersIn(c, |objs|)
    ensures t >= t0
    ensures forall k :: 0 <= k < |c| && c[k].timeDiffers ==> t >= objs[c[k].idx].localTime
    ensures t == t0 || exists k :: 0 <= k < |c| && c[k].timeDiffers && t == objs[c[k].idx].localTime
  {
    if c == [] then t0
    else
      var t := MaxFlagged(objs, c[..|c| - 1], t0);
      var m := c[|c| - 1];
      if m.timeDiffers && objs[m.idx].localTime > t then objs[m.idx].localTime else t
  }

  lemma MaxFlaggedPrefix(objs: seq<GameObject>, c: seq<Member>, k: nat, t0: real)
    requires MembersIn(c, |objs|) && k < |c|
    ensures MembersIn(c[..k], |objs|) && MembersIn(c[..k + 1], |objs|)
    ensures var t := MaxFlagged(objs, c[..k], t0);
      MaxFlagged(objs, c[..k + 1], t0) ==
        if c[k].timeDiffers && objs[c[k].idx].localTime > t then objs[c[k].idx].localTime else t
  {
    assert c[..k + 1][..k] == c[..k];
  }

  /** The correction written for participant `j`: the cluster's X and Z,
      its own skeleton's height, the cluster's orientation. */
  function Emit(objs: seq<GameObject>, skels: map<SkelId, Transform>, j: nat, x: real, z: real, rot: Quat): Correction
    requires j < |objs|
  {
    Correction(Vec3(x, SkeletonOf(skels, objs[j]).position.y, z), rot, objs[j].skeleton)
  }

  function Poses(objs: seq<GameObject>, c: seq<Member>): set<PoseId> {
    set m | m in c && m.idx < |objs| :: objs[m.idx].pose
  }

  /** No later member of `c` shares member `k`'s pose. */
  ghost predicate LastWithPose(objs: seq<GameObject>, c: seq<Member>, k: nat)
    requires MembersIn(c, |objs|) && k < |c|
  {
    forall l :: k < l < |c| ==> objs[c[l].idx].pose != objs[c[k].idx].pose
  }

  lemma PosesSnoc(objs: seq<GameObject>, c: seq<Member>, m: Member)
    requires m.idx < |objs|
    ensures Poses(objs, c + [m]) == Poses(objs, c) + {objs[m.idx].pose}
  {
    assert forall y :: y in c + [m] <==> y in c || y == m;
  }

  /** The store after writing each member's correction in cluster order. */
  function EmitAll(rs: map<PoseId, Correction>, objs: seq<GameObject>, skels: map<SkelId, Transform>,
                   c: seq<Member>, x: real, z: real, rot: Quat): (r: map<PoseId, Correction>)
    requires MembersIn(c, |objs|)
    ensures r.Keys == rs.Keys + Poses(objs, c)
    ensures forall p :: p in rs && p !in Poses(objs, c) ==> r[p] == rs[p]
    ensures forall p :: p in Poses(objs, c) ==>
      r[p].position.x == x && r[p].position.z == z && r[p].rotation == rot
  {
    if c == [] then rs
    else
      var c' := c[..|c| - 1];
      var m := c[|c| - 1];
      assert c == c' + [m];
      PosesSnoc(objs, c', m);
      EmitAll(rs, objs, skels, c', x, z, rot)[objs[m.idx].pose := Emit(objs, skels, m.idx, x, z, rot)]
  }

  /** Each member's pose carries that member's own correction unless a
      later member of the same cluster shares the pose. */
  lemma {:induction false} EmitAllLastWriter(rs: map<PoseId, Correction>, objs: seq<GameObject>, skels: map<SkelId, Transform>,
                                             c: seq<Member>, x: real, z: real, rot: Quat, k: nat)
    requires MembersIn(c, |objs|) && k < |c| && LastWithPose(objs, c, k)
    ensures EmitAll(rs, objs, skels, c, x, z, rot)[objs[c[k].idx].pose] == Emit(objs, skels, c[k].idx, x, z, rot)
  {
    var c' := c[..|c| - 1];
    if k < |c| - 1 {
      assert c[k] == c'[k];
      assert LastWithPose(objs, c', k) by {
        forall l | k < l < |c'| ensures objs[c'[l].idx].pose != objs[c'[k].idx].pose {
          assert c'[l] == c[l];
        }
      }
      EmitAllLastWriter(rs, objs, skels, c', x, z, rot, k);
    }
  }

  /** The table after writing `t` into every flagged member's playback time. */
  function SetTimes(objs: seq<GameObject>, c: seq<Member>, t: real): (r: seq<GameObject>)
    requires MembersIn(c, |objs|)
    ensures SameButTimes(objs, r)
    ensures forall k :: 0 <= k < |objs| ==> r[k].localTime == if k in Flagged(c) then t else objs[k].localTime
  {
    if c == [] then objs
    else
      var c' := c[..|c| - 1];
      var m := c[|c| - 1];
      assert c == c' + [m];
      MembersSnoc(c', m);
      var r := SetTimes(objs, c', t);
      if m.timeDiffers then r[m.idx := r[m.idx].(localTime := t)] else r
  }

  /** Poses of the objects a tick may touch: valid and stationary ones. */
  function StationaryPoses(objs: seq<GameObject>, last: map<Addr, Vec3>): set<PoseId> {
    set k | 0 <= k < |objs| && IsValidObject(objs[k]) && Stationary(last, objs[k]) :: objs[k].pose
  }

  lemma StationaryPosesSameButTimes(a: seq<GameObject>, b: seq<GameObject>, last: map<Addr, Vec3>)
    requires SameButTimes(a, b)
    ensures StationaryPoses(a, last) == StationaryPoses(b, last)
  {
    assert forall k :: 0 <= k < |a| ==> Frozen(a[k]) == Frozen(b[k]);
  }

  /** One iteration of the outer loop, for outer object `i`. */
  function Step(st: TickState, skels: map<SkelId, Transform>, last: map<Addr, Vec3>,
                yawOk: (real, real) -> bool, slerp: (Quat, Quat, real) -> Quat, i: nat): (r: TickState)
    requires i < |st.objects|
    ensures SameButTimes(st.objects, r.objects)
    ensures st.syncs.Keys <= r.syncs.Keys <= st.syncs.Keys + StationaryPoses(st.objects, last)
    ensures forall k :: 0 <= k < |st.objects| ==> r.objects[k].localTime >= st.objects[k].localTime
    ensures forall k :: 0 <= k < |st.objects| && r.objects[k].localTime != st.objects[k].localTime ==>
      IsValidObject(st.objects[k]) && Stationary(last, st.objects[k])
  {
    var objs := st.objects;
    if !OuterCandidate(last, objs[i]) then st
    else
      var c := Cluster(objs, last, yawOk, i);
      if c == [] then st
      else
        ReconcileFacts(st, skels, last, yawOk, slerp, i, c);
        Reconcile(st, skels, last, yawOk, slerp, i, c)
  }

  /** Lines of the outer loop body that run for a non-empty cluster `c` of
      outer object `i`: average, combine, raise the time, write the
      corrections and the times. */
  function Reconcile(st: TickState, skels: map<SkelId, Transform>, last: map<Addr, Vec3>,
                     yawOk: (real, real) -> bool, slerp: (Quat, Quat, real) -> Quat, i: nat, c: seq<Member>): TickState
    requires i < |st.objects| && OuterCandidate(last, st.objects[i])
    requires c == Cluster(st.objects, last, yawOk, i)
  {
    var objs := st.objects;
    var a := objs[i];
    var t := MaxFlagged(objs, c, a.localTime);
    StepFacts(objs, last, yawOk, i, c, t);
    var ps := Participants(i, c);
    var x := Mean(Xs(objs, skels, ps));
    var z := Mean(Zs(objs, skels, ps));
    var rot := Rotation.Combine(Rots(objs, skels, ps), slerp);
    TickState(SetTimes(objs[i := a.(localTime := t)], c, t),
              EmitAll(st.syncs[a.pose := Emit(objs, skels, i, x, z, rot)], objs, skels, c, x, z, rot))
  }

  /** Reconciling with the averages, the combined rotation and the maximum
      time already computed. */
  lemma ReconcileWith(st: TickState, skels: map<SkelId, Transform>, last: map<Addr, Vec3>,
                      yawOk: (real, real) -> bool, slerp: (Quat, Quat, real) -> Quat, i: nat, c: seq<Member>,
                      x: real, z: real, rot: Quat, t: real)
    requires i < |st.objects| && OuterCandidate(last, st.objects[i])
    requires c == Cluster(st.objects, last, yawOk, i) && c != []
    requires SlotsIn(Participants(i, c), |st.objects|)
    requires x == Mean(Xs(st.objects, skels, Participants(i, c)))
    requires z == Mean(Zs(st.objects, skels, Participants(i, c)))
    requires rot == Rotation.Combine(Rots(st.objects, skels, Participants(i, c)), slerp)
    requires t == MaxFlagged(st.objects, c, st.objects[i].localTime)
    ensures Step(st, skels, last, yawOk, slerp, i) ==
      TickState(SetTimes(st.objects[i := st.objects[i].(localTime := t)], c, t),
                EmitAll(st.syncs[st.objects[i].pose := Emit(st.objects, skels, i, x, z, rot)],
                        st.objects, skels, c, x, z, rot))
  {
    assert Step(st, skels, last, yawOk, slerp, i) == Reconcile(st, skels, last, yawOk, slerp, i, c);
  }

  lemma ReconcileFacts(st: TickState, skels: map<SkelId, Transform>, last: map<Addr, Vec3>,
                       yawOk: (real, real) -> bool, slerp: (Quat, Quat, real) -> Quat, i: nat, c: seq<Member>)
    requires i < |st.objects| && OuterCandidate(last, st.objects[i])
    requires c == Cluster(st.objects, last, yawOk, i)
    ensures var r := Reconcile(st, skels, last, yawOk, slerp, i, c);
      && SameButTimes(st.objects, r.objects)
      && st.syncs.Keys <= r.syncs.Keys <= st.syncs.Keys + StationaryPoses(st.objects, last)
      && (forall k :: 0 <= k < |st.objects| ==> r.objects[k].localTime >= st.objects[k].localTime)
      && (forall k :: 0 <= k < |st.objects| && r.objects[k].localTime != st.objects[k].localTime ==>
           IsValidObject(st.objects[k]) && Stationary(last, st.objects[k]))
  {
    var objs := st.objects;
    var t := MaxFlagged(objs, c, objs[i].localTime);
    StepFacts(objs, last, yawOk, i, c, t);
    var r := Reconcile(st, skels, last, yawOk, slerp, i, c);
    ReconcileTimes(objs, last, yawOk, i, c, t, r.objects);
  }

  /** The times written by reconciling the cluster `c` of outer object `i`
      only ever rise, and only on eligible stationary objects. */
  lemma ReconcileTimes(objs: seq<GameObject>, last: map<Addr, Vec3>, yawOk: (real, real) -> bool,
                       i: nat, c: seq<Member>, t: real, objs2: seq<GameObject>)
    requires i < |objs| && OuterCandidate(last, objs[i])
    requires c == Cluster(objs, last, yawOk, i) && t == MaxFlagged(objs, c, objs[i].localTime)
    requires objs2 == SetTimes(objs[i := objs[i].(localTime := t)], c, t)
    ensures SameButTimes(objs, objs2)
    ensures forall k :: 0 <= k < |objs| ==> objs2[k].localTime >= objs[k].localTime
    ensures forall k :: 0 <= k < |objs| && objs2[k].localTime != objs[k].localTime ==>
      IsValidObject(objs[k]) && Stationary(last, objs[k])
  {
    var a := objs[i];
    var objs1 := objs[i := a.(localTime := t)];
    assert SameButTimes(objs, objs1) by {
      assert Frozen(objs1[i]) == Frozen(a);
    }
    StepFacts(objs, last, yawOk, i, c, t);
    forall k | 0 <= k < |objs|
      ensures objs2[k].localTime >= objs[k].localTime
      ensures objs2[k].localTime != objs[k].localTime ==> IsValidObject(objs[k]) && Stationary(last, objs[k])
    {
      if k in Flagged(c) {
        assert objs2[k].localTime == t;
      } else if k == i {
        assert objs2[k].localTime == t;
      } else {
        assert objs2[k].localTime == objs1[k].localTime == objs[k].localTime;
      }
    }
  }

  lemma StepFacts(objs: seq<GameObject>, last: map<Addr, Vec3>, yawOk: (real, real) -> bool, i: nat, c: seq<Member>, t: real)
    requires i < |objs| && OuterCandidate(last, objs[i])
    requires c == Cluster(objs, last, yawOk, i) && t == MaxFlagged(objs, c, objs[i].localTime)
    ensures SlotsIn(Participants(i, c), |objs|)
    ensures |Participants(i, c)| == |c| + 1
    ensures Poses(objs, c) + {objs[i].pose} <= StationaryPoses(objs, last)
    ensures i !in Flagged(c)
    ensures forall k :: k in Flagged(c) ==> k < |objs| && t >= objs[k].localTime
    ensures forall k :: k in Flagged(c) ==> IsValidObject(objs[k]) && Stationary(last, objs[k])
  {
    ParticipantsIn(objs, i, c);
    ClusterPoses(objs, last, yawOk, i, c);
    ClusterFlagged(objs, last, yawOk, i, c, t);
  }

  lemma ParticipantsIn(objs: seq<GameObject>, i: nat, c: seq<Member>)
    requires i < |objs| && MembersIn(c, |objs|)
    ensures SlotsIn(Participants(i, c), |objs|)
    ensures |Participants(i, c)| == |c| + 1
  {
    var ps := Participants(i, c);
    forall k | 0 <= k < |ps| ensures ps[k] < |objs| {
      if k > 0 {
        assert ps[k] == c[k - 1].idx;
      }
    }
  }

  /** The poses a cluster touches belong to valid, stationary objects. */
  lemma ClusterPoses(objs: seq<GameObject>, last: map<Addr, Vec3>, yawOk: (real, real) -> bool, i: nat, c: seq<Member>)
    requires i < |objs| && OuterCandidate(last, objs[i])
    requires c == Cluster(objs, last, yawOk, i)
    ensures Poses(objs, c) + {objs[i].pose} <= StationaryPoses(objs, last)
  {
    forall p | p in Poses(objs, c) ensures p in StationaryPoses(objs, last) {
      var m :| m in c && m.idx < |objs| && objs[m.idx].pose == p;
      var k :| 0 <= k < |c| && c[k] == m;
      assert Admits(last, yawOk, objs[i], objs[m.idx]);
    }
  }

  /** Flagged members are other valid, stationary slots whose time the
      reconciled time covers. */
  lemma ClusterFlagged(objs: seq<GameObject>, last: map<Addr, Vec3>, yawOk: (real, real) -> bool, i: nat, c: seq<Member>, t: real)
    requires i < |objs|
    requires c == Cluster(objs, last, yawOk, i) && t == MaxFlagged(objs, c, objs[i].localTime)
    ensures i !in Flagged(c)
    ensures forall k :: k in Flagged(c) ==> k < |objs| && t >= objs[k].localTime
    ensures forall k :: k in Flagged(c) ==> IsValidObject(objs[k]) && Stationary(last, objs[k])
  {
    forall k | k in Flagged(c)
      ensures k < |objs| && k != i && t >= objs[k].localTime
      ensures IsValidObject(objs[k]) && Stationary(last, objs[k])
    {
      var j :| 0 <= j < |c| && c[j].timeDiffers && c[j].idx == k;
      assert Admits(last, yawOk, objs[i], objs[c[j].idx]);
    }
  }

  /** The whole outer loop over the first `n` slots, starting from an empty
      pose store. */
  function TickPass(objs: seq<GameObject>, skels: map<SkelId, Transform>, last: map<Addr, Vec3>,
                    yawOk: (real, real) -> bool, slerp: (Quat, Quat, real) -> Quat, n: nat): (r: TickState)
    requires n <= |objs|
    ensures SameButTimes(objs, r.objects)
    ensures r.syncs.Keys <= StationaryPoses(objs, last)
    ensures forall k :: 0 <= k < |objs| ==> r.objects[k].localTime >= objs[k].localTime
    ensures forall k :: 0 <= k < |objs| && r.objects[k].localTime != objs[k].localTime ==>
      IsValidObject(objs[k]) && Stationary(last, objs[k])
  {
    if n == 0 then TickState(objs, map[])
    else
      var st := TickPass(objs, skels, last, yawOk, slerp, n - 1);
      var r := Step(st, skels, last, yawOk, slerp, n - 1);
      StationaryPosesSameButTimes(objs, st.objects, last);
      assert forall k :: 0 <= k < |objs| ==> Frozen(objs[k]) == Frozen(st.objects[k]) == Frozen(r.objects[k]);
      r
  }

  /** The pass over `n + 1` slots is one more step after the pass over `n`. */
  lemma TickPassNext(objs: seq<GameObject>, skels: map<SkelId, Transform>, last: map<Addr, Vec3>,
                     yawOk: (real, real) -> bool, slerp: (Quat, Quat, real) -> Quat, n: nat)
    requires n < |objs|
    ensures |TickPass(objs, skels, last, yawOk, slerp, n).objects| == |objs|
    ensures TickPass(objs, skels, last, yawOk, slerp, n + 1) ==
      Step(TickPass(objs, skels, last, yawOk, slerp, n), skels, last, yawOk, slerp, n)
  {
  }

  /** The snapshot of positions rebuilt from the first `n` slots. */
  function Snapshot(objs: seq<GameObject>, n: nat): (r: map<Addr, Vec3>)
    requires n <= |objs|
    ensures r.Keys == set k | 0 <= k < n && IsValidObject(objs[k]) :: objs[k].addr
  {
    if n == 0 then map[]
    else
      var r := Snapshot(objs, n - 1);
      var o := objs[n - 1];
      if IsValidObject(o) then r[o.addr := o.position] else r
  }

  /** No later valid object among the first `n` shares slot `k`'s address. */
  ghost predicate LastWithAddr(objs: seq<GameObject>, n: nat, k: nat)
    requires k < n <= |objs|
  {
    forall l :: k < l < n && IsValidObject(objs[l]) ==> objs[l].addr != objs[k].addr
  }

  /** Each valid object's address maps to its current position, unless a
      later valid object has the same address. */
  lemma {:induction false} SnapshotPosition(objs: seq<GameObject>, n: nat, k: nat)
    requires k < n <= |objs| && IsValidObject(objs[k]) && LastWithAddr(objs, n, k)
    ensures Snapshot(objs, n)[objs[k].addr] == objs[k].position
  {
    if k < n - 1 {
      SnapshotPosition(objs, n - 1, k);
    }
  }

  /** An outer object that fails its filters, or whose cluster is empty,
      changes nothing. */
  lemma StepSkips(st: TickState, skels: map<SkelId, Transform>, last: map<Addr, Vec3>,
                  yawOk: (real, real) -> bool, slerp: (Quat, Quat, real) -> Quat, i: nat)
    requires i < |st.objects|
    requires !OuterCandidate(last, st.objects[i]) || Cluster(st.objects, last, yawOk, i) == []
    ensures Step(st, skels, last, yawOk, slerp, i) == st
  {
  }

  /** Times after reconciling the non-empty cluster `c` of outer object
      `i`: the outer object and every flagged member hold the reconciled
      time, every other slot is untouched. */
  lemma StepTimes(st: TickState, skels: map<SkelId, Transform>, last: map<Addr, Vec3>,
                  yawOk: (real, real) -> bool, slerp: (Quat, Quat, real) -> Quat, i: nat)
    requires i < |st.objects| && OuterCandidate(last, st.objects[i])
    requires Cluster(st.objects, last, yawOk, i) != []
    ensures var objs := st.objects;
      var c := Cluster(objs, last, yawOk, i);
      var r := Step(st, skels, last, yawOk, slerp, i);
      var t := MaxFlagged(objs, c, objs[i].localTime);
      && r.objects[i].localTime == t
      && (forall k :: k in Flagged(c) ==> k < |objs| && r.objects[k].localTime == t)
      && (forall k :: 0 <= k < |objs| && k != i && k !in Flagged(c) ==> r.objects[k] == objs[k])
  {
    var objs := st.objects;
    var c := Cluster(objs, last, yawOk, i);
    var t := MaxFlagged(objs, c, objs[i].localTime);
    StepFacts(objs, last, yawOk, i, c, t);
    assert Step(st, skels, last, yawOk, slerp, i) == Reconcile(st, skels, last, yawOk, slerp, i, c);
  }

  /** Corrections after reconciling the non-empty cluster `c` of outer
      object `i`: every participant's pose carries the participants' mean
      X and Z and the combined orientation, and a participant whose pose no
      later participant shares gets its own skeleton's height and handle.
      No other pose is added and every other entry keeps its value. */
  lemma StepCorrections(st: TickState, skels: map<SkelId, Transform>, last: map<Addr, Vec3>,
                        yawOk: (real, real) -> bool, slerp: (Quat, Quat, real) -> Quat, i: nat,
                        c: seq<Member>, x: real, z: real, rot: Quat, r: TickState)
    requires i < |st.objects| && OuterCandidate(last, st.objects[i])
    requires c == Cluster(st.objects, last, yawOk, i) && c != []
    requires SlotsIn(Participants(i, c), |st.objects|)
    requires x == Mean(Xs(st.objects, skels, Participants(i, c)))
    requires z == Mean(Zs(st.objects, skels, Participants(i, c)))
    requires rot == Rotation.Combine(Rots(st.objects, skels, Participants(i, c)), slerp)
    requires r == Step(st, skels, last, yawOk, slerp, i)
    ensures forall p :: p in Poses(st.objects, c) + {st.objects[i].pose} ==>
      p in r.syncs && r.syncs[p].position.x == x && r.syncs[p].position.z == z && r.syncs[p].rotation == rot
    ensures st.objects[i].pose !in Poses(st.objects, c) ==>
      r.syncs[st.objects[i].pose] == Emit(st.objects, skels, i, x, z, rot)
    ensures forall k :: 0 <= k < |c| && LastWithPose(st.objects, c, k) ==>
      r.syncs[st.objects[c[k].idx].pose] == Emit(st.objects, skels, c[k].idx, x, z, rot)
    ensures r.syncs.Keys == st.syncs.Keys + Poses(st.objects, c) + {st.objects[i].pose}
    ensures forall p :: p in st.syncs && p !in Poses(st.objects, c) + {st.objects[i].pose} ==>
      r.syncs[p] == st.syncs[p]
  {
    var t := MaxFlagged(st.objects, c, st.objects[i].localTime);
    var rs1 := st.syncs[st.objects[i].pose := Emit(st.objects, skels, i, x, z, rot)];
    assert r.syncs == EmitAll(rs1, st.objects, skels, c, x, z, rot) by {
      ReconcileWith(st, skels, last, yawOk, slerp, i, c, x, z, rot, t);
    }
    ClusterCorrections(st.syncs, st.objects, skels, i, c, x, z, rot, r.syncs);
    forall k | 0 <= k < |c| && LastWithPose(st.objects, c, k)
      ensures r.syncs[st.objects[c[k].idx].pose] == Emit(st.objects, skels, c[k].idx, x, z, rot)
    {
      EmitAllLastWriter(rs1, st.objects, skels, c, x, z, rot, k);
    }
  }

  /** The store after the outer object's correction and then its members':
      every participant's pose carries the cluster's X, Z and orientation,
      and nothing else changes. */
  lemma ClusterCorrections(rs: map<PoseId, Correction>, objs: seq<GameObject>, skels: map<SkelId, Transform>,
                           i: nat, c: seq<Member>, x: real, z: real, rot: Quat, stored: map<PoseId, Correction>)
    requires i < |objs| && MembersIn(c, |objs|)
    requires stored == EmitAll(rs[objs[i].pose := Emit(objs, skels, i, x, z, rot)], objs, skels, c, x, z, rot)
    ensures forall p :: p in Poses(objs, c) + {objs[i].pose} ==>
      p in stored && stored[p].position.x == x && stored[p].position.z == z && stored[p].rotation == rot
    ensures objs[i].pose !in Poses(objs, c) ==> stored[objs[i].pose] == Emit(objs, skels, i, x, z, rot)
    ensures stored.Keys == rs.Keys + Poses(objs, c) + {objs[i].pose}
    ensures forall p :: p in rs && p !in Poses(objs, c) + {objs[i].pose} ==> stored[p] == rs[p]
  {
  }

  lemma {:induction false} SumBounds(xs: seq<real>, lo: real, hi: real)
    requires forall k :: 0 <= k < |xs| ==> lo <= xs[k] <= hi
    ensures |xs| as real * lo <= Sum(xs) <= |xs| as real * hi
  {
    if xs != [] {
      var n := |xs| - 1;
      SumBounds(xs[..n], lo, hi);
      assert xs[..n] + [xs[n]] == xs;
    }
  }

  /** The mean lies between any common lower and upper bound of the values:
      a correction never moves a cluster outside the box its participants
      span. */
  lemma MeanWithin(xs: seq<real>, lo: real, hi: real)
    requires |xs| > 0
    requires forall k :: 0 <= k < |xs| ==> lo <= xs[k] <= hi
    ensures lo <= Mean(xs) <= hi
  {
    SumBounds(xs, lo, hi);
    var n := |xs| as real;
    assert Mean(xs) * n == Sum(xs);
  }

  /** With a yaw test that does not care which object is the outer one,
      cluster membership is mutual between valid stationary objects. */
  lemma ClusterSymmetric(objs: seq<GameObject>, last: map<Addr, Vec3>, yawOk: (real, real) -> bool, i: nat, j: nat)
    requires i < |objs| && j < |objs|
    requires forall ra, rb :: yawOk(ra, rb) == yawOk(rb, ra)
    requires IsValidObject(objs[i]) && Stationary(last, objs[i])
    requires IsValidObject(objs[j]) && Stationary(last, objs[j])
    ensures j in Indices(Cluster(objs, last, yawOk, i)) <==> i in Indices(Cluster(objs, last, yawOk, j))
  {
    assert DistanceSq(objs[i].position, objs[j].position) == DistanceSq(objs[j].position, objs[i].position);
    assert yawOk(objs[i].rotation, objs[j].rotation) == yawOk(objs[j].rotation, objs[i].rotation);
  }
}
