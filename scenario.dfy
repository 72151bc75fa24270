/** Whole-tick outcomes on small concrete tables. */
module Scenario {
  import opened Objects
  import opened Sync
  import Yaw

  /** Two players playing the same 5-second animation, a tenth of a unit
      apart, facing 0.2 rad apart, at local times 1 and 3. */
  const First := GameObject(1, 0, Player, true, true, Vec3(0.0, 0.0, 0.0), 0.0, 5.0, 1.0, 10, 100)
  const Second := GameObject(2, 1, Player, true, true, Vec3(0.1, 0.0, 0.0), 0.2, 5.0, 3.0, 11, 101)

  function Pair(): seq<GameObject> {
    [First, Second]
  }

  function PairSkeletons(qa: Quat, qb: Quat): map<SkelId, Transform> {
    map[10 := Transform(First.position, qa), 11 := Transform(Second.position, qb)]
  }

  function PairSnapshot(): map<Addr, Vec3> {
    map[1 := First.position, 2 := Second.position]
  }

  lemma PairCloseEnough()
    ensures Yaw.SourceYawOk(0.0, 0.2) && Yaw.SourceYawOk(0.2, 0.0)
    ensures DistanceSq(First.position, Second.position) <= MaxDist * MaxDist
    ensures DistanceSq(Second.position, First.position) <= MaxDist * MaxDist
  {
    Yaw.SourceAgreesNearZero(0.0, 0.2);
    Yaw.SourceAgreesNearZero(0.2, 0.0);
  }

  /** The table after the first iteration: both players at time 3. */
  function PairSynced(): seq<GameObject> {
    [First.(localTime := 3.0), Second.(localTime := 3.0)]
  }

  lemma PairClusters()
    ensures Cluster(Pair(), PairSnapshot(), Yaw.SourceYawOk, 0) == [Member(1, true)]
    ensures Cluster(PairSynced(), PairSnapshot(), Yaw.SourceYawOk, 1) == [Member(0, false)]
  {
    var last, yaw := PairSnapshot(), Yaw.SourceYawOk;
    PairCloseEnough();
    assert Admits(last, yaw, First, Second);
    assert Admits(last, yaw, Second.(localTime := 3.0), First.(localTime := 3.0));
    assert ClusterUpTo(Pair(), last, yaw, 0, 1) == [];
    assert ClusterUpTo(PairSynced(), last, yaw, 1, 0) == [];
  }

  lemma SumPair(a: real, b: real)
    ensures Sum([a, b]) == a + b
  {
    assert [a, b][..1] == [a] && [a][..0] == [];
    assert Sum([a]) == a;
  }

  lemma SingleSetTimes(objs: seq<GameObject>, m: Member, t: real)
    requires m.idx < |objs|
    ensures MembersIn([m], |objs|)
    ensures SetTimes(objs, [m], t) == if m.timeDiffers then objs[m.idx := objs[m.idx].(localTime := t)] else objs
  {
    assert [m][..0] == [];
  }

  lemma SingleEmitAll(rs: map<PoseId, Correction>, objs: seq<GameObject>, skels: map<SkelId, Transform>,
                      m: Member, x: real, z: real, rot: Quat)
    requires m.idx < |objs|
    ensures MembersIn([m], |objs|)
    ensures EmitAll(rs, objs, skels, [m], x, z, rot) == rs[objs[m.idx].pose := Emit(objs, skels, m.idx, x, z, rot)]
  {
    assert [m][..0] == [];
  }

  lemma SingleMaxFlagged(objs: seq<GameObject>, m: Member, t0: real)
    requires m.idx < |objs|
    ensures MembersIn([m], |objs|)
    ensures MaxFlagged(objs, [m], t0) == if m.timeDiffers && objs[m.idx].localTime > t0 then objs[m.idx].localTime else t0
  {
    assert [m][..0] == [];
  }

  lemma PairMean(a: real, b: real)
    ensures Mean([a, b]) == (a + b) / 2.0
  {
    SumPair(a, b);
  }

  /** The averages of a one-member cluster are those of the two objects. */
  lemma SingleAverages(objs: seq<GameObject>, skels: map<SkelId, Transform>, last: map<Addr, Vec3>,
                       yawOk: (real, real) -> bool, slerp: (Quat, Quat, real) -> Quat, i: nat, m: Member)
    requires i < |objs| && Cluster(objs, last, yawOk, i) == [m]
    ensures m.idx < |objs| && m.idx != i
    ensures Participants(i, [m]) == [i, m.idx]
    ensures var sa, sb := SkeletonOf(skels, objs[i]), SkeletonOf(skels, objs[m.idx]);
      && Mean(Xs(objs, skels, [i, m.idx])) == (sa.position.x + sb.position.x) / 2.0
      && Mean(Zs(objs, skels, [i, m.idx])) == (sa.position.z + sb.position.z) / 2.0
      && Rotation.Combine(Rots(objs, skels, [i, m.idx]), slerp) == slerp(sa.rotation, sb.rotation, 0.5)
  {
    assert [m][0] == m;
    var sa, sb := SkeletonOf(skels, objs[i]), SkeletonOf(skels, objs[m.idx]);
    assert Participants(i, [m]) == [i, m.idx];
    assert Xs(objs, skels, [i, m.idx]) == [sa.position.x, sb.position.x];
    assert Zs(objs, skels, [i, m.idx]) == [sa.position.z, sb.position.z];
    assert Rots(objs, skels, [i, m.idx]) == [sa.rotation, sb.rotation];
    PairMean(sa.position.x, sb.position.x);
    PairMean(sa.position.z, sb.position.z);
  }

  /** Times after reconciling a one-member cluster: the outer object takes
      `t`, and so does the member when it is flagged. */
  lemma SingleObjects(st: TickState, skels: map<SkelId, Transform>, last: map<Addr, Vec3>,
                      yawOk: (real, real) -> bool, slerp: (Quat, Quat, real) -> Quat, i: nat, m: Member, t: real)
    requires i < |st.objects| && OuterCandidate(last, st.objects[i])
    requires Cluster(st.objects, last, yawOk, i) == [m]
    requires m.idx < |st.objects|
    requires t == if m.timeDiffers && st.objects[m.idx].localTime > st.objects[i].localTime
                  then st.objects[m.idx].localTime else st.objects[i].localTime
    ensures Step(st, skels, last, yawOk, slerp, i).objects ==
      if m.timeDiffers
      then st.objects[i := st.objects[i].(localTime := t)][m.idx := st.objects[m.idx].(localTime := t)]
      else st.objects[i := st.objects[i].(localTime := t)]
  {
    var objs := st.objects;
    var a := objs[i];
    SingleAverages(objs, skels, last, yawOk, slerp, i, m);
    SingleMaxFlagged(objs, m, a.localTime);
    var r := Reconcile(st, skels, last, yawOk, slerp, i, [m]);
    assert r.objects == SetTimes(objs[i := a.(localTime := t)], [m], t);
    SingleSetTimes(objs[i := a.(localTime := t)], m, t);
    assert Step(st, skels, last, yawOk, slerp, i) == r;
  }

  /** The corrections of a non-empty cluster, as the step writes them,
      for averages `x`, `z` and `rot` worked out by the caller. */
  lemma StepSyncs(st: TickState, skels: map<SkelId, Transform>, last: map<Addr, Vec3>,
                  yawOk: (real, real) -> bool, slerp: (Quat, Quat, real) -> Quat, i: nat, c: seq<Member>,
                  x: real, z: real, rot: Quat)
    requires i < |st.objects| && OuterCandidate(last, st.objects[i])
    requires c == Cluster(st.objects, last, yawOk, i) && c != []
    requires SlotsIn(Participants(i, c), |st.objects|)
    requires x == Mean(Xs(st.objects, skels, Participants(i, c)))
    requires z == Mean(Zs(st.objects, skels, Participants(i, c)))
    requires rot == Rotation.Combine(Rots(st.objects, skels, Participants(i, c)), slerp)
    ensures Step(st, skels, last, yawOk, slerp, i).syncs ==
      EmitAll(st.syncs[st.objects[i].pose := Emit(st.objects, skels, i, x, z, rot)], st.objects, skels, c, x, z, rot)
  {
    StepFacts(st.objects, last, yawOk, i, c, MaxFlagged(st.objects, c, st.objects[i].localTime));
    assert Step(st, skels, last, yawOk, slerp, i) == Reconcile(st, skels, last, yawOk, slerp, i, c);
  }

  /** Corrections after reconciling a one-member cluster: the outer pose,
      then the member's, both with the pair's averages. */
  lemma SingleSyncs(st: TickState, skels: map<SkelId, Transform>, last: map<Addr, Vec3>,
                    yawOk: (real, real) -> bool, slerp: (Quat, Quat, real) -> Quat, i: nat, m: Member,
                    x: real, z: real, rot: Quat)
    requires i < |st.objects| && OuterCandidate(last, st.objects[i])
    requires Cluster(st.objects, last, yawOk, i) == [m]
    requires m.idx < |st.objects|
    requires x == (SkeletonOf(skels, st.objects[i]).position.x + SkeletonOf(skels, st.objects[m.idx]).position.x) / 2.0
    requires z == (SkeletonOf(skels, st.objects[i]).position.z + SkeletonOf(skels, st.objects[m.idx]).position.z) / 2.0
    requires rot == slerp(SkeletonOf(skels, st.objects[i]).rotation, SkeletonOf(skels, st.objects[m.idx]).rotation, 0.5)
    ensures Step(st, skels, last, yawOk, slerp, i).syncs ==
      st.syncs[st.objects[i].pose := Emit(st.objects, skels, i, x, z, rot)]
              [st.objects[m.idx].pose := Emit(st.objects, skels, m.idx, x, z, rot)]
  {
    SingleAverages(st.objects, skels, last, yawOk, slerp, i, m);
    assert [m][0] == m;
    StepSyncs(st, skels, last, yawOk, slerp, i, [m], x, z, rot);
    SingleEmitAll(st.syncs[st.objects[i].pose := Emit(st.objects, skels, i, x, z, rot)], st.objects, skels, m, x, z, rot);
  }

  /** First iteration: the first player's cluster is reconciled. */
  lemma FirstIteration(qa: Quat, qb: Quat, slerp: (Quat, Quat, real) -> Quat)
    ensures Step(TickState(Pair(), map[]), PairSkeletons(qa, qb), PairSnapshot(), Yaw.SourceYawOk, slerp, 0)
      == TickState(PairSynced(), map[100 := Correction(Vec3(0.05, 0.0, 0.0), slerp(qa, qb, 0.5), 10),
                                     101 := Correction(Vec3(0.05, 0.0, 0.0), slerp(qa, qb, 0.5), 11)])
  {
    var st, skels := TickState(Pair(), map[]), PairSkeletons(qa, qb);
    PairClusters();
    SingleObjects(st, skels, PairSnapshot(), Yaw.SourceYawOk, slerp, 0, Member(1, true), 3.0);
    SingleSyncs(st, skels, PairSnapshot(), Yaw.SourceYawOk, slerp, 0, Member(1, true), 0.05, 0.0, slerp(qa, qb, 0.5));
  }

  /** Second iteration: the second player's cluster overwrites both poses. */
  lemma SecondIteration(qa: Quat, qb: Quat, slerp: (Quat, Quat, real) -> Quat, rs: map<PoseId, Correction>)
    ensures Step(TickState(PairSynced(), rs), PairSkeletons(qa, qb), PairSnapshot(), Yaw.SourceYawOk, slerp, 1)
      == TickState(PairSynced(), rs[101 := Correction(Vec3(0.05, 0.0, 0.0), slerp(qb, qa, 0.5), 11)]
                                   [100 := Correction(Vec3(0.05, 0.0, 0.0), slerp(qb, qa, 0.5), 10)])
  {
    var st, skels := TickState(PairSynced(), rs), PairSkeletons(qa, qb);
    PairClusters();
    SingleObjects(st, skels, PairSnapshot(), Yaw.SourceYawOk, slerp, 1, Member(0, false), 3.0);
    SingleSyncs(st, skels, PairSnapshot(), Yaw.SourceYawOk, slerp, 1, Member(0, false), 0.05, 0.0, slerp(qb, qa, 0.5));
  }

  /** The first player's cluster holds the second, flagged; after the
      first iteration both run at time 3, so the second player's cluster
      holds the first, unflagged. Both poses end up at X = 0.05 with their
      own height, and both carry the orientation of the later cluster,
      which interpolates from the second player's rotation. */
  lemma TwoPlayersTick(qa: Quat, qb: Quat, slerp: (Quat, Quat, real) -> Quat)
    ensures TickPass(Pair(), PairSkeletons(qa, qb), PairSnapshot(), Yaw.SourceYawOk, slerp, 2)
      == TickState(PairSynced(), map[100 := Correction(Vec3(0.05, 0.0, 0.0), slerp(qb, qa, 0.5), 10),
                                     101 := Correction(Vec3(0.05, 0.0, 0.0), slerp(qb, qa, 0.5), 11)])
  {
    var objs, skels, last, yaw := Pair(), PairSkeletons(qa, qb), PairSnapshot(), Yaw.SourceYawOk;
    var b0 := Correction(Vec3(0.05, 0.0, 0.0), slerp(qb, qa, 0.5), 10);
    var b1 := Correction(Vec3(0.05, 0.0, 0.0), slerp(qb, qa, 0.5), 11);
    var st1 := TickPass(objs, skels, last, yaw, slerp, 1);
    assert st1 == Step(TickState(objs, map[]), skels, last, yaw, slerp, 0) by {
      assert TickPass(objs, skels, last, yaw, slerp, 0) == TickState(objs, map[]);
    }
    var rs1 := map[100 := Correction(Vec3(0.05, 0.0, 0.0), slerp(qa, qb, 0.5), 10),
                   101 := Correction(Vec3(0.05, 0.0, 0.0), slerp(qa, qb, 0.5), 11)];
    assert st1 == TickState(PairSynced(), rs1) by {
      FirstIteration(qa, qb, slerp);
    }
    var st2 := TickPass(objs, skels, last, yaw, slerp, 2);
    assert st2 == TickState(PairSynced(), rs1[101 := b1][100 := b0]) by {
      assert st2 == Step(st1, skels, last, yaw, slerp, 1);
      SecondIteration(qa, qb, slerp, rs1);
    }
    Overwritten(rs1[100], rs1[101], b0, b1);
  }

  /** Writing both keys of a two-key map again leaves only the new values. */
  lemma Overwritten(a0: Correction, a1: Correction, b0: Correction, b1: Correction)
    ensures map[100 := a0, 101 := a1][101 := b1][100 := b0] == map[100 := b0, 101 := b1]
  {
    var m := map[100 := a0, 101 := a1][101 := b1][100 := b0];
    assert m.Keys == {100, 101};
  }

  /** Two valid, stationary players at the same spot facing 3.0 and -3.0
      rad (about 16 degrees apart across the +-pi seam): with the source's
      yaw test the second clusters the first but not the other way round. */
  lemma SourceClusterAsymmetric()
    ensures var a := GameObject(1, 0, Player, true, true, Vec3(0.0, 0.0, 0.0), 3.0, 5.0, 0.0, 10, 100);
      var b := GameObject(2, 1, Player, true, true, Vec3(0.0, 0.0, 0.0), -3.0, 5.0, 0.0, 11, 101);
      var last := map[1 := a.position, 2 := b.position];
      && 1 !in Indices(Cluster([a, b], last, Yaw.SourceYawOk, 0))
      && 0 in Indices(Cluster([a, b], last, Yaw.SourceYawOk, 1))
  {
    Yaw.SourceYawAsymmetric();
  }

  /** With the yaw difference normalised into one turn, cluster membership
      is mutual between valid stationary objects, whatever their yaws. */
  lemma NormalizedClusterMutual(objs: seq<GameObject>, last: map<Addr, Vec3>, i: nat, j: nat)
    requires i < |objs| && j < |objs|
    requires IsValidObject(objs[i]) && Stationary(last, objs[i])
    requires IsValidObject(objs[j]) && Stationary(last, objs[j])
    ensures j in Indices(Cluster(objs, last, Yaw.NormalizedYawOk, i)) <==> i in Indices(Cluster(objs, last, Yaw.NormalizedYawOk, j))
  {
    forall ra: real, rb: real ensures Yaw.NormalizedYawOk(ra, rb) == Yaw.NormalizedYawOk(rb, ra) {
      Yaw.NormalizedYawSymmetric(ra, rb);
    }
    ClusterSymmetric(objs, last, Yaw.NormalizedYawOk, i, j);
  }
}
