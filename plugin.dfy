/** The plugin object: the pose store shared with the pose interceptor, the
    motion snapshot, the enabled flag, and the per-frame tick, the command
    handler and the interceptor that work on them. Each locked block of
    the source is one atomic method body here. */
module Plugin {
  import opened Objects
  import opened Sync
  import Rotation

  const Command: string := "/animsync"
  const ToggleArgs: string := "toggle"

  /** The inner loop of the tick: the cluster of outer object `i`. */
  method BuildCluster(objs: seq<GameObject>, last: map<Addr, Vec3>, yawOk: (real, real) -> bool, i: nat)
    returns (syncs: seq<Member>)
    requires i < |objs|
    ensures syncs == Cluster(objs, last, yawOk, i)
    ensures forall j :: 0 <= j < |objs| ==> (j in Indices(syncs) <==> j != i && Admits(last, yawOk, objs[i], objs[j]))
  {
    var a := objs[i];
    syncs := [];
    var j := 0;
    while j < |objs|
      invariant 0 <= j <= |objs|
      invariant syncs == ClusterUpTo(objs, last, yawOk, i, j)
    {
      var b := objs[j];
      ClusterUpToNext(objs, last, yawOk, i, j);
      if j != i && IsValidObject(b) && Stationary(last, b)
        && a.duration == b.duration
        && yawOk(a.rotation, b.rotation)
        && DistanceSq(a.position, b.position) <= MaxDist * MaxDist
      {
        syncs := syncs + [Member(j, a.localTime != b.localTime)];
      }
      j := j + 1;
    }
  }

  /** The accumulation loop of the tick: the participants' mean skeleton X
      and Z, their rotations (outer object first) and the reconciled time. */
  method Accumulate(objs: seq<GameObject>, skels: map<SkelId, Transform>, i: nat, syncs: seq<Member>)
    returns (x: real, z: real, rotations: seq<Quat>, time: real)
    requires i < |objs| && MembersIn(syncs, |objs|)
    ensures SlotsIn(Participants(i, syncs), |objs|)
    ensures x == Mean(Xs(objs, skels, Participants(i, syncs)))
    ensures z == Mean(Zs(objs, skels, Participants(i, syncs)))
    ensures rotations == Rots(objs, skels, Participants(i, syncs))
    ensures time == MaxFlagged(objs, syncs, objs[i].localTime)
  {
    ghost var ps := Participants(i, syncs);
    ParticipantsIn(objs, i, syncs);
    ghost var xs, zs, qs := Xs(objs, skels, ps), Zs(objs, skels, ps), Rots(objs, skels, ps);
    var transform := SkeletonOf(skels, objs[i]);
    var posX, posZ := transform.position.x, transform.position.z;
    rotations := [transform.rotation];
    time := objs[i].localTime;
    PrefixSum(xs, 0);
    PrefixSum(zs, 0);
    var k := 0;
    while k < |syncs|
      invariant 0 <= k <= |syncs|
      invariant posX == Sum(xs[..k + 1]) && posZ == Sum(zs[..k + 1])
      invariant rotations == qs[..k + 1]
      invariant time == MaxFlagged(objs, syncs[..k], objs[i].localTime)
    {
      var m := syncs[k];
      transform := SkeletonOf(skels, objs[m.idx]);
      AccumulateNext(objs, skels, i, syncs, k);
      MaxFlaggedPrefix(objs, syncs, k, objs[i].localTime);
      posX := posX + transform.position.x;
      posZ := posZ + transform.position.z;
      rotations := rotations + [transform.rotation];
      if m.timeDiffers {
        time := if objs[m.idx].localTime > time then objs[m.idx].localTime else time;
      }
      k := k + 1;
    }
    assert xs[..k + 1] == xs && zs[..k + 1] == zs && qs[..k + 1] == qs && syncs[..k] == syncs;
    x := posX / ((|syncs| + 1) as real);
    z := posZ / ((|syncs| + 1) as real);
  }

  /** Adding member `k` of the cluster extends each accumulated prefix by
      that member's skeleton root. */
  lemma AccumulateNext(objs: seq<GameObject>, skels: map<SkelId, Transform>, i: nat, syncs: seq<Member>, k: nat)
    requires i < |objs| && MembersIn(syncs, |objs|) && k < |syncs|
    requires SlotsIn(Participants(i, syncs), |objs|)
    ensures Sum(Xs(objs, skels, Participants(i, syncs))[..k + 2]) ==
      Sum(Xs(objs, skels, Participants(i, syncs))[..k + 1]) + SkeletonOf(skels, objs[syncs[k].idx]).position.x
    ensures Sum(Zs(objs, skels, Participants(i, syncs))[..k + 2]) ==
      Sum(Zs(objs, skels, Participants(i, syncs))[..k + 1]) + SkeletonOf(skels, objs[syncs[k].idx]).position.z
    ensures Rots(objs, skels, Participants(i, syncs))[..k + 2] ==
      Rots(objs, skels, Participants(i, syncs))[..k + 1] + [SkeletonOf(skels, objs[syncs[k].idx]).rotation]
  {
    var ps := Participants(i, syncs);
    assert ps[k + 1] == syncs[k].idx;
    var xs, zs, qs := Xs(objs, skels, ps), Zs(objs, skels, ps), Rots(objs, skels, ps);
    PrefixSum(xs, k + 1);
    PrefixSum(zs, k + 1);
    assert qs[..k + 2] == qs[..k + 1] + [qs[k + 1]];
  }

  lemma PrefixSum(xs: seq<real>, k: nat)
    requires k < |xs|
    ensures Sum(xs[..k + 1]) == Sum(xs[..k]) + xs[k]
    ensures k == 0 ==> Sum(xs[..1]) == xs[0]
  {
    assert xs[..k + 1][..k] == xs[..k];
  }

  class AnimSync {
    /** Pending corrections by pose, rebuilt every tick. */
    var rootSyncs: map<PoseId, Correction>
    /** Position of every valid object at the end of the last tick. */
    var lastPositions: map<Addr, Vec3>
    /** The persisted setting: whether the tick runs. */
    var enabled: bool
    /** The host whose objects and skeletons the plugin reads and writes. */
    const host: Host

    /** While disabled no tick runs and the store stays empty, so the
        interceptor can never apply a stale correction. */
    ghost predicate Valid()
      reads this, host
    {
      host.Valid() && (!enabled ==> rootSyncs == map[])
    }

    /** Load: `enabled` is the setting read from the configuration. */
    constructor (h: Host, enabled: bool)
      requires h.Valid()
      ensures Valid() && host == h && this.enabled == enabled
      ensures rootSyncs == map[] && lastPositions == map[]
    {
      host := h;
      this.enabled := enabled;
      rootSyncs := map[];
      lastPositions := map[];
    }

    /** The framework's per-frame update: the tick is subscribed only while
        enabled. */
    method Update(yawOk: (real, real) -> bool, slerp: (Quat, Quat, real) -> Quat)
      requires Valid()
      modifies this, host
      ensures Valid() && enabled == old(enabled) && host.skeletons == old(host.skeletons)
      ensures |host.objects| == |old(host.objects)|
      ensures !enabled ==> rootSyncs == old(rootSyncs) && lastPositions == old(lastPositions) && host.objects == old(host.objects)
      ensures enabled ==>
        TickState(host.objects, rootSyncs) == TickPass(old(host.objects), host.skeletons, old(lastPositions), yawOk, slerp, |old(host.objects)|)
        && lastPositions == Snapshot(host.objects, |host.objects|)
    {
      if enabled {
        Tick(yawOk, slerp);
      }
    }

    /** One tick: clear the store, run the outer loop, rebuild the snapshot. */
    method Tick(yawOk: (real, real) -> bool, slerp: (Quat, Quat, real) -> Quat)
      requires Valid() && enabled
      modifies this`rootSyncs, this`lastPositions, host`objects
      ensures Valid() && enabled && host.skeletons == old(host.skeletons)
      ensures |host.objects| == |old(host.objects)|
      ensures TickState(host.objects, rootSyncs) ==
        TickPass(old(host.objects), host.skeletons, old(lastPositions), yawOk, slerp, |host.objects|)
      ensures lastPositions == Snapshot(host.objects, |host.objects|)
    {
      ghost var objs0, last0 := host.objects, lastPositions;
      rootSyncs := map[];
      OuterLoop(yawOk, slerp);
      assert host.Valid();
      ghost var r := TickState(host.objects, rootSyncs);
      assert r == TickPass(objs0, host.skeletons, last0, yawOk, slerp, |objs0|);
      RebuildSnapshot();
      assert host.Valid() && enabled;
      assert TickState(host.objects, rootSyncs) == r;
    }

    /** The outer loop, from an empty store: every slot in table order. */
    method OuterLoop(yawOk: (real, real) -> bool, slerp: (Quat, Quat, real) -> Quat)
      requires host.Valid() && rootSyncs == map[]
      modifies this`rootSyncs, host`objects
      ensures host.Valid() && |host.objects| == |old(host.objects)|
      ensures TickState(host.objects, rootSyncs) ==
        TickPass(old(host.objects), host.skeletons, lastPositions, yawOk, slerp, |old(host.objects)|)
    {
      ghost var objs0 := host.objects;
      var i := 0;
      while i < |host.objects|
        invariant 0 <= i <= |host.objects| == |objs0|
        invariant host.Valid()
        invariant TickState(host.objects, rootSyncs) == TickPass(objs0, host.skeletons, lastPositions, yawOk, slerp, i)
      {
        OuterIteration(objs0, i, yawOk, slerp);
        i := i + 1;
      }
    }

    /** Iteration `i` of the outer loop takes the pass over the first `i`
        slots to the pass over the first `i + 1`. */
    method OuterIteration(ghost objs0: seq<GameObject>, i: nat, yawOk: (real, real) -> bool, slerp: (Quat, Quat, real) -> Quat)
      requires host.Valid() && i < |objs0| == |host.objects|
      requires TickState(host.objects, rootSyncs) == TickPass(objs0, host.skeletons, lastPositions, yawOk, slerp, i)
      modifies this`rootSyncs, host`objects
      ensures host.Valid() && |host.objects| == |objs0|
      ensures TickState(host.objects, rootSyncs) == TickPass(objs0, host.skeletons, lastPositions, yawOk, slerp, i + 1)
    {
      TickPassNext(objs0, host.skeletons, lastPositions, yawOk, slerp, i);
      ProcessOuter(i, yawOk, slerp);
    }

    /** One iteration of the outer loop: filter the outer object, build its
        cluster and, if it is not empty, reconcile it. */
    method ProcessOuter(i: nat, yawOk: (real, real) -> bool, slerp: (Quat, Quat, real) -> Quat)
      requires host.Valid() && i < |host.objects|
      modifies this`rootSyncs, host`objects
      ensures host.Valid()
      ensures TickState(host.objects, rootSyncs) ==
        Step(TickState(old(host.objects), old(rootSyncs)), host.skeletons, lastPositions, yawOk, slerp, i)
    {
      var a := host.objects[i];
      ghost var st := TickState(host.objects, rootSyncs);
      if a.index <= IndexCutoff && IsValidObject(a) && Stationary(lastPositions, a) && a.notMounted {
        var syncs := BuildCluster(host.objects, lastPositions, yawOk, i);
        if |syncs| > 0 {
          assert MembersIn(syncs, |host.objects|);
          var x, z, rotation, time := ReconcileCluster(i, syncs, slerp);
          ReconcileWith(st, host.skeletons, lastPositions, yawOk, slerp, i, syncs, x, z, rotation, time);
          return;
        }
      }
      StepSkips(st, host.skeletons, lastPositions, yawOk, slerp, i);
    }

    /** The outer loop body once the cluster `syncs` of outer object `i` is
        known and non-empty: average, combine, raise the time, then write
        the outer object's correction and time and the members'. */
    method ReconcileCluster(i: nat, syncs: seq<Member>, slerp: (Quat, Quat, real) -> Quat)
      returns (x: real, z: real, rotation: Quat, time: real)
      requires host.Valid() && i < |host.objects| && MembersIn(syncs, |host.objects|)
      modifies this`rootSyncs, host`objects
      ensures host.Valid()
      ensures SlotsIn(Participants(i, syncs), |old(host.objects)|)
      ensures x == Mean(Xs(old(host.objects), host.skeletons, Participants(i, syncs)))
      ensures z == Mean(Zs(old(host.objects), host.skeletons, Participants(i, syncs)))
      ensures rotation == Rotation.Combine(Rots(old(host.objects), host.skeletons, Participants(i, syncs)), slerp)
      ensures time == MaxFlagged(old(host.objects), syncs, old(host.objects)[i].localTime)
      ensures host.objects == SetTimes(old(host.objects)[i := old(host.objects)[i].(localTime := time)], syncs, time)
      ensures rootSyncs == EmitAll(old(rootSyncs)[old(host.objects)[i].pose := Emit(old(host.objects), host.skeletons, i, x, z, rotation)],
                                   old(host.objects), host.skeletons, syncs, x, z, rotation)
    {
      var objs := host.objects;
      var a := objs[i];
      var rotations;
      x, z, rotations, time := Accumulate(objs, host.skeletons, i, syncs);
      rotation := Rotation.CombineRotations(rotations, slerp);
      var skel := SkeletonOf(host.skeletons, a);
      var rs1 := rootSyncs[a.pose := Correction(Vec3(x, skel.position.y, z), rotation, a.skeleton)];
      var objs1 := objs[i := a.(localTime := time)];
      assert SameButTimes(objs, objs1) by {
        assert Frozen(objs1[i]) == Frozen(a);
      }
      rootSyncs := rs1;
      host.objects := objs1;
      WriteMembers(objs, objs1, rs1, syncs, x, z, rotation, time);
    }

    /** The member loop of one cluster: a correction for every member, the
        reconciled time for every flagged one. */
    method WriteMembers(objs: seq<GameObject>, objs1: seq<GameObject>, rs1: map<PoseId, Correction>,
                        syncs: seq<Member>, x: real, z: real, rotation: Quat, time: real)
      requires MembersIn(syncs, |objs|) && SameButTimes(objs, objs1)
      requires host.objects == objs1 && rootSyncs == rs1
      modifies this`rootSyncs, host`objects
      ensures host.objects == SetTimes(objs1, syncs, time)
      ensures rootSyncs == EmitAll(rs1, objs, host.skeletons, syncs, x, z, rotation)
    {
      var k := 0;
      while k < |syncs|
        invariant 0 <= k <= |syncs|
        invariant host.objects == SetTimes(objs1, syncs[..k], time)
        invariant rootSyncs == EmitAll(rs1, objs, host.skeletons, syncs[..k], x, z, rotation)
      {
        var m := syncs[k];
        var b := host.objects[m.idx];
        assert Frozen(b) == Frozen(objs1[m.idx]) == Frozen(objs[m.idx]);
        var skel := SkeletonOf(host.skeletons, b);
        rootSyncs := rootSyncs[b.pose := Correction(Vec3(x, skel.position.y, z), rotation, b.skeleton)];
        if m.timeDiffers {
          host.objects := host.objects[m.idx := b.(localTime := time)];
        }
        assert syncs[..k + 1][..k] == syncs[..k];
        k := k + 1;
      }
      assert syncs[..k] == syncs;
    }

    /** Clear the snapshot and record every valid object's position. */
    method RebuildSnapshot()
      modifies this`lastPositions
      ensures lastPositions == Snapshot(host.objects, |host.objects|)
    {
      lastPositions := map[];
      var k := 0;
      while k < |host.objects|
        invariant 0 <= k <= |host.objects|
        invariant lastPositions == Snapshot(host.objects, k)
      {
        var o := host.objects[k];
        if IsValidObject(o) {
          lastPositions := lastPositions[o.addr := o.position];
        }
        k := k + 1;
      }
    }

    /** The command handler: "toggle" flips the setting (turning off empties
        the store), any other arguments reset the playback time of every
        valid object, and another command name is ignored. */
    method OnCommand(cmd: string, args: string)
      requires Valid()
      modifies this, host
      ensures Valid() && lastPositions == old(lastPositions) && host.skeletons == old(host.skeletons)
      ensures cmd != Command ==>
        enabled == old(enabled) && rootSyncs == old(rootSyncs) && host.objects == old(host.objects)
      ensures cmd == Command && args == ToggleArgs ==>
        && enabled == !old(enabled)
        && rootSyncs == (if enabled then old(rootSyncs) else map[])
        && host.objects == old(host.objects)
      ensures cmd == Command && args != ToggleArgs ==>
        && enabled == old(enabled) && rootSyncs == old(rootSyncs)
        && |host.objects| == |old(host.objects)|
        && forall k :: 0 <= k < |host.objects| ==>
             host.objects[k] == if IsValidObject(old(host.objects)[k]) then old(host.objects)[k].(localTime := 0.0) else old(host.objects)[k]
    {
      if cmd != Command {
        return;
      }
      if args == ToggleArgs {
        enabled := !enabled;
        if !enabled {
          rootSyncs := map[];
        }
        return;
      }
      var k := 0;
      while k < |host.objects|
        invariant 0 <= k <= |host.objects| == |old(host.objects)|
        invariant forall j :: 0 <= j < |host.objects| ==>
          host.objects[j] == if j < k && IsValidObject(old(host.objects)[j]) then old(host.objects)[j].(localTime := 0.0) else old(host.objects)[j]
        invariant host.skeletons == old(host.skeletons) && enabled == old(enabled) && rootSyncs == old(rootSyncs)
        invariant lastPositions == old(lastPositions) && host.Valid()
      {
        var o := host.objects[k];
        if IsValidObject(o) {
          host.objects := host.objects[k := o.(localTime := 0.0)];
        }
        k := k + 1;
      }
    }

    /** The pose interceptor. `original` is the host's own finalisation,
        which runs first and keeps every skeleton; then a stored correction
        for `pose`, if any, overwrites its skeleton's root transform. The
        store is only read. */
    method AnimRoot(pose: PoseId, original: map<SkelId, Transform> -> map<SkelId, Transform>)
      requires Valid()
      requires original(host.skeletons).Keys == host.skeletons.Keys
      modifies host`skeletons
      ensures Valid()
      ensures pose in rootSyncs ==>
        var c := rootSyncs[pose];
        host.skeletons == original(old(host.skeletons))[c.skeleton := Transform(c.position, c.rotation)]
      ensures pose !in rootSyncs ==> host.skeletons == original(old(host.skeletons))
      ensures !enabled ==> host.skeletons == original(old(host.skeletons))
    {
      host.skeletons := original(host.skeletons);
      if pose in rootSyncs {
        var sync := rootSyncs[pose];
        host.skeletons := host.skeletons[sync.skeleton := Transform(sync.position, sync.rotation)];
      }
    }
  }
}
