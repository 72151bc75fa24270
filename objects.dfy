/** The host's side of the picture: the game objects the plugin observes,
    their skeleton root transforms, and the per-object predicates the
    synchronisation pass filters them with. */
module Objects {

  /** Raw addresses and handles of the host. Only equality matters. */
  type Addr = int
  type PoseId = int
  type SkelId = int

  datatype Vec3 = Vec3(x: real, y: real, z: real)
  datatype Quat = Quat(x: real, y: real, z: real, w: real)

  /** The root transform of a skeleton (position and orientation). */
  datatype Transform = Transform(position: Vec3, rotation: Quat)

  /** What the plugin's object kind test distinguishes. */
  datatype Kind = Player | BattleNpc | OtherKind

  /** One entry of the host's object table as the plugin sees it.
      `hasControl` says the animation-control pointer chain is non-null,
      `skeleton` is the skeleton handle and `pose` the handle of its
      first Havok pose, both reached through the draw object.
      `duration` and `localTime` belong to the animation control. */
  datatype GameObject = GameObject(
    addr: Addr,
    index: nat,
    kind: Kind,
    hasControl: bool,
    notMounted: bool,
    position: Vec3,
    rotation: real,
    duration: real,
    localTime: real,
    skeleton: SkelId,
    pose: PoseId)

  /** The object with its playback time blanked: everything a tick must
      leave as it was. */
  function Frozen(o: GameObject): GameObject {
    o.(localTime := 0.0)
  }

  /** Two tables that differ at most in playback times. */
  ghost predicate SameButTimes(a: seq<GameObject>, b: seq<GameObject>) {
    |a| == |b| && forall k :: 0 <= k < |a| ==> Frozen(a[k]) == Frozen(b[k])
  }

  /** Eligibility: a player or battle NPC with a live animation control. */
  predicate IsValidObject(o: GameObject) {
    (o.kind == BattleNpc || o.kind == Player) && o.hasControl
  }

  const NoTransform := Transform(Vec3(0.0, 0.0, 0.0), Quat(0.0, 0.0, 0.0, 1.0))

  /** The root transform of `o`'s skeleton. A controlled object always has
      a skeleton (`Host.Valid`), so the default is never read for one. */
  function SkeletonOf(skels: map<SkelId, Transform>, o: GameObject): Transform {
    if o.skeleton in skels then skels[o.skeleton] else NoTransform
  }

  /** The host's live state: the object table and the skeletons' root
      transforms, addressed by handle. */
  class Host {
    var objects: seq<GameObject>
    var skeletons: map<SkelId, Transform>

    /** A non-null animation control is reached through the skeleton, so
        every controlled object has one. */
    ghost predicate Valid()
      reads this
    {
      forall k :: 0 <= k < |objects| && objects[k].hasControl ==> objects[k].skeleton in skeletons
    }

    constructor (objs: seq<GameObject>, skels: map<SkelId, Transform>)
      requires forall k :: 0 <= k < |objs| && objs[k].hasControl ==> objs[k].skeleton in skels
      ensures Valid() && objects == objs && skeletons == skels
    {
      objects := objs;
      skeletons := skels;
    }
  }
}
