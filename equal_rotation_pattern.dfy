/**
 * The equal-rotation detector: a look packet whose yaw and pitch are exactly
 * the stored ones is flagged, unless the player is in a vehicle, has just
 * teleported or is standing still, the world explains it, the packet was
 * announced as expected, or the main-thread world check did not complete.
 */
module EqualRotationPattern {
  import opened Wrappers
  import opened ServerVersions
  import opened MaterialUtil

  /**
   * A Java `float` as its IEEE 754 binary32 bit pattern. Yaw and pitch are
   * only ever compared with `==`, so no arithmetic is needed.
   */
  datatype Float32 = Float32(bits: bv32)
  {
    /** All exponent bits set and a non-zero fraction. */
    predicate IsNaN()
    {
      bits & 0x7F80_0000 == 0x7F80_0000 && bits & 0x007F_FFFF != 0
    }

    /** +0.0 or -0.0. */
    predicate IsZero()
    {
      bits & 0x7FFF_FFFF == 0
    }
  }

  /** Java's `==` on two `float`s: NaN equals nothing, and +0.0 equals -0.0. */
  predicate FloatEquals(a: Float32, b: Float32)
  {
    !a.IsNaN() && !b.IsNaN() && (a.bits == b.bits || (a.IsZero() && b.IsZero()))
  }

  /** `==` on floats is symmetric, reflexive except on NaN, and identifies the two zeros. */
  lemma FloatEqualsProperties(a: Float32, b: Float32)
    ensures FloatEquals(a, b) <==> FloatEquals(b, a)
    ensures FloatEquals(a, a) <==> !a.IsNaN()
    ensures FloatEquals(Float32(0x0000_0000), Float32(0x8000_0000))
    ensures a.IsNaN() || b.IsNaN() ==> !FloatEquals(a, b)
    ensures !FloatEquals(Float32(0x7FC0_0000), Float32(0x7FC0_0000))
  {
  }

  /** The look values a POSITION_LOOK or LOOK packet carries. */
  datatype LookPacket = LookPacket(yaw: Float32, pitch: Float32)

  /** `hasTeleportedRecently` is asked about this window in milliseconds. */
  const TELEPORT_WINDOW_MILLIS: nat := 5000

  /** `hasMovedRecently(LAST_XZ_MOVEMENT, ...)` is asked about this window in milliseconds. */
  const XZ_MOVEMENT_WINDOW_MILLIS: nat := 100

  /** The violation level the detector passes to `flag`. */
  const FLAG_VL: int := -1

  /** The seconds the packet thread waits for the main-thread world check. */
  const SYNC_TIMEOUT_SECONDS: nat := 10

  /** `CHANGED_HITBOX_MATERIALS`: materials whose hitbox changed in 1.9. */
  function ChangedHitboxMaterials(v: ServerVersion): (r: Result<set<Material>, VersionError>)
    ensures r.Failure? <==> !v.IsSupported()
    ensures r.Success? && v != MC188 ==> r.value == {}
  {
    match v
    case MC188 => Success({StainedGlassPane, ThinGlass, IronFence, Chest, Anvil})
    case MC112 | MC113 | MC114 | MC115 | MC116 => Success({})
    case _ => Failure(UnknownMinecraftVersion)
  }

  /** The 1.8 table has five distinct entries: panes, bars, chest and anvil. */
  lemma ChangedHitboxMaterialsOn188()
    ensures ChangedHitboxMaterials(MC188).Success?
    ensures |ChangedHitboxMaterials(MC188).value| == 5
    ensures ChangedHitboxMaterials(MC188).value == {StainedGlassPane, ThinGlass, IronFence, Chest, Anvil}
  {
    var s := {StainedGlassPane, ThinGlass, IronFence, Chest, Anvil};
    assert s == {StainedGlassPane, ThinGlass, IronFence, Chest} + {Anvil};
    assert |{StainedGlassPane, ThinGlass, IronFence} + {Chest}| == 4;
  }

  /**
   * What the main thread sees when it runs the world check: whether the
   * hitbox is in liquid, the block below the feet, the client's version and
   * the materials of the blocks the hitbox intersects.
   */
  datatype WorldView = WorldView(
    hitboxInLiquids: bool,
    blockBelow: Material,
    clientVersion: ServerVersion,
    hitboxMaterials: set<Material>)

  /** `EntityUtil.isHitboxInMaterials`: the hitbox touches a block of one of the given materials. */
  predicate HitboxInMaterials(world: WorldView, materials: set<Material>)
    ensures HitboxInMaterials(world, materials) <==> materials * world.hitboxMaterials != {}
  {
    assert materials * world.hitboxMaterials != {} ==> exists m :: m in materials * world.hitboxMaterials;
    assert forall m :: m in materials && m in world.hitboxMaterials ==> m in materials * world.hitboxMaterials;
    exists m :: m in materials && m in world.hitboxMaterials
  }

  /**
   * The callable run on the main thread: true when nothing in the world
   * explains the equal rotation. It excuses a landing into liquid on a slime
   * block, and a 1.8 server seeing a newer client inside a block whose
   * hitbox changed.
   */
  predicate WorldAllowsFlag(server: ServerVersion, changedHitboxMaterials: set<Material>, world: WorldView)
    ensures server != MC188 || world.clientVersion == MC188 || changedHitboxMaterials == {} ==>
      (WorldAllowsFlag(server, changedHitboxMaterials, world) <==> !(world.hitboxInLiquids && world.blockBelow == SlimeBlock))
  {
    && !(world.hitboxInLiquids && world.blockBelow == SlimeBlock)
    && !(server == MC188 && world.clientVersion != MC188 && HitboxInMaterials(world, changedHitboxMaterials))
  }

  /** How `callSyncMethod(...).get(10, SECONDS)` ended. */
  datatype SyncCall =
    | Completed(world: WorldView)   // the callable ran on the main thread
    | TimedOut                     // TimeoutException
    | Interrupted                  // InterruptedException
    | ExecutionFailed              // ExecutionException

  /** The player facts the guard reads; the two recency queries are asked about a window length. */
  datatype PlayerFacts = PlayerFacts(
    userValid: bool,
    insideVehicle: bool,
    hasTeleportedRecently: nat -> bool,
    hasMovedXZRecently: nat -> bool)

  /** The guard of the check: a valid user outside a vehicle, not just teleported, sending the stored rotation while moving. */
  predicate GuardHolds(facts: PlayerFacts, lastYaw: Float32, lastPitch: Float32, packet: LookPacket)
    ensures GuardHolds(facts, lastYaw, lastPitch, packet) ==>
      && !packet.yaw.IsNaN() && !packet.pitch.IsNaN() && !lastYaw.IsNaN() && !lastPitch.IsNaN()
  {
    && facts.userValid
    && !facts.insideVehicle
    && !facts.hasTeleportedRecently(TELEPORT_WINDOW_MILLIS)
    && FloatEquals(packet.yaw, lastYaw)
    && FloatEquals(packet.pitch, lastPitch)
    && facts.hasMovedXZRecently(XZ_MOVEMENT_WINDOW_MILLIS)
  }

  /** What one packet did. */
  datatype Verdict =
    | Ignored      // the guard failed: nothing was asked of the main thread
    | Discarded    // the main-thread check timed out or failed
    | Explained    // the world check excused the packet
    | Consumed     // the packet was expected: the one-shot flag was cleared
    | Flagged      // `flag(player, -1, ...)` was called

  /**
   * The decision of `onPacketReceiving` for one packet, given the stored
   * rotation, the one-shot expected flag and how the main-thread call ended.
   */
  function Decide(
    server: ServerVersion, changedHitboxMaterials: set<Material>,
    expected: bool, lastYaw: Float32, lastPitch: Float32,
    packet: LookPacket, facts: PlayerFacts, call: SyncCall): (verdict: Verdict)
    ensures verdict == Ignored <==> !GuardHolds(facts, lastYaw, lastPitch, packet)
    ensures verdict == Discarded <==> GuardHolds(facts, lastYaw, lastPitch, packet) && !call.Completed?
    ensures (verdict == Consumed || verdict == Flagged)
        <==> (GuardHolds(facts, lastYaw, lastPitch, packet) && call.Completed?
              && WorldAllowsFlag(server, changedHitboxMaterials, call.world))
    ensures verdict == Consumed ==> expected
    ensures verdict == Flagged ==> !expected
  {
    if !GuardHolds(facts, lastYaw, lastPitch, packet) then Ignored
    else match call
      case TimedOut => Discarded
      case Interrupted => Discarded
      case ExecutionFailed => Discarded
      case Completed(world) =>
        if !WorldAllowsFlag(server, changedHitboxMaterials, world) then Explained
        else if expected then Consumed
        else Flagged
  }

  /** The one-shot expected flag after a packet with the given verdict. */
  function ExpectedAfter(expected: bool, verdict: Verdict): (after: bool)
    ensures after ==> expected
    ensures verdict != Consumed ==> after == expected
  {
    if verdict == Consumed then false else expected
  }

  /** The per-player data the detector reads and writes (entries of the user's data map). */
  class User {
    const id: nat
    var equalRotationExpected: bool   // PACKET_ANALYSIS_EQUAL_ROTATION_EXPECTED
    var realLastYaw: Float32          // PACKET_ANALYSIS_REAL_LAST_YAW
    var realLastPitch: Float32        // PACKET_ANALYSIS_REAL_LAST_PITCH

    constructor (id: nat, yaw: Float32, pitch: Float32)
      ensures this.id == id && !equalRotationExpected
      ensures realLastYaw == yaw && realLastPitch == pitch
    {
      this.id := id;
      equalRotationExpected := false;
      realLastYaw := yaw;
      realLastPitch := pitch;
    }
  }

  /** One call of `flag`: the player and the violation level passed. */
  datatype FlagEvent = FlagEvent(player: nat, vl: int)

  /** The violation-level manager, reduced to the record of `flag` calls it received. */
  class ViolationLevelManagement {
    var flags: seq<FlagEvent>

    constructor ()
      ensures flags == []
    {
      flags := [];
    }

    /** `flag(player, vl, onFlagged, onAlways)`: records the call. */
    method Flag(player: nat, vl: int)
      modifies this
      ensures flags == old(flags) + [FlagEvent(player, vl)]
    {
      flags := flags + [FlagEvent(player, vl)];
    }
  }

  /** The detector module; it only exists once `CHANGED_HITBOX_MATERIALS` was initialised. */
  class EqualRotationDetector {
    const server: ServerVersion
    const changedHitboxMaterials: set<Material>

    /** Class initialisation: throws `UnknownMinecraftVersion` on an unsupported server, so it needs a supported one. */
    constructor (server: ServerVersion)
      requires ChangedHitboxMaterials(server).Success?
      ensures this.server == server
      ensures ChangedHitboxMaterials(server) == Success(changedHitboxMaterials)
    {
      this.server := server;
      this.changedHitboxMaterials := ChangedHitboxMaterials(server).value;
    }

    /**
     * `onPacketReceiving`: applies `Decide` to the user's stored state. It
     * clears the expected flag only when it consumes an occurrence, calls
     * `flag` with -1 exactly when it flags, and leaves the stored yaw and
     * pitch to the component that tracks them.
     */
    method OnPacketReceiving(user: User, violations: ViolationLevelManagement,
                             packet: LookPacket, facts: PlayerFacts, call: SyncCall)
      returns (verdict: Verdict)
      modifies user`equalRotationExpected, violations
      ensures verdict == Decide(server, changedHitboxMaterials, old(user.equalRotationExpected),
                                user.realLastYaw, user.realLastPitch, packet, facts, call)
      ensures user.equalRotationExpected == ExpectedAfter(old(user.equalRotationExpected), verdict)
      ensures violations.flags == old(violations.flags) + (if verdict == Flagged then [FlagEvent(user.id, FLAG_VL)] else [])
    {
      if !facts.userValid {
        return Ignored;
      }
      if !facts.insideVehicle &&
         !facts.hasTeleportedRecently(TELEPORT_WINDOW_MILLIS) &&
         FloatEquals(packet.yaw, user.realLastYaw) &&
         FloatEquals(packet.pitch, user.realLastPitch) &&
         facts.hasMovedXZRecently(XZ_MOVEMENT_WINDOW_MILLIS)
      {
        match call {
          case Completed(world) =>
            if WorldAllowsFlag(server, changedHitboxMaterials, world) {
              if user.equalRotationExpected {
                user.equalRotationExpected := false;
                return Consumed;
              }
              violations.Flag(user.id, FLAG_VL);
              return Flagged;
            }
            return Explained;
          case Interrupted =>
            return Discarded;
          case ExecutionFailed =>
            return Discarded;
          case TimedOut =>
            return Discarded;
        }
      }
      return Ignored;
    }
  }

  // ---------------------------------------------------------------------------
  // Properties of the decision
  // ---------------------------------------------------------------------------

  /** In a vehicle, right after a teleport or while standing still nothing is flagged and the expected flag is kept. */
  lemma GraceConditionsNeverFlag(
    server: ServerVersion, changed: set<Material>, expected: bool,
    lastYaw: Float32, lastPitch: Float32, packet: LookPacket, facts: PlayerFacts, call: SyncCall)
    requires facts.insideVehicle || facts.hasTeleportedRecently(TELEPORT_WINDOW_MILLIS) || !facts.hasMovedXZRecently(XZ_MOVEMENT_WINDOW_MILLIS)
    ensures Decide(server, changed, expected, lastYaw, lastPitch, packet, facts, call) == Ignored
    ensures ExpectedAfter(expected, Decide(server, changed, expected, lastYaw, lastPitch, packet, facts, call)) == expected
  {
  }

  /** A rotation that differs from the stored one in yaw or pitch is never flagged. */
  lemma DifferentRotationNeverFlags(
    server: ServerVersion, changed: set<Material>, expected: bool,
    lastYaw: Float32, lastPitch: Float32, packet: LookPacket, facts: PlayerFacts, call: SyncCall)
    requires !FloatEquals(packet.yaw, lastYaw) || !FloatEquals(packet.pitch, lastPitch)
    ensures Decide(server, changed, expected, lastYaw, lastPitch, packet, facts, call) == Ignored
  {
  }

  /** A NaN yaw or pitch never equals the stored value, so it is never flagged, even when its bits repeat. */
  lemma NaNRotationNeverFlags(
    server: ServerVersion, changed: set<Material>, expected: bool,
    lastYaw: Float32, lastPitch: Float32, packet: LookPacket, facts: PlayerFacts, call: SyncCall)
    requires packet.yaw.IsNaN() || packet.pitch.IsNaN()
    ensures Decide(server, changed, expected, lastYaw, lastPitch, packet, facts, call) == Ignored
  {
  }

  /** Flagging needs exactly the stored yaw and pitch, outside every grace condition, with a completed world check. */
  lemma FlagNeedsEqualRotation(
    server: ServerVersion, changed: set<Material>, expected: bool,
    lastYaw: Float32, lastPitch: Float32, packet: LookPacket, facts: PlayerFacts, call: SyncCall)
    requires Decide(server, changed, expected, lastYaw, lastPitch, packet, facts, call) == Flagged
    ensures FloatEquals(packet.yaw, lastYaw) && FloatEquals(packet.pitch, lastPitch)
    ensures facts.userValid && !facts.insideVehicle && !facts.hasTeleportedRecently(TELEPORT_WINDOW_MILLIS)
    ensures facts.hasMovedXZRecently(XZ_MOVEMENT_WINDOW_MILLIS)
    ensures call.Completed? && WorldAllowsFlag(server, changed, call.world) && !expected
  {
  }

  /** Landing in liquid on a slime block is never flagged. */
  lemma SlimeBlockInLiquidNeverFlags(
    server: ServerVersion, changed: set<Material>, expected: bool,
    lastYaw: Float32, lastPitch: Float32, packet: LookPacket, facts: PlayerFacts, world: WorldView)
    requires world.hitboxInLiquids && world.blockBelow == SlimeBlock
    ensures !WorldAllowsFlag(server, changed, world)
    ensures Decide(server, changed, expected, lastYaw, lastPitch, packet, facts, Completed(world)) != Flagged
  {
  }

  /** On a 1.8 server, a newer client touching a block whose hitbox changed is never flagged. */
  lemma ChangedHitboxNeverFlags(
    expected: bool, lastYaw: Float32, lastPitch: Float32, packet: LookPacket, facts: PlayerFacts,
    world: WorldView, m: Material)
    requires world.clientVersion != MC188
    requires m in ChangedHitboxMaterials(MC188).value && m in world.hitboxMaterials
    ensures !WorldAllowsFlag(MC188, ChangedHitboxMaterials(MC188).value, world)
    ensures Decide(MC188, ChangedHitboxMaterials(MC188).value, expected, lastYaw, lastPitch, packet, facts, Completed(world)) != Flagged
  {
  }

  /** On servers from MC112 on the hitbox exception never applies: only the slime-block exception remains. */
  lemma NoHitboxExceptionAfter188(server: ServerVersion, world: WorldView)
    requires server.IsSupported() && server != MC188
    ensures WorldAllowsFlag(server, ChangedHitboxMaterials(server).value, world)
        <==> !(world.hitboxInLiquids && world.blockBelow == SlimeBlock)
  {
  }

  /** A timed-out, interrupted or failed world check flags nothing and keeps the expected flag. */
  lemma IncompleteCallChangesNothing(
    server: ServerVersion, changed: set<Material>, expected: bool,
    lastYaw: Float32, lastPitch: Float32, packet: LookPacket, facts: PlayerFacts, call: SyncCall)
    requires !call.Completed?
    ensures Decide(server, changed, expected, lastYaw, lastPitch, packet, facts, call) in {Ignored, Discarded}
    ensures ExpectedAfter(expected, Decide(server, changed, expected, lastYaw, lastPitch, packet, facts, call)) == expected
  {
  }

  /** With every check passed and the expected flag clear, the packet is flagged and the flag stays clear. */
  lemma UnexpectedEqualRotationIsFlagged(
    server: ServerVersion, changed: set<Material>,
    lastYaw: Float32, lastPitch: Float32, packet: LookPacket, facts: PlayerFacts, world: WorldView)
    requires GuardHolds(facts, lastYaw, lastPitch, packet)
    requires WorldAllowsFlag(server, changed, world)
    ensures Decide(server, changed, false, lastYaw, lastPitch, packet, facts, Completed(world)) == Flagged
    ensures !ExpectedAfter(false, Decide(server, changed, false, lastYaw, lastPitch, packet, facts, Completed(world)))
  {
  }

  /**
   * The expected flag suppresses exactly one occurrence: the first packet is
   * consumed and clears it, and the same packet in the same situation right
   * after is flagged.
   */
  lemma ExpectedSuppressesExactlyOne(
    server: ServerVersion, changed: set<Material>,
    lastYaw: Float32, lastPitch: Float32, packet: LookPacket, facts: PlayerFacts, world: WorldView)
    requires GuardHolds(facts, lastYaw, lastPitch, packet)
    requires WorldAllowsFlag(server, changed, world)
    ensures var first := Decide(server, changed, true, lastYaw, lastPitch, packet, facts, Completed(world));
      && first == Consumed
      && !ExpectedAfter(true, first)
      && Decide(server, changed, ExpectedAfter(true, first), lastYaw, lastPitch, packet, facts, Completed(world)) == Flagged
  {
  }

  /** Only a consumed occurrence changes the expected flag, and only from true to false. */
  lemma ExpectedFlagOnlyConsumed(
    server: ServerVersion, changed: set<Material>, expected: bool,
    lastYaw: Float32, lastPitch: Float32, packet: LookPacket, facts: PlayerFacts, call: SyncCall)
    ensures var verdict := Decide(server, changed, expected, lastYaw, lastPitch, packet, facts, call);
      && (verdict == Consumed ==> expected)
      && (ExpectedAfter(expected, verdict) != expected <==> verdict == Consumed)
  {
  }

  /**
   * One packet of a run together with the rotation stored for the player
   * when it arrives; the stored rotation is written by the look-packet
   * tracker, not by this detector, so each step carries its own.
   */
  datatype Step = Step(lastYaw: Float32, lastPitch: Float32, packet: LookPacket, facts: PlayerFacts, call: SyncCall)

  /** The detector over a sequence of packets: the number of flags. */
  function FlagCount(server: ServerVersion, changed: set<Material>, expected: bool, steps: seq<Step>): nat
    decreases |steps|
  {
    if |steps| == 0 then 0
    else
      var step := steps[0];
      var verdict := Decide(server, changed, expected, step.lastYaw, step.lastPitch, step.packet, step.facts, step.call);
      (if verdict == Flagged then 1 else 0)
        + FlagCount(server, changed, ExpectedAfter(expected, verdict), steps[1..])
  }

  /** The packet of a step repeats the rotation stored at that step. */
  predicate Repeats(step: Step)
  {
    FloatEquals(step.packet.yaw, step.lastYaw) && FloatEquals(step.packet.pitch, step.lastPitch)
  }

  /** A run none of whose packets repeats the rotation stored at its step flags nothing. */
  lemma {:induction false} VaryingRotationsNeverFlag(
    server: ServerVersion, changed: set<Material>, expected: bool, steps: seq<Step>)
    requires forall i :: 0 <= i < |steps| ==> !Repeats(steps[i])
    ensures FlagCount(server, changed, expected, steps) == 0
  {
    if |steps| > 0 {
      var step := steps[0];
      assert !Repeats(step);
      var verdict := Decide(server, changed, expected, step.lastYaw, step.lastPitch, step.packet, step.facts, step.call);
      assert verdict == Ignored;
      assert forall i :: 0 <= i < |steps[1..]| ==> steps[1..][i] == steps[i + 1];
      VaryingRotationsNeverFlag(server, changed, ExpectedAfter(expected, verdict), steps[1..]);
    }
  }

  /** The stored rotation at every step after the first is the previous packet's rotation. */
  predicate Tracked(steps: seq<Step>)
  {
    forall i :: 0 < i < |steps| ==>
      steps[i].lastYaw == steps[i - 1].packet.yaw && steps[i].lastPitch == steps[i - 1].packet.pitch
  }

  /**
   * When the stored rotation follows the packets, a run whose first packet
   * differs from the initially stored rotation and whose every packet
   * differs from its predecessor flags nothing.
   */
  lemma TrackedVaryingRotationsNeverFlag(
    server: ServerVersion, changed: set<Material>, expected: bool, steps: seq<Step>)
    requires Tracked(steps)
    requires |steps| > 0 ==> !Repeats(steps[0])
    requires forall i :: 0 < i < |steps| ==>
      !FloatEquals(steps[i].packet.yaw, steps[i - 1].packet.yaw)
      || !FloatEquals(steps[i].packet.pitch, steps[i - 1].packet.pitch)
    ensures FlagCount(server, changed, expected, steps) == 0
  {
    forall i | 0 <= i < |steps|
      ensures !Repeats(steps[i])
    {
      if i > 0 {
        assert steps[i].lastYaw == steps[i - 1].packet.yaw;
      }
    }
    VaryingRotationsNeverFlag(server, changed, expected, steps);
  }

  /**
   * A run whose packets all pass every check flags each one, except for
   * the first when it was announced as expected.
   */
  lemma {:induction false} EveryUnexplainedRepeatIsFlagged(
    server: ServerVersion, changed: set<Material>, expected: bool, steps: seq<Step>)
    requires forall i :: 0 <= i < |steps| ==> GuardHolds(steps[i].facts, steps[i].lastYaw, steps[i].lastPitch, steps[i].packet)
    requires forall i :: 0 <= i < |steps| ==> steps[i].call.Completed? && WorldAllowsFlag(server, changed, steps[i].call.world)
    ensures FlagCount(server, changed, expected, steps)
         == if expected && |steps| > 0 then |steps| - 1 else |steps|
  {
    if |steps| > 0 {
      var step := steps[0];
      var verdict := Decide(server, changed, expected, step.lastYaw, step.lastPitch, step.packet, step.facts, step.call);
      assert verdict == if expected then Consumed else Flagged;
      assert forall i :: 0 <= i < |steps[1..]| ==> steps[1..][i] == steps[i + 1];
      EveryUnexplainedRepeatIsFlagged(server, changed, false, steps[1..]);
    }
  }
}
