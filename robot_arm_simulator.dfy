/** The simulated arm's mission state machine (src/robot_arm_simulator.py).
    The arm's state is given twice: as the value ArmState, on which each
    operation is a function and the promised properties are lemmas, and as
    the class RobotArmSimulator, whose methods update the fields in place and
    promise that the new state is the function applied to the old one.
    Wall-clock timestamps are passed in as the parameter `now`. */
module RobotArm {
  import opened Common
  import opened ColorDetection

  // ---------------------------------------------------------------------
  // Fixed positions and the nine-step plan
  // ---------------------------------------------------------------------

  /** The arm's resting position; the arm never updates it, so every plan returns here. */
  const HomePosition: Point3 := Point3(300, 200, 100)

  /** Where objects of each colour are put down. */
  function DropLocation(c: Colour): (p: Point3)
    ensures 0 <= p.x < WorkspaceWidth && 0 <= p.y < WorkspaceHeight
  {
    match c
    case Red => Point3(100, 350, 50)
    case Green => Point3(300, 350, 50)
    case Blue => Point3(500, 350, 50)
  }

  /** Each colour has its own drop zone. */
  lemma DropLocationsDistinct(c1: Colour, c2: Colour)
    requires c1 != c2
    ensures DropLocation(c1) != DropLocation(c2)
  {
  }

  datatype GripperAction = Open | Close

  datatype Step =
    | Move(target: Point3, description: string)
    | Gripper(action: GripperAction, description: string)

  /** The pick-and-place plan for an object of a colour at a position. */
  function PickPlan(objectPos: Point3, colour: Colour): (plan: seq<Step>)
    ensures |plan| == 9
    ensures forall i | 0 <= i < |plan| :: plan[i].Gripper? <==> i == 2 || i == 6
  {
    var o, d := objectPos, DropLocation(colour);
    [ Move(Point3(o.x, o.y, o.z + 50), "Approach object"),
      Move(Point3(o.x, o.y, o.z), "Lower to object"),
      Gripper(Close, "Pick up object"),
      Move(Point3(o.x, o.y, o.z + 80), "Lift object"),
      Move(Point3(d.x, d.y, o.z + 80), "Move above drop zone"),
      Move(Point3(d.x, d.y, d.z), "Lower to drop height"),
      Gripper(Open, "Release object"),
      Move(Point3(d.x, d.y, d.z + 80), "Lift from drop zone"),
      Move(HomePosition, "Return to home") ]
  }

  /** Where the arm is and whether its gripper is closed. */
  datatype Arm = Arm(at: Point3, gripperClosed: bool)

  function Perform(step: Step, arm: Arm): Arm
  {
    match step
    case Move(target, _) => arm.(at := target)
    case Gripper(action, _) => arm.(gripperClosed := action == Close)
  }

  /** The arm after carrying out a sequence of steps in order. */
  function Run(steps: seq<Step>, arm: Arm): Arm
  {
    if steps == [] then arm else Perform(steps[|steps| - 1], Run(steps[..|steps| - 1], arm))
  }

  lemma RunOneMore(steps: seq<Step>, k: nat, arm: Arm)
    requires k < |steps|
    ensures Run(steps[..k + 1], arm) == Perform(steps[k], Run(steps[..k], arm))
  {
    assert steps[..k + 1][..k] == steps[..k];
  }

  /** Carried out from any arm state, the plan closes the gripper at the
      object, holds it closed while moving to the colour's drop zone, opens it
      there, and ends at the home position with the gripper open. */
  lemma PlanDeliversToDropZone(objectPos: Point3, colour: Colour, arm: Arm)
    ensures var plan := PickPlan(objectPos, colour);
      && Run(plan[..2], arm).at == objectPos
      && Run(plan[..3], arm) == Arm(objectPos, true)
      && Run(plan[..4], arm).gripperClosed && Run(plan[..5], arm).gripperClosed
      && Run(plan[..6], arm) == Arm(DropLocation(colour), true)
      && Run(plan[..7], arm) == Arm(DropLocation(colour), false)
      && Run(plan, arm) == Arm(HomePosition, false)
  {
    var plan := PickPlan(objectPos, colour);
    assert plan[..0] == [];
    RunOneMore(plan, 0, arm);
    RunOneMore(plan, 1, arm);
    RunOneMore(plan, 2, arm);
    RunOneMore(plan, 3, arm);
    RunOneMore(plan, 4, arm);
    RunOneMore(plan, 5, arm);
    RunOneMore(plan, 6, arm);
    RunOneMore(plan, 7, arm);
    RunOneMore(plan, 8, arm);
    assert plan[..9] == plan;
  }

  // ---------------------------------------------------------------------
  // Arm state
  // ---------------------------------------------------------------------

  datatype Mission = Mission(objectPos: Point3, objectColour: Colour, startTime: real)

  datatype PickRecord = PickRecord(colour: Colour, position: Point3, timestamp: real, dropLocation: Point3, success: bool)

  datatype Metrics = Metrics(totalPicks: int, successfulPicks: int, failedPicks: int, averagePickTime: int, batchCompletions: int)

  datatype ArmState = ArmState(
    isMoving: bool,
    currentMission: Option<Mission>,
    missionProgress: int,
    missionSteps: seq<Step>,
    batchMode: bool,
    batchQueue: seq<DetectedObject>,
    pickHistory: seq<PickRecord>,
    metrics: Metrics)

  /** Progress gained per tick, and the progress at which a mission completes. */
  const ProgressPerTick: int := 2
  const ProgressComplete: int := 100

  /** The arm at start-up: idle, with no history, and in the invariant below. */
  function InitialState(): (r: ArmState)
    ensures Inv(r) && !r.isMoving && r.pickHistory == [] && r.metrics.totalPicks == 0
  {
    ArmState(false, None, 0, [], false, [], [], Metrics(0, 0, 0, 0, 0))
  }

  /** The invariant the arm keeps between calls: it is moving exactly when it
      has a mission; progress is even and below 100, and 0 when idle; a queue
      or batch mode only exist while moving, and a queue only in batch mode;
      the plan is that of the current mission; each pick is one successful
      history entry with its colour's drop zone, and no more batches have
      completed than picks. */
  ghost predicate Inv(s: ArmState)
  {
    && (s.isMoving <==> s.currentMission.Some?)
    && 0 <= s.missionProgress < ProgressComplete && s.missionProgress % 2 == 0
    && (!s.isMoving ==> s.missionProgress == 0 && s.batchQueue == [] && !s.batchMode)
    && (s.batchQueue != [] ==> s.batchMode)
    && (s.currentMission.Some? ==>
          s.missionSteps == PickPlan(s.currentMission.value.objectPos, s.currentMission.value.objectColour))
    && s.metrics.totalPicks == s.metrics.successfulPicks == |s.pickHistory|
    && s.metrics.failedPicks == 0 && s.metrics.averagePickTime == 0
    && 0 <= s.metrics.batchCompletions <= s.metrics.totalPicks
    && forall k | 0 <= k < |s.pickHistory| ::
         s.pickHistory[k].success && s.pickHistory[k].dropLocation == DropLocation(s.pickHistory[k].colour)
  }

  /** The mission for picking a detected object. */
  function MissionFor(o: DetectedObject, now: real): Mission
  {
    Mission(o.robotPos, o.colour, now)
  }

  /** The history entry of a completed mission. */
  function RecordOf(m: Mission, now: real): PickRecord
  {
    PickRecord(m.objectColour, m.objectPos, now, DropLocation(m.objectColour), true)
  }

  /** The history entries of picking each object in turn. */
  function Records(objs: seq<DetectedObject>, now: real): (r: seq<PickRecord>)
    ensures |r| == |objs|
    ensures forall k | 0 <= k < |objs| :: r[k] == RecordOf(MissionFor(objs[k], now), now)
  {
    if objs == [] then [] else [RecordOf(MissionFor(objs[0], now), now)] + Records(objs[1..], now)
  }

  // ---------------------------------------------------------------------
  // Operations on the state
  // ---------------------------------------------------------------------

  /** Taking the head of the queue as the current mission. */
  function StartNext(s: ArmState, now: real): (r: ArmState)
    requires s.batchQueue != []
    ensures [s.batchQueue[0]] + r.batchQueue == s.batchQueue
    ensures r.currentMission == Some(MissionFor(s.batchQueue[0], now))
    ensures r.isMoving == s.isMoving && r.pickHistory == s.pickHistory && r.metrics == s.metrics
  {
    var next := s.batchQueue[0];
    s.(batchQueue := s.batchQueue[1..],
       currentMission := Some(MissionFor(next, now)),
       missionSteps := PickPlan(next.robotPos, next.colour))
  }

  /** Completing the current mission. */
  function Complete(s: ArmState, now: real): (r: ArmState)
    requires s.currentMission.Some?
    ensures r.pickHistory == s.pickHistory + [RecordOf(s.currentMission.value, now)]
    ensures r.metrics.totalPicks == s.metrics.totalPicks + 1
    ensures r.metrics.successfulPicks == s.metrics.successfulPicks + 1
    ensures r.missionProgress == 0
    ensures s.batchQueue != [] ==> r.currentMission == Some(MissionFor(s.batchQueue[0], now))
    ensures s.batchQueue == [] ==> !r.isMoving && r.currentMission.None? && !r.batchMode
  {
    var m := s.currentMission.value;
    var t := s.(missionProgress := 0,
                metrics := s.metrics.(successfulPicks := s.metrics.successfulPicks + 1,
                                      totalPicks := s.metrics.totalPicks + 1),
                pickHistory := s.pickHistory + [RecordOf(m, now)]);
    if t.batchQueue != [] then StartNext(t, now)
    else
      t.(metrics := if t.batchMode then t.metrics.(batchCompletions := t.metrics.batchCompletions + 1) else t.metrics,
         currentMission := None,
         isMoving := false,
         batchMode := false)
  }

  /** One progress update. */
  function Tick(s: ArmState, now: real): (r: ArmState)
    ensures !s.isMoving ==> r == s
    ensures r.pickHistory == s.pickHistory
         || (s.currentMission.Some? && r.pickHistory == s.pickHistory + [RecordOf(s.currentMission.value, now)])
    ensures r.pickHistory == s.pickHistory ==> r.missionProgress == s.missionProgress + ProgressPerTick || r == s
  {
    if s.isMoving && s.currentMission.Some? then
      var t := s.(missionProgress := s.missionProgress + ProgressPerTick);
      if t.missionProgress >= ProgressComplete then Complete(t, now) else t
    else s
  }

  /** k progress updates at the same time stamp. */
  function Ticks(s: ArmState, k: nat, now: real): ArmState
    decreases k
  {
    if k == 0 then s else Ticks(Tick(s, now), k - 1, now)
  }

  /** Starting a single mission; ignored while the arm is moving. */
  function Start(s: ArmState, objectPos: Point3, colour: Colour, now: real): (r: ArmState)
    ensures s.isMoving ==> r == s
    ensures !s.isMoving ==>
      && r.isMoving && r.missionProgress == 0
      && r.currentMission == Some(Mission(objectPos, colour, now))
      && r.missionSteps == PickPlan(objectPos, colour)
      && r.batchMode == s.batchMode && r.batchQueue == s.batchQueue
      && r.pickHistory == s.pickHistory && r.metrics == s.metrics
  {
    if !s.isMoving then
      s.(currentMission := Some(Mission(objectPos, colour, now)),
         missionSteps := PickPlan(objectPos, colour),
         isMoving := true,
         missionProgress := 0)
    else s
  }

  /** Starting a batch: the head starts now, the rest waits in the queue;
      ignored while moving or for an empty list. */
  function StartBatch(s: ArmState, objs: seq<DetectedObject>, now: real): (r: ArmState)
    ensures s.isMoving || objs == [] ==> r == s
    ensures !s.isMoving && objs != [] ==>
      && r.isMoving && r.batchMode
      && r.currentMission == Some(MissionFor(objs[0], now))
      && [objs[0]] + r.batchQueue == objs
      && r.pickHistory == s.pickHistory
  {
    if !s.isMoving && objs != [] then
      Start(s.(batchMode := true, batchQueue := objs[1..]), objs[0].robotPos, objs[0].colour, now)
    else s
  }

  /** The objects of one colour, in their original order. */
  function OfColour(objs: seq<DetectedObject>, c: Colour): (r: seq<DetectedObject>)
    ensures |r| <= |objs|
    ensures forall k | 0 <= k < |r| :: r[k].colour == c
  {
    if objs == [] then []
    else (if objs[0].colour == c then [objs[0]] else []) + OfColour(objs[1..], c)
  }

  /** Selecting one colour keeps every object of that colour as often as it occurs, and no other. */
  lemma {:induction false} OfColourCount(objs: seq<DetectedObject>, c: Colour, o: DetectedObject)
    ensures multiset(OfColour(objs, c))[o] == if o.colour == c then multiset(objs)[o] else 0
  {
    if objs != [] {
      assert objs == [objs[0]] + objs[1..];
      OfColourCount(objs[1..], c, o);
    }
  }

  /** A batch of the objects of one colour; ignored when there are none. */
  function StartColourBatch(s: ArmState, objs: seq<DetectedObject>, c: Colour, now: real): (r: ArmState)
    ensures s.isMoving || OfColour(objs, c) == [] ==> r == s
    ensures !s.isMoving && OfColour(objs, c) != [] ==>
      && r.isMoving && r.batchMode
      && r.currentMission.Some? && r.currentMission.value.objectColour == c
      && |r.batchQueue| == |OfColour(objs, c)| - 1
      && (forall k | 0 <= k < |r.batchQueue| :: r.batchQueue[k].colour == c)
      && r.currentMission == Some(MissionFor(OfColour(objs, c)[0], now))
      && [OfColour(objs, c)[0]] + r.batchQueue == OfColour(objs, c)
  {
    var chosen := OfColour(objs, c);
    if chosen != [] then
      var r := StartBatch(s, chosen, now);
      assert !s.isMoving ==> forall k | 0 <= k < |r.batchQueue| :: r.batchQueue[k] == chosen[k + 1];
      r
    else s
  }

  /** The batch order of colours: Red, then Green, then Blue. */
  function Priority(c: Colour): nat
  {
    match c
    case Red => 0
    case Green => 1
    case Blue => 2
  }

  function InsertByPriority(o: DetectedObject, sorted: seq<DetectedObject>): seq<DetectedObject>
  {
    if sorted == [] || Priority(o.colour) <= Priority(sorted[0].colour) then [o] + sorted
    else [sorted[0]] + InsertByPriority(o, sorted[1..])
  }

  /** Stable sort by colour priority (insertion sort). */
  function SortByPriority(objs: seq<DetectedObject>): seq<DetectedObject>
  {
    if objs == [] then [] else InsertByPriority(objs[0], SortByPriority(objs[1..]))
  }

  /** A batch of all objects in colour-priority order; ignored when there are none. */
  function StartAllBatch(s: ArmState, objs: seq<DetectedObject>, now: real): (r: ArmState)
    ensures s.isMoving || objs == [] ==> r == s
    ensures !s.isMoving && objs != [] ==>
      && r.isMoving && r.batchMode && r.currentMission.Some?
      && |r.batchQueue| == |objs| - 1
      && (forall k | 0 <= k < |r.batchQueue| ::
            Priority(r.currentMission.value.objectColour) <= Priority(r.batchQueue[k].colour))
      && r.currentMission == Some(MissionFor(SortByPriority(objs)[0], now))
      && [SortByPriority(objs)[0]] + r.batchQueue == SortByPriority(objs)
  {
    if objs != [] then
      var sorted := SortByPriority(objs);
      SortedHeadFirst(objs);
      var r := StartBatch(s, sorted, now);
      assert !s.isMoving ==> forall k | 0 <= k < |r.batchQueue| :: r.batchQueue[k] == sorted[k + 1];
      r
    else s
  }

  /** int() of a non-negative or negative real: truncation toward zero. */
  function Truncate(x: real): (r: int)
    ensures x >= 0.0 ==> 0 <= r && r as real <= x < r as real + 1.0
    ensures x < 0.0 ==> r <= 0 && r as real - 1.0 < x <= r as real
  {
    if x >= 0.0 then x.Floor else -((-x).Floor)
  }

  /** The index of the displayed step: progress divided by the progress per
      step (100 / n), truncated, and capped at the last step. */
  function StepIndex(progress: int, n: int): (r: int)
    requires n > 0
    ensures progress >= 0 ==> r == if progress * n / 100 < n - 1 then progress * n / 100 else n - 1
    ensures progress >= 0 ==> 0 <= r < n
  {
    var x := progress as real / (100.0 / n as real);
    assert x == (progress * n) as real / 100.0;
    var i := Truncate(x);
    if progress < 0 then (if i < n - 1 then i else n - 1)
    else
      FloorOfHundredth(progress * n);
      MulNonNegative(progress, n);
      if i < n - 1 then i else n - 1
  }

  /** The step shown for the current progress, when there is a mission with steps. */
  function CurrentStep(s: ArmState): (r: Option<Step>)
    requires s.missionProgress >= 0
    ensures r.Some? <==> s.currentMission.Some? && s.missionSteps != []
    ensures r.Some? ==> r.value in s.missionSteps
  {
    if s.currentMission.None? || s.missionSteps == [] then None
    else
      Some(s.missionSteps[StepIndex(s.missionProgress, |s.missionSteps|)])
  }

  const ReadyStatus: string := "READY - Select object to pick"

  /** The one-line status: the mission's colour and step and the queue length, or ready. */
  function Status(s: ArmState): (r: string)
    requires Inv(s)
    ensures r == ReadyStatus <==> !s.isMoving
  {
    if s.isMoving && s.currentMission.Some? then
      var step := CurrentStep(s).value;
      var queueInfo := if s.batchQueue != [] then " (+" + NatToString(|s.batchQueue|) + " in queue)" else "";
      var r := "MISSION: " + ColourName(s.currentMission.value.objectColour) + " - " + step.description + queueInfo;
      assert r[0] == 'M' && ReadyStatus[0] == 'R';
      r
    else ReadyStatus
  }

  /** The integer part of the performance report. */
  datatype Counters = Counters(totalPicks: int, successfulPicks: int, failedPicks: int,
                               averagePickTime: int, batchCompletions: int, totalMissions: int)

  function PerformanceCounters(s: ArmState): (r: Counters)
    requires Inv(s)
    ensures r.totalPicks == r.successfulPicks == r.totalMissions
    ensures r.failedPicks == 0 && 0 <= r.batchCompletions <= r.totalPicks
  {
    Counters(s.metrics.totalPicks, s.metrics.successfulPicks, s.metrics.failedPicks,
             s.metrics.averagePickTime, s.metrics.batchCompletions, |s.pickHistory|)
  }

  // ---------------------------------------------------------------------
  // The displayed step
  // ---------------------------------------------------------------------

  lemma FloorOfHundredth(a: int)
    requires a >= 0
    ensures (a as real / 100.0).Floor == a / 100
  {
    var q, r := a / 100, a % 100;
    assert a as real / 100.0 == q as real + r as real / 100.0;
  }

  /** The displayed step never moves backwards as progress grows. */
  lemma StepIndexMonotone(p1: int, p2: int, n: int)
    requires n > 0 && 0 <= p1 <= p2
    ensures StepIndex(p1, n) <= StepIndex(p2, n)
  {
    var a1, a2 := p1 * n, p2 * n;
    assert 0 <= a1 <= a2 by {
      MulNonNegative(p1, n);
      MulNonNegative(p2 - p1, n);
      assert (p2 - p1) * n == a2 - a1;
    }
    DivMonotone(a1, a2, 100);
  }

  // ---------------------------------------------------------------------
  // The invariant is kept
  // ---------------------------------------------------------------------

  lemma CompletePreservesInv(s: ArmState, now: real)
    requires Inv(s.(missionProgress := 0)) && s.isMoving
    ensures Inv(Complete(s, now))
  {
    var t := Complete(s, now);
    assert |t.pickHistory| == |s.pickHistory| + 1;
    assert forall k | 0 <= k < |s.pickHistory| :: t.pickHistory[k] == s.pickHistory[k];
  }

  lemma TickPreservesInv(s: ArmState, now: real)
    requires Inv(s)
    ensures Inv(Tick(s, now))
  {
    if s.isMoving && s.missionProgress + ProgressPerTick >= ProgressComplete {
      var t := s.(missionProgress := s.missionProgress + ProgressPerTick);
      assert t.(missionProgress := 0) == s.(missionProgress := 0);
      CompletePreservesInv(t, now);
    }
  }

  lemma StartPreservesInv(s: ArmState, objectPos: Point3, colour: Colour, now: real)
    requires Inv(s)
    ensures Inv(Start(s, objectPos, colour, now))
  {
  }

  lemma StartBatchPreservesInv(s: ArmState, objs: seq<DetectedObject>, now: real)
    requires Inv(s)
    ensures Inv(StartBatch(s, objs, now))
  {
  }

  lemma StartColourBatchPreservesInv(s: ArmState, objs: seq<DetectedObject>, c: Colour, now: real)
    requires Inv(s)
    ensures Inv(StartColourBatch(s, objs, c, now))
  {
    StartBatchPreservesInv(s, OfColour(objs, c), now);
  }

  lemma StartAllBatchPreservesInv(s: ArmState, objs: seq<DetectedObject>, now: real)
    requires Inv(s)
    ensures Inv(StartAllBatch(s, objs, now))
  {
    StartBatchPreservesInv(s, SortByPriority(objs), now);
  }

  lemma {:induction false} TicksPreserveInv(s: ArmState, k: nat, now: real)
    requires Inv(s)
    ensures Inv(Ticks(s, k, now))
    decreases k
  {
    if k > 0 {
      TickPreservesInv(s, now);
      TicksPreserveInv(Tick(s, now), k - 1, now);
    }
  }

  /** Only one mission at a time: every way of starting is ignored while the arm moves. */
  lemma StartWhileMovingChangesNothing(s: ArmState, objectPos: Point3, colour: Colour, objs: seq<DetectedObject>, now: real)
    requires s.isMoving
    ensures Start(s, objectPos, colour, now) == s
    ensures StartBatch(s, objs, now) == s
    ensures StartColourBatch(s, objs, colour, now) == s
    ensures StartAllBatch(s, objs, now) == s
  {
  }

  // ---------------------------------------------------------------------
  // Progress and completion
  // ---------------------------------------------------------------------

  lemma {:induction false} TicksCompose(s: ArmState, a: nat, b: nat, now: real)
    ensures Ticks(s, a + b, now) == Ticks(Ticks(s, a, now), b, now)
    decreases a
  {
    if a > 0 {
      TicksCompose(Tick(s, now), a - 1, b, now);
    }
  }

  /** Before progress reaches 100 each tick only adds 2 to it. */
  lemma {:induction false} TicksBeforeCompletion(s: ArmState, k: nat, now: real)
    requires Inv(s) && s.isMoving
    requires s.missionProgress + ProgressPerTick * k < ProgressComplete
    ensures Ticks(s, k, now) == s.(missionProgress := s.missionProgress + ProgressPerTick * k)
    decreases k
  {
    if k > 0 {
      var t := Tick(s, now);
      assert t == s.(missionProgress := s.missionProgress + ProgressPerTick);
      TicksBeforeCompletion(t, k - 1, now);
    }
  }

  /** A mission started from progress 0 completes on exactly the fiftieth tick. */
  lemma MissionTakesFiftyTicks(s: ArmState, now: real)
    requires Inv(s) && s.isMoving && s.missionProgress == 0
    ensures forall k | 0 <= k < 50 :: Ticks(s, k, now) == s.(missionProgress := ProgressPerTick * k)
    ensures Ticks(s, 50, now) == Complete(s, now)
  {
    forall k | 0 <= k < 50
      ensures Ticks(s, k, now) == s.(missionProgress := ProgressPerTick * k)
    {
      TicksBeforeCompletion(s, k, now);
    }
    FiftiethTickCompletes(s, now);
  }

  lemma FiftiethTickCompletes(s: ArmState, now: real)
    requires Inv(s) && s.isMoving && s.missionProgress == 0
    ensures Ticks(s, 50, now) == Complete(s, now)
  {
    TicksBeforeCompletion(s, 49, now);
    var t := Ticks(s, 49, now);
    TicksCompose(s, 49, 1, now);
    assert Ticks(t, 1, now) == Tick(t, now);
    var u := t.(missionProgress := t.missionProgress + ProgressPerTick);
    assert Tick(t, now) == Complete(u, now);
    CompleteIgnoresProgress(u, s, now);
  }

  /** Completion does not depend on how far the progress had got. */
  lemma CompleteIgnoresProgress(a: ArmState, b: ArmState, now: real)
    requires a.currentMission.Some?
    requires a.isMoving == b.isMoving && a.currentMission == b.currentMission && a.missionSteps == b.missionSteps
    requires a.batchMode == b.batchMode && a.batchQueue == b.batchQueue
    requires a.pickHistory == b.pickHistory && a.metrics == b.metrics
    ensures Complete(a, now) == Complete(b, now)
  {
    assert a.(missionProgress := 0) == b.(missionProgress := 0);
  }

  /** From idle, a started mission runs 49 ticks without completing and the
      fiftieth completes it: exactly one history entry, with the object's
      colour, position and drop zone, is added and the arm is idle again. */
  lemma FiftyTicksCompleteOnce(s: ArmState, objectPos: Point3, colour: Colour, now: real)
    requires Inv(s) && !s.isMoving
    ensures var t := Start(s, objectPos, colour, now);
      && (forall k | 0 <= k < 50 :: Ticks(t, k, now).isMoving && Ticks(t, k, now).pickHistory == s.pickHistory)
      && Ticks(t, 50, now).pickHistory == s.pickHistory + [PickRecord(colour, objectPos, now, DropLocation(colour), true)]
      && !Ticks(t, 50, now).isMoving
      && Ticks(t, 50, now).metrics.totalPicks == s.metrics.totalPicks + 1
  {
    var t := Start(s, objectPos, colour, now);
    MissionTakesFiftyTicks(t, now);
  }

  /** A moving arm at progress 0 with queue q works through its current
      mission and then q in queue order: after 50 ticks per mission it is
      idle, the history has gained one entry per mission in that order, and
      a batch completion is counted exactly when it was in batch mode. */
  lemma {:induction false} QueueDrainsInOrder(s: ArmState, now: real)
    requires Inv(s) && s.isMoving && s.missionProgress == 0
    ensures var t := Ticks(s, 50 * (|s.batchQueue| + 1), now);
      && !t.isMoving && !t.batchMode && t.batchQueue == []
      && t.pickHistory == s.pickHistory + [RecordOf(s.currentMission.value, now)] + Records(s.batchQueue, now)
      && t.metrics.totalPicks == s.metrics.totalPicks + |s.batchQueue| + 1
      && t.metrics.batchCompletions == s.metrics.batchCompletions + (if s.batchMode then 1 else 0)
    decreases |s.batchQueue|
  {
    var n := |s.batchQueue|;
    MissionTakesFiftyTicks(s, now);
    var u := Complete(s, now);
    TicksCompose(s, 50, 50 * n, now);
    assert Ticks(s, 50 * (n + 1), now) == Ticks(u, 50 * n, now);
    if n == 0 {
      CompleteEndsBatch(s, now);
      assert Ticks(u, 0, now) == u;
      assert Records(s.batchQueue, now) == [];
    } else {
      CompleteStartsNext(s, now);
      QueueDrainsInOrder(u, now);
      var head := [RecordOf(s.currentMission.value, now)];
      var next := [RecordOf(u.currentMission.value, now)];
      assert Records(s.batchQueue, now) == next + Records(u.batchQueue, now);
      ConcatAssociative(s.pickHistory + head, next, Records(u.batchQueue, now));
    }
  }

  /** Completing the last mission of a batch, or a single mission, adds its
      history entry, counts the batch if there was one and leaves the arm idle. */
  lemma CompleteEndsBatch(s: ArmState, now: real)
    requires Inv(s) && s.isMoving && s.batchQueue == []
    ensures var u := Complete(s, now);
      && !u.isMoving && u.currentMission.None? && !u.batchMode && u.missionProgress == 0
      && u.pickHistory == s.pickHistory + [RecordOf(s.currentMission.value, now)]
      && u.metrics.totalPicks == s.metrics.totalPicks + 1
      && u.metrics.batchCompletions == s.metrics.batchCompletions + (if s.batchMode then 1 else 0)
  {
  }

  /** Completing a mission while others wait starts the head of the queue
      (first in, first out) at once, without a batch completion. */
  lemma CompleteStartsNext(s: ArmState, now: real)
    requires Inv(s) && s.isMoving && s.batchQueue != []
    ensures var u := Complete(s, now);
      && Inv(u) && u.isMoving && u.missionProgress == 0 && u.batchMode
      && u.batchQueue == s.batchQueue[1..]
      && u.currentMission == Some(MissionFor(s.batchQueue[0], now))
      && u.pickHistory == s.pickHistory + [RecordOf(s.currentMission.value, now)]
      && u.metrics.totalPicks == s.metrics.totalPicks + 1
      && u.metrics.batchCompletions == s.metrics.batchCompletions
  {
    CompletePreservesInv(s, now);
  }

  /** Started from idle on a non-empty list, a batch picks every object of
      the list in list order, counts one batch completion and leaves the arm
      idle and out of batch mode. */
  lemma BatchRunsToCompletion(s: ArmState, objs: seq<DetectedObject>, now: real)
    requires Inv(s) && !s.isMoving && objs != []
    ensures var t := Ticks(StartBatch(s, objs, now), 50 * |objs|, now);
      && !t.isMoving && !t.batchMode && t.batchQueue == []
      && t.pickHistory == s.pickHistory + Records(objs, now)
      && t.metrics.totalPicks == s.metrics.totalPicks + |objs|
      && t.metrics.batchCompletions == s.metrics.batchCompletions + 1
  {
    var u := StartBatch(s, objs, now);
    StartBatchPreservesInv(s, objs, now);
    assert u.isMoving && u.missionProgress == 0 && u.batchMode && u.batchQueue == objs[1..];
    assert u.currentMission == Some(MissionFor(objs[0], now));
    assert u.pickHistory == s.pickHistory && u.metrics == s.metrics;
    QueueDrainsInOrder(u, now);
    var first := [RecordOf(MissionFor(objs[0], now), now)];
    assert Records(objs, now) == first + Records(objs[1..], now);
    ConcatAssociative(s.pickHistory, first, Records(objs[1..], now));
  }

  // ---------------------------------------------------------------------
  // Batch order
  // ---------------------------------------------------------------------

  /** The objects grouped by colour: red ones, then green, then blue, each group in input order. */
  function Grouped(objs: seq<DetectedObject>): seq<DetectedObject>
  {
    OfColour(objs, Red) + OfColour(objs, Green) + OfColour(objs, Blue)
  }

  lemma {:induction false} InsertPastHigherPriority(o: DetectedObject, a: seq<DetectedObject>, b: seq<DetectedObject>)
    requires forall k | 0 <= k < |a| :: Priority(a[k].colour) < Priority(o.colour)
    ensures InsertByPriority(o, a + b) == a + InsertByPriority(o, b)
  {
    if a != [] {
      assert (a + b)[0] == a[0] && (a + b)[1..] == a[1..] + b;
      assert InsertByPriority(o, a + b) == [a[0]] + InsertByPriority(o, a[1..] + b);
      InsertPastHigherPriority(o, a[1..], b);
      ConcatAssociative([a[0]], a[1..], InsertByPriority(o, b));
      assert [a[0]] + a[1..] == a;
    } else {
      assert a + b == b;
    }
  }

  /** Sorting by priority is grouping by colour: the sort is stable. */
  lemma {:induction false} SortByPriorityIsGrouped(objs: seq<DetectedObject>)
    ensures SortByPriority(objs) == Grouped(objs)
  {
    if objs != [] {
      var o, rest := objs[0], objs[1..];
      SortByPriorityIsGrouped(rest);
      var r, g, b := OfColour(rest, Red), OfColour(rest, Green), OfColour(rest, Blue);
      assert SortByPriority(objs) == InsertByPriority(o, r + g + b);
      match o.colour
      case Red =>
        assert OfColour(objs, Red) == [o] + r;
        assert OfColour(objs, Green) == g && OfColour(objs, Blue) == b;
        InsertRed(o, r, g, b);
      case Green =>
        assert OfColour(objs, Green) == [o] + g;
        assert OfColour(objs, Red) == r && OfColour(objs, Blue) == b;
        InsertGreen(o, r, g, b);
      case Blue =>
        assert OfColour(objs, Blue) == [o] + b;
        assert OfColour(objs, Red) == r && OfColour(objs, Green) == g;
        InsertBlue(o, r, g, b);
    }
  }

  lemma InsertRed(o: DetectedObject, r: seq<DetectedObject>, g: seq<DetectedObject>, b: seq<DetectedObject>)
    requires o.colour == Red
    ensures InsertByPriority(o, r + g + b) == [o] + r + g + b
  {
    assert InsertByPriority(o, r + g + b) == [o] + (r + g + b);
    ConcatAssociative([o], r + g, b);
    ConcatAssociative([o], r, g);
  }

  lemma InsertGreen(o: DetectedObject, r: seq<DetectedObject>, g: seq<DetectedObject>, b: seq<DetectedObject>)
    requires o.colour == Green
    requires AllOfColour(r, Red) && AllOfColour(g, Green) && AllOfColour(b, Blue)
    ensures InsertByPriority(o, r + g + b) == r + ([o] + g) + b
  {
    ConcatAssociative(r, g, b);
    InsertPastHigherPriority(o, r, g + b);
    assert InsertByPriority(o, g + b) == [o] + (g + b);
    ConcatAssociative([o], g, b);
    ConcatAssociative(r, [o] + g, b);
  }

  lemma InsertBlue(o: DetectedObject, r: seq<DetectedObject>, g: seq<DetectedObject>, b: seq<DetectedObject>)
    requires o.colour == Blue
    requires AllOfColour(r, Red) && AllOfColour(g, Green) && AllOfColour(b, Blue)
    ensures InsertByPriority(o, r + g + b) == r + g + ([o] + b)
  {
    assert forall k | 0 <= k < |r + g| :: Priority((r + g)[k].colour) < Priority(o.colour);
    InsertPastHigherPriority(o, r + g, b);
    assert InsertByPriority(o, b) == [o] + b;
  }

  lemma {:induction false} OfColourConcat(a: seq<DetectedObject>, b: seq<DetectedObject>, c: Colour)
    ensures OfColour(a + b, c) == OfColour(a, c) + OfColour(b, c)
  {
    if a != [] {
      var head := if a[0].colour == c then [a[0]] else [];
      assert (a + b)[0] == a[0] && (a + b)[1..] == a[1..] + b;
      assert OfColour(a + b, c) == head + OfColour(a[1..] + b, c);
      OfColourConcat(a[1..], b, c);
      ConcatAssociative(head, OfColour(a[1..], c), OfColour(b, c));
    } else {
      assert a + b == b;
    }
  }

  lemma {:induction false} OfColourOfUniform(a: seq<DetectedObject>, c: Colour, d: Colour)
    requires forall k | 0 <= k < |a| :: a[k].colour == d
    ensures OfColour(a, c) == if c == d then a else []
  {
    if a != [] {
      OfColourOfUniform(a[1..], c, d);
    }
  }

  predicate AllOfColour(objs: seq<DetectedObject>, c: Colour)
  {
    forall k | 0 <= k < |objs| :: objs[k].colour == c
  }

  /** Red, then green, then blue groups are ordered by priority. */
  lemma GroupsOrdered(r: seq<DetectedObject>, g: seq<DetectedObject>, b: seq<DetectedObject>)
    requires AllOfColour(r, Red) && AllOfColour(g, Green) && AllOfColour(b, Blue)
    ensures var s := r + g + b;
      forall i, j | 0 <= i < j < |s| :: Priority(s[i].colour) <= Priority(s[j].colour)
  {
    var s := r + g + b;
    forall i, j | 0 <= i < j < |s|
      ensures Priority(s[i].colour) <= Priority(s[j].colour)
    {
      if i < |r| {
        assert s[i] == r[i];
      } else if i < |r| + |g| {
        assert s[i] == g[i - |r|];
        assert s[j] == (if j < |r| + |g| then g[j - |r|] else b[j - |r| - |g|]);
      } else {
        assert s[i] == b[i - |r| - |g|] && s[j] == b[j - |r| - |g|];
      }
    }
  }

  /** Selecting a colour from red, green and blue groups gives back that colour's group. */
  lemma OfColourOfGroups(r: seq<DetectedObject>, g: seq<DetectedObject>, b: seq<DetectedObject>, c: Colour)
    requires AllOfColour(r, Red) && AllOfColour(g, Green) && AllOfColour(b, Blue)
    ensures OfColour(r + g + b, c) == match c case Red => r case Green => g case Blue => b
  {
    OfColourConcat(r + g, b, c);
    OfColourConcat(r, g, c);
    OfColourOfUniform(r, c, Red);
    OfColourOfUniform(g, c, Green);
    OfColourOfUniform(b, c, Blue);
  }

  /** Grouping by colour loses and adds nothing. */
  lemma GroupedIsPermutation(objs: seq<DetectedObject>)
    ensures multiset(Grouped(objs)) == multiset(objs)
  {
    var r, g, b := OfColour(objs, Red), OfColour(objs, Green), OfColour(objs, Blue);
    assert multiset(Grouped(objs)) == multiset(r) + multiset(g) + multiset(b);
    forall o
      ensures multiset(Grouped(objs))[o] == multiset(objs)[o]
    {
      OfColourCount(objs, Red, o);
      OfColourCount(objs, Green, o);
      OfColourCount(objs, Blue, o);
    }
  }

  /** Ordering a batch by colour: the result is ordered Red, Green, Blue; it
      holds the same objects as the input, as often; and within each colour
      it keeps the input order. */
  lemma SortByPriorityCorrect(objs: seq<DetectedObject>)
    ensures var r := SortByPriority(objs);
      && (forall i, j | 0 <= i < j < |r| :: Priority(r[i].colour) <= Priority(r[j].colour))
      && multiset(r) == multiset(objs)
      && forall c: Colour :: OfColour(r, c) == OfColour(objs, c)
  {
    SortByPriorityIsGrouped(objs);
    var r, g, b := OfColour(objs, Red), OfColour(objs, Green), OfColour(objs, Blue);
    GroupsOrdered(r, g, b);
    GroupedIsPermutation(objs);
    forall c: Colour
      ensures OfColour(r + g + b, c) == OfColour(objs, c)
    {
      OfColourOfGroups(r, g, b, c);
    }
  }

  /** The head of a sorted batch comes no later in colour order than any
      object behind it, and no object is lost or added. */
  lemma SortedHeadFirst(objs: seq<DetectedObject>)
    ensures var r := SortByPriority(objs);
      && |r| == |objs|
      && forall k | 1 <= k < |r| :: Priority(r[0].colour) <= Priority(r[k].colour)
  {
    SortByPriorityCorrect(objs);
    var r := SortByPriority(objs);
    assert |r| == |multiset(r)| == |objs|;
  }

  /** The example batch: one red, one blue and one green object in that input
      order are queued as red, green, blue. */
  lemma BatchOrderExample(red: DetectedObject, blue: DetectedObject, green: DetectedObject)
    requires red.colour == Red && blue.colour == Blue && green.colour == Green
    ensures SortByPriority([red, blue, green]) == [red, green, blue]
  {
    var objs := [red, blue, green];
    assert objs[1..] == [blue, green] && objs[1..][1..] == [green] && objs[1..][1..][1..] == [];
    assert SortByPriority([green]) == [green];
    assert InsertByPriority(blue, [green]) == [green] + InsertByPriority(blue, [green][1..]);
    assert SortByPriority([blue, green]) == [green, blue];
  }

  /** Detection already lists objects in batch order, so a full batch over
      one frame's detections keeps their detection order. */
  lemma DetectionIsInBatchOrder(seg: Segmentation, shape: FrameShape, minArea: real)
    requires shape.width > 0 && shape.height > 0
    ensures SortByPriority(DetectObjects(seg, shape, minArea)) == DetectObjects(seg, shape, minArea)
  {
    DetectObjectsInTableOrder(seg, shape, minArea);
    var r, g, b := DetectColour(seg, Red, shape, minArea), DetectColour(seg, Green, shape, minArea), DetectColour(seg, Blue, shape, minArea);
    SortByPriorityIsGrouped(r + g + b);
    OfColourOfGroups(r, g, b, Red);
    OfColourOfGroups(r, g, b, Green);
    OfColourOfGroups(r, g, b, Blue);
  }

  // ---------------------------------------------------------------------
  // The simulator object
  // ---------------------------------------------------------------------

  class RobotArmSimulator {
    var isMoving: bool
    var currentMission: Option<Mission>
    var missionProgress: int
    var missionSteps: seq<Step>
    var batchMode: bool
    var batchQueue: seq<DetectedObject>
    var pickHistory: seq<PickRecord>
    var metrics: Metrics

    /** The fields as one value. */
    function State(): ArmState
      reads this
    {
      ArmState(isMoving, currentMission, missionProgress, missionSteps, batchMode, batchQueue, pickHistory, metrics)
    }

    ghost predicate Valid()
      reads this
    {
      Inv(State())
    }

    constructor ()
      ensures Valid() && State() == InitialState()
    {
      isMoving := false;
      currentMission := None;
      missionProgress := 0;
      missionSteps := [];
      batchMode := false;
      batchQueue := [];
      pickHistory := [];
      metrics := Metrics(0, 0, 0, 0, 0);
    }

    method UpdateMission(now: real)
      requires Valid()
      modifies this
      ensures Valid() && State() == Tick(old(State()), now)
    {
      TickPreservesInv(State(), now);
      if isMoving && currentMission.Some? {
        missionProgress := missionProgress + ProgressPerTick;
        if missionProgress >= ProgressComplete {
          CompleteMission(now);
        }
      }
    }

    method CompleteMission(now: real)
      requires currentMission.Some?
      modifies this
      ensures State() == Complete(old(State()), now)
    {
      var m := currentMission.value;
      missionProgress := 0;
      metrics := metrics.(successfulPicks := metrics.successfulPicks + 1);
      metrics := metrics.(totalPicks := metrics.totalPicks + 1);
      pickHistory := pickHistory + [PickRecord(m.objectColour, m.objectPos, now, DropLocation(m.objectColour), true)];
      if batchQueue != [] {
        StartNextMission(now);
      } else {
        if batchMode {
          metrics := metrics.(batchCompletions := metrics.batchCompletions + 1);
        }
        currentMission := None;
        isMoving := false;
        batchMode := false;
      }
    }

    method StartNextMission(now: real)
      requires batchQueue != []
      modifies this
      ensures State() == StartNext(old(State()), now)
    {
      var next := batchQueue[0];
      batchQueue := batchQueue[1..];
      currentMission := Some(Mission(next.robotPos, next.colour, now));
      missionSteps := PickPlan(next.robotPos, next.colour);
    }

    method StartMission(objectPos: Point3, colour: Colour, now: real)
      requires Valid()
      modifies this
      ensures Valid() && State() == Start(old(State()), objectPos, colour, now)
    {
      StartPreservesInv(State(), objectPos, colour, now);
      StartMissionUnchecked(objectPos, colour, now);
    }

    method StartBatchPick(objs: seq<DetectedObject>, now: real)
      requires Valid()
      modifies this
      ensures Valid() && State() == StartBatch(old(State()), objs, now)
    {
      StartBatchPreservesInv(State(), objs, now);
      if !isMoving && objs != [] {
        batchMode := true;
        batchQueue := objs[1..];
        var first := objs[0];
        StartMissionUnchecked(first.robotPos, first.colour, now);
      }
    }

    /** start_mission reached from batch start, where batch mode and queue are already set. */
    method StartMissionUnchecked(objectPos: Point3, colour: Colour, now: real)
      modifies this
      ensures State() == Start(old(State()), objectPos, colour, now)
    {
      if !isMoving {
        currentMission := Some(Mission(objectPos, colour, now));
        missionSteps := PickPlan(objectPos, colour);
        isMoving := true;
        missionProgress := 0;
      }
    }

    method StartColorBatchPick(objs: seq<DetectedObject>, colour: Colour, now: real)
      requires Valid()
      modifies this
      ensures Valid() && State() == StartColourBatch(old(State()), objs, colour, now)
    {
      var colourObjects := OfColour(objs, colour);
      if colourObjects != [] {
        StartBatchPick(colourObjects, now);
      }
    }

    method StartAllObjectsBatch(objs: seq<DetectedObject>, now: real)
      requires Valid()
      modifies this
      ensures Valid() && State() == StartAllBatch(old(State()), objs, now)
    {
      if objs != [] {
        var sorted := SortByPriority(objs);
        StartBatchPick(sorted, now);
      }
    }
  }
}
