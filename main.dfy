/** The per-frame glue of the sorting system (src/main.py): stabilising the
    frame's detections, advancing the arm, re-resolving the selection and
    dispatching the key pressed. The whole system state is the value
    SystemState; the class RobotArmSortingSystem holds the simulator, the
    selector and the stabiliser and its methods are proved against the
    functions on SystemState. */
module SortingSystem {
  import opened Common
  import opened ColorDetection
  import opened RobotArm
  import Tracker
  import StatusWrap

  // ---------------------------------------------------------------------
  // Keys and commands
  // ---------------------------------------------------------------------

  /** What a key asks for. SelectIndex(i) is the digit key i + 1. */
  datatype Command =
    | Quit
    | ClearSelection
    | Widen
    | Narrow
    | PickSelected
    | PickAll
    | PickColour(colour: Colour)
    | SelectIndex(index: nat)
    | NoCommand

  /** The command of a key code (after masking to one byte). Every key that
      means something is the key of what it means: with DecodeKeyOf, the
      fifteen keys and the commands are in one-to-one correspondence. */
  function Decode(key: int): (r: Command)
    ensures r != NoCommand ==> IsKeyCommand(r) && KeyOf(r) == key
  {
    if key == 'q' as int then Quit
    else if key == 'c' as int then ClearSelection
    else if key == '+' as int then Widen
    else if key == '-' as int then Narrow
    else if key == ' ' as int then PickSelected
    else if key == 'f' as int then PickAll
    else if key == 'r' as int then PickColour(Red)
    else if key == 'g' as int then PickColour(Green)
    else if key == 'b' as int then PickColour(Blue)
    else if '1' as int <= key <= '6' as int then SelectIndex(key - '1' as int)
    else NoCommand
  }

  /** The commands some key produces. */
  predicate IsKeyCommand(cmd: Command)
  {
    cmd != NoCommand && (cmd.SelectIndex? ==> cmd.index < 6)
  }

  /** The key of a command. */
  function KeyOf(cmd: Command): int
    requires IsKeyCommand(cmd)
  {
    match cmd
    case Quit => 'q' as int
    case ClearSelection => 'c' as int
    case Widen => '+' as int
    case Narrow => '-' as int
    case PickSelected => ' ' as int
    case PickAll => 'f' as int
    case PickColour(c) => (match c case Red => 'r' as int case Green => 'g' as int case Blue => 'b' as int)
    case SelectIndex(i) => '1' as int + i
  }

  /** Every key command is decoded from its key. */
  lemma DecodeKeyOf(cmd: Command)
    requires IsKeyCommand(cmd)
    ensures Decode(KeyOf(cmd)) == cmd
  {
  }

  /** waitKey(1) & 0xFF: the low byte of the key code; no key (-1) gives 255. */
  function MaskKey(raw: int): (k: int)
    ensures 0 <= k < 256
    ensures 0 <= raw < 256 ==> k == raw
  {
    raw % 256
  }

  lemma NoKeyMeansNothing()
    ensures Decode(MaskKey(-1)) == NoCommand
  {
  }

  // ---------------------------------------------------------------------
  // Tolerance radius
  // ---------------------------------------------------------------------

  const InitialTolerance: int := 40
  const MinTolerance: int := 10
  const MaxTolerance: int := 100
  const ToleranceStep: int := 5

  /** The '+' key: the radius grows by one step, capped at the maximum. */
  function Wider(t: int): (r: int)
    ensures r <= t + ToleranceStep && r <= MaxTolerance
    ensures r == t + ToleranceStep || r == MaxTolerance
  {
    if t + ToleranceStep < MaxTolerance then t + ToleranceStep else MaxTolerance
  }

  /** The '-' key: the radius shrinks by one step, floored at the minimum. */
  function Narrower(t: int): (r: int)
    ensures r >= t - ToleranceStep && r >= MinTolerance
    ensures r == t - ToleranceStep || r == MinTolerance
  {
    if t - ToleranceStep > MinTolerance then t - ToleranceStep else MinTolerance
  }

  /** Widening and narrowing keep a radius in [10, 100] there, and undo each
      other away from the bounds. */
  lemma ToleranceSteps(t: int)
    requires MinTolerance <= t <= MaxTolerance
    ensures MinTolerance <= Wider(t) <= MaxTolerance && MinTolerance <= Narrower(t) <= MaxTolerance
    ensures t <= MaxTolerance - ToleranceStep ==> Narrower(Wider(t)) == t
    ensures t >= MinTolerance + ToleranceStep ==> Wider(Narrower(t)) == t
    ensures Wider(t) == t <==> t == MaxTolerance
    ensures Narrower(t) == t <==> t == MinTolerance
  {
  }

  // ---------------------------------------------------------------------
  // The system state
  // ---------------------------------------------------------------------

  /** The stabiliser's histories, the selector's radius and selection, and the arm. */
  datatype SystemState = SystemState(
    buffers: map<string, seq<Pixel>>,
    tolerance: int,
    selected: Option<DetectedObject>,
    arm: ArmState)

  function InitialSystem(): SystemState
  {
    SystemState(map[], InitialTolerance, None, InitialState())
  }

  ghost predicate SystemInv(st: SystemState)
  {
    && Inv(st.arm)
    && MinTolerance <= st.tolerance <= MaxTolerance
    && Tracker.BuffersBounded(st.buffers, Tracker.DefaultBufferSize)
  }

  lemma InitialSystemValid()
    ensures SystemInv(InitialSystem())
  {
  }

  // ---------------------------------------------------------------------
  // process_frame
  // ---------------------------------------------------------------------

  /** The identities of the detections, in order. */
  function Ids(objs: seq<DetectedObject>): (r: seq<string>)
    ensures |r| == |objs| && forall k | 0 <= k < |objs| :: r[k] == objs[k].id
  {
    seq(|objs|, k requires 0 <= k < |objs| => objs[k].id)
  }

  lemma IdsSnoc(objs: seq<DetectedObject>, o: DetectedObject)
    ensures Ids(objs + [o]) == Ids(objs) + [o.id]
  {
  }

  /** b is the detection a, at a possibly different pixel position. */
  predicate Restamped(a: DetectedObject, b: DetectedObject)
  {
    b == a.(pixelPos := b.pixelPos)
  }

  /** The detections at the given pixel positions. */
  function WithPositions(objs: seq<DetectedObject>, ps: seq<Pixel>): (r: seq<DetectedObject>)
    requires |ps| == |objs|
    ensures |r| == |objs| && forall k | 0 <= k < |objs| :: Restamped(objs[k], r[k]) && r[k].pixelPos == ps[k]
  {
    seq(|objs|, k requires 0 <= k < |objs| => objs[k].(pixelPos := ps[k]))
  }

  lemma WithPositionsSnoc(objs: seq<DetectedObject>, ps: seq<Pixel>, o: DetectedObject, p: Pixel)
    requires |ps| == |objs|
    ensures WithPositions(objs + [o], ps + [p]) == WithPositions(objs, ps) + [o.(pixelPos := p)]
  {
  }

  /** One detection's turn at the stabiliser: its identity's history gains
      its position; the stabilised position it takes. */
  function StabilizeOne(buffers: map<string, seq<Pixel>>, o: DetectedObject): (r: (map<string, seq<Pixel>>, Pixel))
    requires Tracker.BuffersBounded(buffers, Tracker.DefaultBufferSize)
    ensures Tracker.BuffersBounded(r.0, Tracker.DefaultBufferSize)
    ensures o.id in r.0 && forall id | id in buffers :: id in r.0
  {
    Tracker.DefaultBufferSizeOdd();
    BufferOfBounded(buffers, o.id);
    var buf := Tracker.Pushed(Tracker.BufferOf(buffers, o.id), o.pixelPos, Tracker.DefaultBufferSize);
    Tracker.StoreBounded(buffers, o.id, buf, Tracker.DefaultBufferSize);
    (buffers[o.id := buf], Tracker.Smoothed(buf, o.pixelPos, Tracker.DefaultBufferSize))
  }

  lemma BufferOfBounded(buffers: map<string, seq<Pixel>>, id: string)
    requires Tracker.BuffersBounded(buffers, Tracker.DefaultBufferSize)
    ensures |Tracker.BufferOf(buffers, id)| <= Tracker.DefaultBufferSize
  {
  }


  /** The other identities' histories are left as they were. */
  lemma StabilizeOneKeepsOthers(buffers: map<string, seq<Pixel>>, o: DetectedObject, id: string)
    requires Tracker.BuffersBounded(buffers, Tracker.DefaultBufferSize)
    requires id in buffers && id != o.id
    ensures StabilizeOne(buffers, o).0[id] == buffers[id]
  {
  }

  /** A detection whose identity has no history starts one with its own
      position and keeps that position. */
  lemma FirstSightingIsRaw(buffers: map<string, seq<Pixel>>, o: DetectedObject)
    requires Tracker.BuffersBounded(buffers, Tracker.DefaultBufferSize)
    requires o.id !in buffers
    ensures StabilizeOne(buffers, o).0[o.id] == [o.pixelPos]
    ensures StabilizeOne(buffers, o).1 == o.pixelPos
  {
    Tracker.FirstObservationIsRaw(buffers, o.id, o.pixelPos, Tracker.DefaultBufferSize);
  }

  /** Each detection in turn, in detection order, goes through the
      stabiliser; the histories afterwards and the stabilised positions. */
  function Stabilize(buffers: map<string, seq<Pixel>>, objs: seq<DetectedObject>): (r: (map<string, seq<Pixel>>, seq<Pixel>))
    requires Tracker.BuffersBounded(buffers, Tracker.DefaultBufferSize)
    ensures Tracker.BuffersBounded(r.0, Tracker.DefaultBufferSize)
    ensures |r.1| == |objs|
    decreases |objs|
  {
    if objs == [] then (buffers, [])
    else
      var prev := Stabilize(buffers, objs[..|objs| - 1]);
      var one := StabilizeOne(prev.0, objs[|objs| - 1]);
      (one.0, prev.1 + [one.1])
  }

  /** Stabilising keeps every history it found. */
  lemma {:induction false} StabilizeKeepsHistories(buffers: map<string, seq<Pixel>>, objs: seq<DetectedObject>)
    requires Tracker.BuffersBounded(buffers, Tracker.DefaultBufferSize)
    ensures forall id | id in buffers :: id in Stabilize(buffers, objs).0
    decreases |objs|
  {
    if objs != [] {
      StabilizeKeepsHistories(buffers, objs[..|objs| - 1]);
    }
  }

  /** After stabilising, every detection's identity has a history. */
  lemma {:induction false} StabilizeCoversId(buffers: map<string, seq<Pixel>>, objs: seq<DetectedObject>, k: nat)
    requires Tracker.BuffersBounded(buffers, Tracker.DefaultBufferSize)
    requires k < |objs|
    ensures objs[k].id in Stabilize(buffers, objs).0
    decreases |objs|
  {
    var front := objs[..|objs| - 1];
    if k < |front| {
      StabilizeCoversId(buffers, front, k);
      assert objs[k] == front[k];
    }
  }

  /** Stabilising one more detection. */
  lemma StabilizeSnoc(buffers: map<string, seq<Pixel>>, objs: seq<DetectedObject>, o: DetectedObject)
    requires Tracker.BuffersBounded(buffers, Tracker.DefaultBufferSize)
    ensures var prev := Stabilize(buffers, objs);
      var one := StabilizeOne(prev.0, o);
      Stabilize(buffers, objs + [o]) == (one.0, prev.1 + [one.1])
  {
    assert (objs + [o])[..|objs|] == objs;
  }

  /** The histories of the given identities only. */
  function Retain(buffers: map<string, seq<Pixel>>, ids: seq<string>): (r: map<string, seq<Pixel>>)
    ensures forall id :: id in r <==> id in buffers && id in ids
    ensures forall id | id in r :: r[id] == buffers[id]
  {
    map k | k in buffers && k in ids :: buffers[k]
  }

  /** process_frame: detect, stabilise each detection in order, then drop the
      histories of identities not seen in this frame. */
  function Perceive(st: SystemState, seg: Segmentation, shape: FrameShape): (r: (SystemState, seq<DetectedObject>))
    requires shape.width > 0 && shape.height > 0
    requires Tracker.BuffersBounded(st.buffers, Tracker.DefaultBufferSize)
    ensures Tracker.BuffersBounded(r.0.buffers, Tracker.DefaultBufferSize)
    ensures r.0 == st.(buffers := r.0.buffers)
  {
    var detected := DetectObjects(seg, shape, DefaultMinArea);
    var s := Stabilize(st.buffers, detected);
    (st.(buffers := Retain(s.0, Ids(detected))), WithPositions(detected, s.1))
  }

  /** process_frame returns the detections in detection order with the same
      fields except the pixel position, and afterwards the stabiliser holds
      histories for exactly this frame's identities. */
  lemma PerceiveKeepsDetections(st: SystemState, seg: Segmentation, shape: FrameShape)
    requires shape.width > 0 && shape.height > 0
    requires Tracker.BuffersBounded(st.buffers, Tracker.DefaultBufferSize)
    ensures var detected := DetectObjects(seg, shape, DefaultMinArea);
      var r := Perceive(st, seg, shape);
      && |r.1| == |detected|
      && (forall k | 0 <= k < |detected| :: Restamped(detected[k], r.1[k]))
      && (forall id :: id in r.0.buffers <==> id in Ids(detected))
  {
    var detected := DetectObjects(seg, shape, DefaultMinArea);
    var s := Stabilize(st.buffers, detected);
    var ids := Ids(detected);
    forall id | id in ids
      ensures id in s.0
    {
      var k :| 0 <= k < |ids| && ids[k] == id;
      StabilizeCoversId(st.buffers, detected, k);
    }
  }

  // ---------------------------------------------------------------------
  // The mission update and the selection
  // ---------------------------------------------------------------------

  /** After processing: one mission update, then the selection is cleared
      while the arm moves and re-resolved against the frame otherwise. */
  function Advance(st: SystemState, objects: seq<DetectedObject>, now: real): (r: SystemState)
    ensures r.buffers == st.buffers && r.tolerance == st.tolerance
  {
    var arm := Tick(st.arm, now);
    if arm.isMoving then st.(arm := arm, selected := None)
    else
      var r := Tracker.Reselect(st.selected, objects, st.tolerance);
      st.(arm := arm, selected := if r.Some? then r else st.selected)
  }

  /** The mission advances before the selection is touched; a moving arm
      leaves nothing selected; an idle arm keeps or re-binds the selection to
      a detection of this frame; the invariant is kept. */
  lemma AdvanceSelection(st: SystemState, objects: seq<DetectedObject>, now: real)
    requires SystemInv(st)
    ensures var st' := Advance(st, objects, now);
      && SystemInv(st')
      && st'.arm == Tick(st.arm, now)
      && st'.buffers == st.buffers && st'.tolerance == st.tolerance
      && (st'.arm.isMoving ==> st'.selected == None)
      && (!st'.arm.isMoving ==> st'.selected == st.selected || st'.selected.value in objects)
      && (st.selected == None ==> st'.selected == None)
  {
    TickPreservesInv(st.arm, now);
  }

  // ---------------------------------------------------------------------
  // handle_keyboard_input
  // ---------------------------------------------------------------------

  /** The effect of one command and whether the loop goes on. */
  function Handle(st: SystemState, cmd: Command, objects: seq<DetectedObject>, now: real): (r: (SystemState, bool))
    ensures r.0.buffers == st.buffers
    ensures !r.1 <==> cmd == Quit
  {
    match cmd
    case Quit => (st, false)
    case ClearSelection => (st.(selected := None), true)
    case Widen => (st.(tolerance := Wider(st.tolerance)), true)
    case Narrow => (st.(tolerance := Narrower(st.tolerance)), true)
    case PickSelected =>
      if !st.arm.isMoving && st.selected.Some? then
        var obj := st.selected.value;
        (st.(arm := Start(st.arm, obj.robotPos, obj.colour, now), selected := None), true)
      else (st, true)
    case PickAll =>
      if !st.arm.isMoving then (st.(arm := StartAllBatch(st.arm, objects, now), selected := None), true)
      else (st, true)
    case PickColour(c) =>
      if !st.arm.isMoving then (st.(arm := StartColourBatch(st.arm, objects, c, now), selected := None), true)
      else (st, true)
    case SelectIndex(i) =>
      if !st.arm.isMoving && i < |objects| then (st.(selected := Some(objects[i])), true)
      else (st, true)
    case NoCommand => (st, true)
  }

  /** Only 'q' stops the loop. */
  lemma OnlyQuitStops(st: SystemState, key: int, objects: seq<DetectedObject>, now: real)
    ensures !Handle(st, Decode(key), objects, now).1 <==> key == 'q' as int
  {
  }

  /** While the arm moves, only the radius and clearing the selection act:
      the arm and the histories are untouched. */
  lemma HandleWhileMoving(st: SystemState, cmd: Command, objects: seq<DetectedObject>, now: real)
    requires st.arm.isMoving
    ensures var st' := Handle(st, cmd, objects, now).0;
      && st'.arm == st.arm && st'.buffers == st.buffers
      && (cmd != ClearSelection ==> st'.selected == st.selected)
      && (cmd !in {Widen, Narrow} ==> st'.tolerance == st.tolerance)
  {
  }

  /** Space while idle: with a selection, the selected object's mission
      starts and the selection is cleared; without one, nothing changes. */
  lemma HandlePickSelected(st: SystemState, objects: seq<DetectedObject>, now: real)
    requires Inv(st.arm) && !st.arm.isMoving
    ensures var st' := Handle(st, PickSelected, objects, now).0;
      && (st.selected.Some? ==>
            && st'.arm.isMoving && st'.selected == None
            && st'.arm.currentMission == Some(Mission(st.selected.value.robotPos, st.selected.value.colour, now))
            && st'.arm.missionSteps == PickPlan(st.selected.value.robotPos, st.selected.value.colour))
      && (st.selected.None? ==> st' == st)
  {
  }

  /** 'f', 'r', 'g' and 'b' while idle clear the selection whether or not a
      batch starts; 'f' queues every object, colour-priority first. */
  lemma HandleBatchCommands(st: SystemState, cmd: Command, objects: seq<DetectedObject>, now: real)
    requires !st.arm.isMoving && (cmd == PickAll || cmd.PickColour?)
    ensures var st' := Handle(st, cmd, objects, now).0;
      && st'.selected == None
      && (cmd == PickAll ==> st'.arm == StartAllBatch(st.arm, objects, now))
      && (cmd.PickColour? ==> st'.arm == StartColourBatch(st.arm, objects, cmd.colour, now))
  {
  }

  /** Digit k selects the k-th object of the frame when there is one and
      changes nothing otherwise. */
  lemma HandleSelectDigit(st: SystemState, k: int, objects: seq<DetectedObject>, now: real)
    requires 1 <= k <= 6 && !st.arm.isMoving
    ensures var st' := Handle(st, Decode('0' as int + k), objects, now).0;
      && (k - 1 < |objects| ==> st' == st.(selected := Some(objects[k - 1])))
      && (k - 1 >= |objects| ==> st' == st)
  {
  }

  /** Every command keeps the radius in [10, 100] and the arm's invariant. */
  lemma HandlePreservesInv(st: SystemState, cmd: Command, objects: seq<DetectedObject>, now: real)
    requires SystemInv(st)
    ensures SystemInv(Handle(st, cmd, objects, now).0)
  {
    ToleranceSteps(st.tolerance);
    match cmd
    case PickSelected =>
      if st.selected.Some? {
        StartPreservesInv(st.arm, st.selected.value.robotPos, st.selected.value.colour, now);
      }
    case PickAll => StartAllBatchPreservesInv(st.arm, objects, now);
    case PickColour(c) => StartColourBatchPreservesInv(st.arm, objects, c, now);
    case _ =>
  }

  // ---------------------------------------------------------------------
  // The main loop
  // ---------------------------------------------------------------------

  /** What one turn of the loop consumes: the frame's masks as contours, the
      frame's size, the raw key code and the time stamp. */
  datatype FrameInput = FrameInput(seg: Segmentation, shape: FrameShape, rawKey: int, now: real)

  predicate GoodFrame(input: FrameInput)
  {
    input.shape.width > 0 && input.shape.height > 0
  }

  /** Whether the frame's key is 'q'. */
  predicate QuitPressed(input: FrameInput)
  {
    Decode(MaskKey(input.rawKey)) == Quit
  }

  /** One turn: process the frame, advance the mission and the selection,
      then act on the key; the loop goes on unless the key was 'q'. */
  function Turn(st: SystemState, input: FrameInput): (r: (SystemState, bool))
    requires GoodFrame(input) && Tracker.BuffersBounded(st.buffers, Tracker.DefaultBufferSize)
    ensures Tracker.BuffersBounded(r.0.buffers, Tracker.DefaultBufferSize)
    ensures r.1 <==> !QuitPressed(input)
  {
    var p := Perceive(st, input.seg, input.shape);
    Handle(Advance(p.0, p.1, input.now), Decode(MaskKey(input.rawKey)), p.1, input.now)
  }

  lemma TurnPreservesInv(st: SystemState, input: FrameInput)
    requires GoodFrame(input) && SystemInv(st)
    ensures SystemInv(Turn(st, input).0)
  {
    var p := Perceive(st, input.seg, input.shape);
    AdvanceSelection(p.0, p.1, input.now);
    HandlePreservesInv(Advance(p.0, p.1, input.now), Decode(MaskKey(input.rawKey)), p.1, input.now);
  }

  /** The loop over the frames until 'q' or the end of the stream: the final
      state and the number of frames processed, which are exactly the frames
      up to and including the first 'q'. */
  function Loop(st: SystemState, inputs: seq<FrameInput>): (r: (SystemState, nat))
    requires forall k | 0 <= k < |inputs| :: GoodFrame(inputs[k])
    requires Tracker.BuffersBounded(st.buffers, Tracker.DefaultBufferSize)
    ensures r.1 == FramesUntilQuit(inputs)
    decreases |inputs|
  {
    if inputs == [] then (st, 0)
    else
      var t := Turn(st, inputs[0]);
      if !t.1 then (t.0, 1)
      else
        var rest := Loop(t.0, inputs[1..]);
        (rest.0, rest.1 + 1)
  }

  lemma LoopAfterTurn(st: SystemState, inputs: seq<FrameInput>)
    requires inputs != [] && forall k | 0 <= k < |inputs| :: GoodFrame(inputs[k])
    requires Tracker.BuffersBounded(st.buffers, Tracker.DefaultBufferSize)
    ensures var t := Turn(st, inputs[0]);
      && (t.1 ==> Loop(st, inputs).0 == Loop(t.0, inputs[1..]).0 && Loop(st, inputs).1 == Loop(t.0, inputs[1..]).1 + 1)
      && (!t.1 ==> Loop(st, inputs).0 == t.0 && Loop(st, inputs).1 == 1)
  {
  }

  /** The loop from `st` over `inputs` ends in `final`. */
  ghost predicate Reaches(final: SystemState, st: SystemState, inputs: seq<FrameInput>)
  {
    && (forall k | 0 <= k < |inputs| :: GoodFrame(inputs[k]))
    && Tracker.BuffersBounded(st.buffers, Tracker.DefaultBufferSize)
    && Loop(st, inputs).0 == final
  }

  /** One turn of the loop, seen from the whole run: after the turn either
      the loop goes on from the new state to the same end, or it has ended. */
  lemma LoopStep(final: SystemState, st: SystemState, inputs: seq<FrameInput>)
    requires inputs != [] && Reaches(final, st, inputs)
    ensures var t := Turn(st, inputs[0]);
      && (t.1 ==> Reaches(final, t.0, inputs[1..]))
      && (!t.1 ==> final == t.0)
  {
    LoopAfterTurn(st, inputs);
  }

  /** The number of frames up to and including the first 'q', or all of them. */
  function FramesUntilQuit(inputs: seq<FrameInput>): (n: nat)
    ensures n <= |inputs|
  {
    if inputs == [] then 0
    else if QuitPressed(inputs[0]) then 1
    else FramesUntilQuit(inputs[1..]) + 1
  }

  /** FramesUntilQuit counts the frames before the first 'q' and that frame:
      no earlier frame has 'q', and unless every frame is counted the last
      one counted has 'q'. */
  lemma {:induction false} FramesUntilQuitIsFirst(inputs: seq<FrameInput>)
    ensures var n := FramesUntilQuit(inputs);
      && (forall k | 0 <= k < n - 1 :: !QuitPressed(inputs[k]))
      && (n < |inputs| ==> 0 < n && QuitPressed(inputs[n - 1]))
    decreases |inputs|
  {
    if inputs != [] && !QuitPressed(inputs[0]) {
      var rest := inputs[1..];
      FramesUntilQuitIsFirst(rest);
      assert forall k | 1 <= k < |inputs| :: inputs[k] == rest[k - 1];
    }
  }

  /** The loop keeps the invariant. */
  lemma {:induction false} LoopPreservesInv(st: SystemState, inputs: seq<FrameInput>)
    requires forall k | 0 <= k < |inputs| :: GoodFrame(inputs[k])
    requires SystemInv(st)
    ensures SystemInv(Loop(st, inputs).0)
    decreases |inputs|
  {
    if inputs != [] {
      TurnPreservesInv(st, inputs[0]);
      var t := Turn(st, inputs[0]);
      if t.1 {
        LoopPreservesInv(t.0, inputs[1..]);
      }
    }
  }

  /** The status whose wrapping reorders its words is one the arm shows: a
      blue mission 56% through its plan, at "Lower to drop height", with one
      object left in the batch queue. */
  lemma ExampleStatusIsShown(p: Point3, o: DetectedObject)
    ensures var s := ArmState(true, Some(Mission(p, Blue, 0.0)), 56, PickPlan(p, Blue), true, [o], [],
                              Metrics(0, 0, 0, 0, 0));
      Inv(s) && Status(s) == StatusWrap.ExampleStatus()
  {
    var s := ArmState(true, Some(Mission(p, Blue, 0.0)), 56, PickPlan(p, Blue), true, [o], [],
                      Metrics(0, 0, 0, 0, 0));
    assert StepIndex(56, 9) == 5;
    assert CurrentStep(s).value.description == "Lower to drop height";
    assert NatToString(1) == "1";
    StatusWrap.ExampleStatusText();
    ExampleStatusPieces();
  }

  lemma ExampleStatusPieces()
    ensures "MISSION: " + "Blue" + " - " + "Lower to drop height" + (" (+" + "1" + " in queue)")
         == "MISSION: Blue - Lower to drop height (+1 in queue)"
  {
    assert " (+" + "1" + " in queue)" == " (+1 in queue)";
    assert "MISSION: " + "Blue" == "MISSION: Blue";
    assert "MISSION: Blue" + " - " == "MISSION: Blue - ";
    assert "MISSION: Blue - " + "Lower to drop height" == "MISSION: Blue - Lower to drop height";
  }

  // ---------------------------------------------------------------------
  // The system object
  // ---------------------------------------------------------------------

  class RobotArmSortingSystem {
    const robotSim: RobotArmSimulator
    const objectSelector: Tracker.ObjectSelector
    const positionStabilizer: Tracker.PositionStabilizer

    /** The three components' fields as one value. */
    function State(): SystemState
      reads robotSim, objectSelector, positionStabilizer
    {
      SystemState(positionStabilizer.positionBuffers, objectSelector.toleranceRadius,
                  objectSelector.selectedObject, robotSim.State())
    }

    ghost predicate Valid()
      reads robotSim, objectSelector, positionStabilizer
    {
      && robotSim.Valid() && objectSelector.Valid() && positionStabilizer.Valid()
      && positionStabilizer.bufferSize == Tracker.DefaultBufferSize
      && SystemInv(State())
    }

    constructor ()
      ensures Valid() && State() == InitialSystem()
      ensures fresh(robotSim) && fresh(objectSelector) && fresh(positionStabilizer)
    {
      robotSim := new RobotArmSimulator();
      objectSelector := new Tracker.ObjectSelector(InitialTolerance);
      positionStabilizer := new Tracker.PositionStabilizer(Tracker.DefaultBufferSize);
      InitialSystemValid();
    }

    /** process_frame. */
    method ProcessFrame(seg: Segmentation, shape: FrameShape) returns (objects: seq<DetectedObject>)
      requires Valid() && shape.width > 0 && shape.height > 0
      modifies positionStabilizer
      ensures Valid()
      ensures State() == Perceive(old(State()), seg, shape).0 && objects == Perceive(old(State()), seg, shape).1
    {
      var detected := DetectObjects(seg, shape, DefaultMinArea);
      ghost var start := positionStabilizer.positionBuffers;
      objects := [];
      ghost var positions: seq<Pixel> := [];
      var currentIds: seq<string> := [];
      for i := 0 to |detected|
        invariant positionStabilizer.Valid() && positionStabilizer.bufferSize == Tracker.DefaultBufferSize
        invariant (positionStabilizer.positionBuffers, positions) == Stabilize(start, detected[..i])
        invariant objects == WithPositions(detected[..i], positions)
        invariant currentIds == Ids(detected[..i])
      {
        var obj := detected[i];
        TakeSnoc(detected, i);
        StabilizeSnoc(start, detected[..i], obj);
        IdsSnoc(detected[..i], obj);
        var stablePos := positionStabilizer.Update(obj.id, obj.pixelPos);
        WithPositionsSnoc(detected[..i], positions, obj, stablePos);
        objects := objects + [obj.(pixelPos := stablePos)];
        positions := positions + [stablePos];
        currentIds := currentIds + [obj.id];
      }
      assert detected[..|detected|] == detected;
      positionStabilizer.Cleanup(currentIds);
    }

    /** The mission update and the selection update of one loop turn. */
    method AdvanceMission(objects: seq<DetectedObject>, now: real)
      requires Valid()
      modifies robotSim, objectSelector
      ensures Valid()
      ensures State() == Advance(old(State()), objects, now)
    {
      AdvanceSelection(State(), objects, now);
      robotSim.UpdateMission(now);
      if robotSim.isMoving {
        objectSelector.ClearSelection();
      } else {
        var _ := objectSelector.UpdateSelection(objects);
      }
    }

    /** handle_keyboard_input. */
    method HandleKeyboardInput(key: int, objects: seq<DetectedObject>, now: real) returns (keepRunning: bool)
      requires Valid()
      modifies robotSim, objectSelector
      ensures Valid()
      ensures State() == Handle(old(State()), Decode(key), objects, now).0 && keepRunning == Handle(old(State()), Decode(key), objects, now).1
    {
      HandlePreservesInv(State(), Decode(key), objects, now);
      keepRunning := true;
      match Decode(key)
      case Quit =>
        keepRunning := false;
      case ClearSelection =>
        objectSelector.ClearSelection();
      case Widen =>
        objectSelector.toleranceRadius := Wider(objectSelector.toleranceRadius);
      case Narrow =>
        objectSelector.toleranceRadius := Narrower(objectSelector.toleranceRadius);
      case PickSelected =>
        if !robotSim.isMoving && objectSelector.IsObjectSelected() {
          var obj := objectSelector.selectedObject.value;
          robotSim.StartMission(obj.robotPos, obj.colour, now);
          objectSelector.ClearSelection();
        }
      case PickAll =>
        if !robotSim.isMoving {
          robotSim.StartAllObjectsBatch(objects, now);
          objectSelector.ClearSelection();
        }
      case PickColour(c) =>
        if !robotSim.isMoving {
          robotSim.StartColorBatchPick(objects, c, now);
          objectSelector.ClearSelection();
        }
      case SelectIndex(i) =>
        if !robotSim.isMoving && i < |objects| {
          var _ := objectSelector.SelectObject(objects[i]);
        }
      case NoCommand =>
    }

    /** One turn of the main loop. */
    method RunFrame(input: FrameInput) returns (keepRunning: bool)
      requires Valid() && GoodFrame(input)
      modifies robotSim, objectSelector, positionStabilizer
      ensures Valid()
      ensures State() == Turn(old(State()), input).0 && keepRunning == Turn(old(State()), input).1
    {
      var objects := ProcessFrame(input.seg, input.shape);
      AdvanceMission(objects, input.now);
      var key := MaskKey(input.rawKey);
      keepRunning := HandleKeyboardInput(key, objects, input.now);
    }

    /** The main loop over a stream of frames; the end of the stream stands
      for a failed frame grab. */
    method RunLoop(inputs: seq<FrameInput>) returns (frames: nat)
      requires Valid() && forall k | 0 <= k < |inputs| :: GoodFrame(inputs[k])
      modifies robotSim, objectSelector, positionStabilizer
      ensures Valid()
      ensures State() == Loop(old(State()), inputs).0 && frames == Loop(old(State()), inputs).1
    {
      ghost var final := Loop(State(), inputs).0;
      ghost var cur, rest := State(), inputs;
      var i := 0;
      var keepRunning := true;
      while keepRunning && i < |inputs|
        invariant 0 <= i <= |inputs| && rest == inputs[i..]
        invariant Valid() && cur == State()
        invariant keepRunning ==> Reaches(final, cur, rest) && FramesUntilQuit(inputs) == i + FramesUntilQuit(rest)
        invariant !keepRunning ==> final == cur && FramesUntilQuit(inputs) == i
        decreases |inputs| - i
      {
        LoopStep(final, cur, rest);
        keepRunning := RunFrame(inputs[i]);
        cur := State();
        i := i + 1;
        rest := rest[1..];
      }
      return i;
    }
  }
}
