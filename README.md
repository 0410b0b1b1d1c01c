# Pick-and-place colour sorter: a verified model of its core

The sorter watches a table through a camera. It segments red, green and blue objects by HSV colour ranges, turns each accepted contour into a detection, and smooths each detection's pixel position over the last five frames. It keeps a user selection bound to the nearest detection from frame to frame, and drives a simulated robot arm through nine-step pick-and-place missions, either one at a time or as batches queued by colour. Each frame, a key press chooses what happens next.

This project models that logic in Dafny and proves what it promises. It has six modules, one per source file plus one shared module:

- `Common` (common.dfy): optional values, pixel and workspace points, the three colour classes, and decimal formatting of integers, with its round trip.
- `ColorDetection` (color_detection.dfy), from src/color_detection.py:
  - the HSV range table;
  - contour acceptance;
  - the bounding box to centre to workspace mapping;
  - the identity string;
  - detection in table order;
  - the single-pixel classifier.

  The vision library's image operations are represented by what they report: for each colour mask, its contours, each with its area, hull area and bounding box.
- `Tracker` (object_tracker.dfy): the classes `ObjectSelector` and `PositionStabilizer`, with the nearest-match and median functions that specify them.
- `RobotArm` (robot_arm_simulator.dfy): the arm's state as a value `ArmState`, with one function per operation and lemmas about them. The class `RobotArmSimulator` mirrors it: its methods update the fields in place, and each promises that the new state is the function of the old one.
- `StatusWrap` (status_wrap.dfy): the two-line layout of the status text in the information panel.
- `SortingSystem` (main.dfy): the key commands, frame processing, the per-frame order of the main loop, and the class `RobotArmSortingSystem`, whose methods are proved against the functions on the whole system state `SystemState`.

Some choices apply throughout the model:

- Time stamps are a parameter `now`.
- Distances are compared squared. An integer offset is within radius r exactly when its squared length is at most r², for r ≥ 0.
- Areas are exact reals.
- `int()` of a true division is truncation toward zero, written out as `TruncDiv` and `Truncate`.
- Python's floor division and the `& 0xFF` key mask agree with Dafny's Euclidean `/` and `%` wherever the model uses them.

## Model

| member | source | states |
|---|---|---|
| Common.ColourNamed | src/color_detection.py:46-57 | looking up a colour name gives a colour whose name it is, or None exactly when no colour has that name |
| Common.ColourNameRoundTrip | src/color_detection.py:46-57 | every colour's name looks up that colour |
| Common.NatToString | src/color_detection.py:165 | the decimal digits of a natural number: at least one digit, and at least two from 10 upward |
| Common.IntToString | src/color_detection.py:165 | str() of an int: digits, with a minus sign allowed only first |
| Common.NatToStringRoundTrip | src/color_detection.py:165 | reading the digits back gives the number |
| Common.IntToStringRoundTrip | src/color_detection.py:165 | parsing the formatted integer gives the integer, negative or not |
| Common.IntToStringInjective | src/color_detection.py:165 | distinct integers are formatted differently |
| ColorDetection.HsvRanges | src/color_detection.py:46-57 | Red has two ranges and Green and Blue one each; every range lies within hue 0–180 and saturation and value 0–255, lower bound below upper |
| ColorDetection.MaskRanges | src/color_detection.py:75-80 | mask creation finds no ranges exactly for names outside the table, and otherwise that colour's ranges |
| ColorDetection.RawMasksDisjoint | src/color_detection.py:46-57 | no HSV value lies in the ranges of two different colours: the table's hue intervals do not overlap |
| ColorDetection.AcceptedWithoutDivision | src/color_detection.py:128-137 | a contour is kept iff area > min_area, the hull area is positive and 10·area > 7·hull area; a zero hull area means rejection |
| ColorDetection.Solidity | src/color_detection.py:134 | the solidity times a positive hull area is the contour area, and the solidity is 0 when the hull area is not positive |
| ColorDetection.FindContours | src/color_detection.py:120-139 | the kept contours all pass the filter, and every contour that passes is kept as often as it occurs |
| ColorDetection.FindContoursKeepsOrder | src/color_detection.py:127-139 | filtering distributes over concatenation, so the input order is kept |
| ColorDetection.Centre | src/color_detection.py:149-151 | the centre x + w//2, y + h//2 lies inside a box of non-negative size, strictly before its far edge when the size is positive |
| ColorDetection.TruncDiv | src/color_detection.py:154-155 | int() of a true division rounds toward zero: the quotient brackets the dividend on the side of zero |
| ColorDetection.ToWorkspace | src/color_detection.py:153-156 | z is 20, and a centre inside the frame maps into [0, 600) × [0, 400) |
| ColorDetection.ScaleBelow | src/color_detection.py:154-155 | a coordinate below the frame size scales to one below the workspace size |
| ColorDetection.ToWorkspaceMonotone | src/color_detection.py:154-155 | for each axis separately, a centre that is not smaller on that axis maps to a workspace coordinate that is not smaller |
| ColorDetection.ObjectIdRoundTrip | src/color_detection.py:165 | the identity "<colour>_<cx>_<cy>" parses back to its colour and centre |
| ColorDetection.ObjectId | src/color_detection.py:165 | the identity splits on '_' into exactly three fields: the colour name and the two centre coordinates in decimal |
| ColorDetection.ObjectIdInjective | src/color_detection.py:165 | two detections share an identity iff they have the same colour and centre |
| ColorDetection.ProcessContour | src/color_detection.py:148-168 | the object carries the given colour, the bbox, the size (w, h), the area, the box centre as pixel position and its workspace image, and the identity "<colour>_<cx>_<cy>" of its colour and centre, which parses back to both |
| ColorDetection.ProcessContours | src/color_detection.py:141-170 | one object per contour, in contour order |
| ColorDetection.DetectNamedCons | src/color_detection.py:110-116 | a named colour with a mask adds its detections before those of the names after it |
| ColorDetection.DetectGreenBlue | src/color_detection.py:110-116 | green detections come before blue ones |
| ColorDetection.DetectColour | src/color_detection.py:110-116 | every detection of one colour has that colour, an area above min_area, the workspace image of its centre and the identity of its colour and centre |
| ColorDetection.DetectNamed | src/color_detection.py:110-116 | every detection for a list of colour names has one of those names as its colour, and is a detection in the sense above |
| ColorDetection.DetectObjects | src/color_detection.py:103-118 | every detected object has an area above min_area, the workspace image of its centre and the identity of its colour and centre |
| ColorDetection.DetectObjectsInTableOrder | src/color_detection.py:103-118 | detection is the red, then the green, then the blue detections, each made from that colour's mask |
| ColorDetection.Classify | src/color_detection.py:191-207 | Red, Green or Blue iff s > 50 and v > 50 and the hue lies in 0–10 or 170–180, 35–85 or 100–130 respectively; otherwise "Other" |
| ColorDetection.ClassifyWithinMask | src/color_detection.py:46-57 | an 8-bit value classified as a colour lies in that colour's segmentation ranges (for red, once s and v reach 100) |
| Tracker.Matching | src/object_tracker.py:20-26 | the match list holds only detections within the radius (inclusive), each with its squared distance |
| Tracker.MatchedIsDetection | src/object_tracker.py:20-26 | every match is one of the current detections |
| Tracker.Reselect | src/object_tracker.py:12-38 | no previous selection gives nothing; a result is one of the current detections and lies within the radius of the previous selection's position |
| Tracker.Closest | src/object_tracker.py:28-31 | the head after a stable sort by distance: no entry is closer, and every earlier entry is strictly farther |
| Tracker.NearestIsUnique | src/object_tracker.py:28-31 | at most one detection is the nearest with ties going to the earliest |
| Tracker.ReselectIsNearest | src/object_tracker.py:12-38 | re-resolution finds nothing iff no detection is within the radius, and otherwise returns the nearest, ties to the earliest |
| Tracker.SelectorExample | src/object_tracker.py:12-38 | selection at (100, 100) with radius 40: of detections at distance 20 and 100 the nearer is chosen; only the far one leaves the selection unbound |
| Tracker.ObjectSelector.constructor | src/object_tracker.py:7-10 | the radius is stored and nothing is selected |
| Tracker.ObjectSelector.UpdateSelection | src/object_tracker.py:12-38 | returns the re-resolution of the previous selection; the selection becomes the match if there is one and stays as it was otherwise; the identity follows the selection |
| Tracker.ObjectSelector.SelectObject | src/object_tracker.py:40-44 | the object and its identity are selected and returned |
| Tracker.ObjectSelector.ClearSelection | src/object_tracker.py:46-49 | nothing is selected and no identity held |
| Tracker.ObjectSelector.IsObjectSelected | src/object_tracker.py:51-53 | something is selected iff a selection identity is held |
| Tracker.Median | src/object_tracker.py:70 | the median is one of the values |
| Tracker.MedianPixel | src/object_tracker.py:70 | the median position's x is one of the positions' x values and its y one of their y values |
| Tracker.Smoothed | src/object_tracker.py:69-71 | the raw position until the history is full; once full, each coordinate of the result is that coordinate of some position in the history |
| Tracker.Sort | src/object_tracker.py:70 | the values in ascending order, as a permutation of the input |
| Tracker.MedianOfMajority | src/object_tracker.py:70 | a value held by more than half of an odd number of values is their median |
| Tracker.MedianPixelOfMajority | src/object_tracker.py:70 | a position held by more than half of the history is its coordinate-wise median |
| Tracker.Pushed | src/object_tracker.py:64-67 | appending to a bounded history keeps the newest min(n + 1, capacity) positions, dropping the oldest when full |
| Tracker.FirstObservationIsRaw | src/object_tracker.py:64-71 | an identity without a history starts one of length one and gets its raw position back |
| Tracker.FullBufferIgnoresOutlier | src/object_tracker.py:69-70 | once the history is full, a position held by a majority of it is reported whatever the newest observation |
| Tracker.FiveSampleExamples | src/object_tracker.py:58-71 | with five entries: five equal positions give that position, and so do four equal positions and one outlier |
| Tracker.PositionStabilizer.constructor | src/object_tracker.py:58-60 | an odd size and no histories |
| Tracker.PositionStabilizer.Update | src/object_tracker.py:62-71 | only this identity's history changes, gaining the position (oldest dropped when full); the result is the raw position until the history is full and the median after; histories stay within the size |
| Tracker.PositionStabilizer.Cleanup | src/object_tracker.py:73-75 | exactly the histories of the given identities remain, unchanged |
| RobotArm.DropLocation | src/robot_arm_simulator.py:11-15 | every drop zone lies in the workspace |
| RobotArm.DropLocationsDistinct | src/robot_arm_simulator.py:11-15 | each colour has its own drop zone |
| RobotArm.PickPlan | src/robot_arm_simulator.py:37-54 | nine steps; steps 2 and 6 work the gripper, all others are moves |
| RobotArm.PlanDeliversToDropZone | src/robot_arm_simulator.py:42-52 | carried out from any arm state, the plan closes the gripper at the object, keeps it closed to the colour's drop zone, opens it there and ends at home with the gripper open |
| RobotArm.InitialState | src/robot_arm_simulator.py:17-35 | the start-up arm is idle, has no history and no picks, and satisfies the invariant |
| RobotArm.Tick | src/robot_arm_simulator.py:56-62 | an idle arm is unchanged; a moving arm either adds 2 to the progress and nothing to the history, or completes the mission, adding its entry |
| RobotArm.Complete | src/robot_arm_simulator.py:64-92 | the mission's entry is appended, total and successful picks grow by one, progress is 0; the next queued object starts if there is one, and otherwise the arm goes idle out of batch mode |
| RobotArm.StartNext | src/robot_arm_simulator.py:94-106 | the head of the queue is removed and becomes the current mission; motion, history and counters are unchanged |
| RobotArm.Start | src/robot_arm_simulator.py:108-120 | while moving nothing changes; from idle the arm moves, at progress 0, with the object's mission and plan, and queue, history and counters are unchanged |
| RobotArm.StartBatch | src/robot_arm_simulator.py:122-130 | nothing changes while moving or for an empty list; otherwise batch mode, the first object's mission, and the rest of the list queued in order |
| RobotArm.StartColourBatch | src/robot_arm_simulator.py:132-137 | nothing changes while moving or without objects of the colour; otherwise the first object of that colour becomes the mission and the later ones, in input order, are the queue, all of that colour |
| RobotArm.StartAllBatch | src/robot_arm_simulator.py:139-145 | nothing changes while moving or for an empty list; otherwise the mission followed by the queue is the stable Red, Green, Blue sort of the list, so no queued object comes before the mission's colour |
| RobotArm.SortedHeadFirst | src/robot_arm_simulator.py:142-143 | the sorted list has the input's length, and its head comes no later in colour order than any other entry |
| RobotArm.Records | src/robot_arm_simulator.py:73-79 | one history entry per object, in order |
| RobotArm.OfColour | src/robot_arm_simulator.py:134 | the filtered list holds only objects of the colour |
| RobotArm.OfColourCount | src/robot_arm_simulator.py:134 | the filter keeps each object of the colour as often as it occurs and no other |
| RobotArm.CurrentStep | src/robot_arm_simulator.py:147-154 | a step is shown iff there is a mission with steps, and it is one of the plan's steps |
| RobotArm.StepIndexMonotone | src/robot_arm_simulator.py:152-153 | the shown step never moves backwards as progress grows |
| RobotArm.Truncate | src/robot_arm_simulator.py:153 | int() of a real truncates toward zero: the result brackets the real on the side of zero |
| RobotArm.StepIndex | src/robot_arm_simulator.py:152-153 | for non-negative progress the shown index is min(progress·n/100, n − 1) and lies in [0, n) |
| RobotArm.Status | src/robot_arm_simulator.py:156-163 | the status is the ready text iff the arm is idle |
| RobotArm.PerformanceCounters | src/robot_arm_simulator.py:165-175 | total picks = successful picks = missions in the history, no failed picks, and at most one batch completion per pick |
| RobotArm.TickPreservesInv | src/robot_arm_simulator.py:56-62 | a progress update keeps the invariant: moving iff a mission, even progress in [0, 98], queue only in batch mode, counters equal to the history length |
| RobotArm.CompletePreservesInv | src/robot_arm_simulator.py:64-92 | completion keeps the invariant |
| RobotArm.StartPreservesInv | src/robot_arm_simulator.py:108-120 | starting a mission keeps the invariant |
| RobotArm.StartBatchPreservesInv | src/robot_arm_simulator.py:122-130 | starting a batch keeps the invariant |
| RobotArm.StartColourBatchPreservesInv | src/robot_arm_simulator.py:132-137 | starting a colour batch keeps the invariant |
| RobotArm.StartAllBatchPreservesInv | src/robot_arm_simulator.py:139-145 | starting a full batch keeps the invariant |
| RobotArm.TicksPreserveInv | src/robot_arm_simulator.py:56-62 | any number of updates keep the invariant |
| RobotArm.StartWhileMovingChangesNothing | src/robot_arm_simulator.py:108-145 | while the arm moves, every way of starting leaves the state unchanged |
| RobotArm.TicksCompose | src/robot_arm_simulator.py:56-62 | a + b updates are a updates followed by b |
| RobotArm.TicksBeforeCompletion | src/robot_arm_simulator.py:56-61 | before progress reaches 100, each update only adds 2 to it |
| RobotArm.MissionTakesFiftyTicks | src/robot_arm_simulator.py:56-62 | from progress 0, the first 49 updates only count progress and the fiftieth completes the mission |
| RobotArm.FiftiethTickCompletes | src/robot_arm_simulator.py:56-62 | from progress 0, fifty updates are exactly one completion |
| RobotArm.CompleteIgnoresProgress | src/robot_arm_simulator.py:64-92 | the outcome of completion does not depend on the progress reached |
| RobotArm.FiftyTicksCompleteOnce | src/robot_arm_simulator.py:56-92 | a mission started from idle adds nothing to the history for 49 updates; the fiftieth adds exactly its entry (colour, position, drop zone, success), counts a pick and leaves the arm idle |
| RobotArm.QueueDrainsInOrder | src/robot_arm_simulator.py:64-105 | after 50 updates per mission the arm is idle with an empty queue; the history gains the current mission's and then the queue's entries in queue order, and one batch completion is counted iff in batch mode |
| RobotArm.CompleteEndsBatch | src/robot_arm_simulator.py:86-92 | with an empty queue, completion adds the entry, counts a batch iff in batch mode and leaves the arm idle, out of batch mode, at progress 0 |
| RobotArm.CompleteStartsNext | src/robot_arm_simulator.py:84-85 | with a waiting queue, completion starts the head of the queue at once (first in, first out), the queue losing exactly that head, the arm still moving and no batch counted |
| RobotArm.BatchRunsToCompletion | src/robot_arm_simulator.py:122-130 | a batch started from idle picks every listed object in list order and counts one batch completion |
| RobotArm.SortByPriorityIsGrouped | src/robot_arm_simulator.py:142-143 | the stable sort by colour priority is the red, then green, then blue objects, each in input order |
| RobotArm.GroupsOrdered | src/robot_arm_simulator.py:142-143 | red, green and blue groups in that order are ordered by priority |
| RobotArm.OfColourOfGroups | src/robot_arm_simulator.py:142-143 | selecting a colour from the grouped list gives that colour's group |
| RobotArm.GroupedIsPermutation | src/robot_arm_simulator.py:142-143 | grouping loses and adds nothing |
| RobotArm.SortByPriorityCorrect | src/robot_arm_simulator.py:139-145 | the batch order is Red, Green, Blue; it is a permutation of the input; within each colour the input order is kept |
| RobotArm.BatchOrderExample | src/robot_arm_simulator.py:142-143 | red, blue, green in input order are queued as red, green, blue |
| RobotArm.DetectionIsInBatchOrder | src/robot_arm_simulator.py:139-145 | a full batch over one frame's detections keeps detection order |
| RobotArm.RobotArmSimulator.constructor | src/robot_arm_simulator.py:6-35 | the initial state, which satisfies the invariant |
| RobotArm.RobotArmSimulator.UpdateMission | src/robot_arm_simulator.py:56-62 | the new state is one progress update of the old, and the invariant is kept |
| RobotArm.RobotArmSimulator.CompleteMission | src/robot_arm_simulator.py:64-92 | the new state is the completion of the old |
| RobotArm.RobotArmSimulator.StartNextMission | src/robot_arm_simulator.py:94-106 | the head of the queue becomes the current mission with its plan, and the queue loses its head |
| RobotArm.RobotArmSimulator.StartMission | src/robot_arm_simulator.py:108-120 | the new state is the start of a mission from the old (no change while moving), and the invariant is kept |
| RobotArm.RobotArmSimulator.StartMissionUnchecked | src/robot_arm_simulator.py:108-120 | the same start, reached from a batch start whose queue and batch mode are already set |
| RobotArm.RobotArmSimulator.StartBatchPick | src/robot_arm_simulator.py:122-130 | the new state is the batch start from the old, and the invariant is kept |
| RobotArm.RobotArmSimulator.StartColorBatchPick | src/robot_arm_simulator.py:132-137 | the new state is the colour-batch start from the old, and the invariant is kept |
| RobotArm.RobotArmSimulator.StartAllObjectsBatch | src/robot_arm_simulator.py:139-145 | the new state is the full-batch start from the old, and the invariant is kept |
| StatusWrap.WordLength | src/main.py:192 | the run of non-whitespace ending the string, preceded by whitespace unless it is the whole string |
| StatusWrap.SplitWords | src/main.py:192 | str.split() yields only non-empty words without whitespace |
| StatusWrap.SplitSpaced | src/main.py:192-199 | words joined by single spaces split back into the same words |
| StatusWrap.TrimEnd | src/main.py:201-205 | the string without trailing whitespace: a prefix whose last character is not whitespace, all removed characters whitespace |
| StatusWrap.TrimStart | src/main.py:201-205 | the string without leading whitespace: a suffix whose first character is not whitespace, all removed characters whitespace |
| StatusWrap.Strip | src/main.py:201-205 | str.strip() gives a string no longer than the input, without whitespace at either end, with the same words |
| StatusWrap.StripSpacedWords | src/main.py:196-205 | a line built by appending " " + word, stripped, splits back into those words |
| StatusWrap.Wrap | src/main.py:195-199 | the greedy layout as written: the first line fits in 40 characters, and the two lines hold exactly the words, each as often |
| StatusWrap.WrapFits | src/main.py:195-199 | words that fit on one line together all stay on the first line |
| StatusWrap.WrapOvertakes | src/main.py:195-199 | after words filling 37 characters, a three-character word opens the second line and a later two-character word still joins the first |
| StatusWrap.WrapReordersWords | src/main.py:195-199 | on the example status the greedy layout puts "in" on the first line and "(+1" on the second, so the words are no longer in order |
| StatusWrap.ExampleStatusWords | src/robot_arm_simulator.py:160-161 | the example status of a blue mission lowering to drop height with one more object queued is 50 characters and splits into its ten words |
| StatusWrap.ExampleStatusText | src/robot_arm_simulator.py:160-161 | the example status words joined by spaces are "MISSION: Blue - Lower to drop height (+1 in queue)" |
| StatusWrap.DisplayedLinesReorderExample | src/main.py:189-205 | read line by line, the drawn example status has "in" before "(+1" |
| StatusWrap.WrapInOrder | src/main.py:195-199 | the order-keeping layout: the first line fits, the two lines in order are exactly the words, and the second line starts only with a word that does not fit |
| StatusWrap.Layout | src/main.py:190-209 | one or two lines; a status of at most 40 characters is drawn unchanged, and a longer one has a first line no longer than the joined first-line words |
| StatusWrap.LayoutWordsTwoLines | src/main.py:201-206 | with a non-empty second line, the two drawn lines hold the layout's words, first line first |
| StatusWrap.LayoutWordsOneLine | src/main.py:201-203 | with an empty second line, the one drawn line holds the layout's words |
| StatusWrap.DisplayedLines | src/main.py:189-209 | the status is drawn on one or two lines, the first at most 40 characters |
| StatusWrap.DisplayedLinesInOrder | src/main.py:189-209 | with the order-keeping layout too, one or two lines, the first at most 40 characters |
| StatusWrap.LayoutWords | src/main.py:190-205 | a long status is drawn on one or two lines, the first at most 40 characters, whose words are the layout's words, first line first |
| StatusWrap.DisplayedLinesKeepWords | src/main.py:189-209 | a status of at most 40 characters is drawn unchanged; a longer one on one or two lines, the first at most 40 characters, holding exactly the status's words, each as often |
| StatusWrap.DisplayedLinesInOrderKeepOrder | src/main.py:189-209 | with the order-keeping layout, the drawn lines read in order give back the status's words in their order |
| StatusWrap.WrapStep | src/main.py:195-199 | one loop iteration extends the layout of the words so far by the next word |
| StatusWrap.WrapInOrderStep | src/main.py:195-199 | one iteration of the order-keeping loop |
| StatusWrap.WrapStatus | src/main.py:189-205 | the word-by-word drawing loop produces the lines the greedy layout describes |
| StatusWrap.WrapStatusInOrder | src/main.py:189-205 | the corrected drawing loop produces the lines of the order-keeping layout |
| SortingSystem.DecodeKeyOf | src/main.py:365-398 | every command is decoded from its key |
| SortingSystem.Decode | src/main.py:365-398 | every key that means something is the key of what it means, so with DecodeKeyOf keys and commands correspond one to one |
| SortingSystem.MaskKey | src/main.py:467 | the masked key is one byte, and a key code already in a byte is unchanged |
| SortingSystem.NoKeyMeansNothing | src/main.py:467 | no key pressed (−1) masks to 255, which means nothing |
| SortingSystem.ToleranceSteps | src/main.py:372-377 | '+' and '-' keep the radius in [10, 100], undo each other away from the bounds, and are fixed exactly at 100 and 10 respectively |
| SortingSystem.Wider | src/main.py:373 | '+' gives min(100, r + 5): at most both and equal to one of them |
| SortingSystem.Narrower | src/main.py:376 | '-' gives max(10, r − 5): at least both and equal to one of them |
| SortingSystem.InitialSystemValid | src/main.py:9-14 | the initial system (radius 40, no selection, no histories, idle arm) satisfies the system invariant |
| SortingSystem.Ids | src/main.py:49-55 | the identities of the detections, in order |
| SortingSystem.WithPositions | src/main.py:50-54 | each detection keeps every field except the pixel position, which becomes the given one |
| SortingSystem.StabilizeOne | src/main.py:50-54 | a detection's turn at the stabiliser keeps histories bounded, gives its identity a history and drops no identity |
| SortingSystem.StabilizeOneKeepsOthers | src/main.py:50-54 | other identities' histories are left as they were |
| SortingSystem.FirstSightingIsRaw | src/main.py:50-54 | a detection whose identity has no history starts one with its own position and keeps that position |
| SortingSystem.Stabilize | src/main.py:50-55 | every detection in order goes through the stabiliser: histories stay bounded, and one position per detection |
| SortingSystem.StabilizeKeepsHistories | src/main.py:50-55 | stabilising drops no history |
| SortingSystem.StabilizeCoversId | src/main.py:50-55 | after stabilising, every detection's identity has a history |
| SortingSystem.Retain | src/main.py:58 | exactly the histories of identities in both the histories and the list remain, unchanged |
| SortingSystem.Perceive | src/main.py:43-60 | processing a frame changes only the histories and keeps them bounded |
| SortingSystem.PerceiveKeepsDetections | src/main.py:43-60 | the returned objects are the detections in order with the same fields except the pixel position, and the stabiliser holds histories for exactly this frame's identities |
| SortingSystem.Advance | src/main.py:427-433 | the mission and selection update leaves histories and radius unchanged |
| SortingSystem.AdvanceSelection | src/main.py:427-433 | the arm is updated first; a moving arm leaves nothing selected; an idle arm keeps the selection or re-binds it to a detection of this frame; nothing selected stays so; the invariant is kept |
| SortingSystem.Handle | src/main.py:365-400 | a key never touches the histories, and the loop stops iff the command is quit |
| SortingSystem.OnlyQuitStops | src/main.py:365-400 | only 'q' stops the loop |
| SortingSystem.HandleWhileMoving | src/main.py:378-398 | while the arm moves, keys leave the arm and histories alone; only 'c' changes the selection and only '+'/'-' the radius |
| SortingSystem.HandlePickSelected | src/main.py:378-383 | space while idle with a selection starts the selected object's mission with its plan and clears the selection; without one nothing changes |
| SortingSystem.HandleBatchCommands | src/main.py:384-393 | 'f', 'r', 'g', 'b' while idle clear the selection whether or not a batch starts, 'f' starting the full batch and a colour key that colour's batch |
| SortingSystem.HandleSelectDigit | src/main.py:394-398 | digit k selects object k − 1 when there is one and changes nothing otherwise |
| SortingSystem.HandlePreservesInv | src/main.py:365-400 | every command keeps the radius in [10, 100] and the arm's invariant |
| SortingSystem.Turn | src/main.py:417-469 | a turn keeps histories bounded and goes on iff the key was not 'q' |
| SortingSystem.TurnPreservesInv | src/main.py:417-469 | a turn keeps the system invariant |
| SortingSystem.Loop | src/main.py:412-471 | the loop processes exactly the frames up to and including the first 'q' |
| SortingSystem.LoopStep | src/main.py:417-469 | after one turn, the loop either goes on from the new state to the same final state, or has stopped in the new state |
| SortingSystem.LoopAfterTurn | src/main.py:417-469 | the loop is one turn followed by the loop over the remaining frames, or stops after that turn on 'q' |
| SortingSystem.FramesUntilQuit | src/main.py:466-469 | the count of frames up to the first 'q' is at most the number of frames |
| SortingSystem.FramesUntilQuitIsFirst | src/main.py:466-469 | no counted frame before the last has 'q', and the last counted has 'q' unless every frame is counted |
| SortingSystem.LoopPreservesInv | src/main.py:417-469 | the loop keeps the system invariant |
| SortingSystem.ExampleStatusIsShown | src/robot_arm_simulator.py:156-161 | a blue mission at progress 56 with one object queued is a state satisfying the arm invariant, and its status is the example status whose drawing reorders words |
| SortingSystem.RobotArmSortingSystem.constructor | src/main.py:9-14 | the three components start in the initial system state, which satisfies the invariant |
| SortingSystem.RobotArmSortingSystem.ProcessFrame | src/main.py:43-60 | the detections, stabilised in order, with the stabiliser afterwards holding the frame's histories only, as frame processing specifies |
| SortingSystem.RobotArmSortingSystem.AdvanceMission | src/main.py:426-433 | the mission update and then the selection update, as specified |
| SortingSystem.RobotArmSortingSystem.HandleKeyboardInput | src/main.py:365-400 | the effect of the key on selector and arm, and whether to go on, as the command specification says |
| SortingSystem.RobotArmSortingSystem.RunFrame | src/main.py:423-469 | one turn: process, update the mission, update the selection, handle the masked key |
| SortingSystem.RobotArmSortingSystem.RunLoop | src/main.py:412-471 | the loop's final state and frame count are those of the loop specification, so it stops exactly at the first 'q' |

## Left out

- Camera capture, windows, drawing, panels and FPS (src/main.py:27-41, 62-363, 402-410, 436-464) are device and display I/O. The end of the input sequence stands for a frame that cannot be grabbed.
- The vision library's image operations are outside the model: blur, colour conversion, thresholding, morphology, contour extraction, contour and hull areas, bounding rectangles and the BGR-to-HSV conversion of a single pixel. A frame is given as each colour mask's contours with their areas and bounding boxes, and a pixel as its HSV triple.
- Loading the colour dataset from CSV and its fallback (src/color_detection.py:16-40) are file I/O that detection does not use.
- `verify_color` (src/color_detection.py:172-189) takes medians over image regions, which is pixel work of the vision library.
- Printing is not modelled.
- Wall-clock time is not modelled. Each time stamp is the parameter `now`, and the completion of one mission and the start of the next share the same `now`.
- The float parts of the performance report are not modelled: `success_rate`, and `recent_avg_time`, which is always 0 because no `duration` is ever recorded. RobotArm.PerformanceCounters gives only the integer counters.
- Position histories of even size are not modelled, because the median of an even history is a float. Histories have odd size, five in the system.
- `gripper_state` and `current_position` are never changed by the arm. `current_position` is the constant `HomePosition`; the gripper's behaviour over a plan is stated by RobotArm.PlanDeliversToDropZone instead.
- Colour names outside Red, Green and Blue are not modelled. Detections carry only table colours, so the sort priority 3 for other colours and the drop-zone lookup failure for them cannot occur.
- RobotArm.Status: states only that the status is the ready text iff the arm is idle, not the exact text of a mission status.
- The second drawn status line is not bounded in width; src/main.py:199 puts every word that does not fit on line 1 there.
- RobotArm.RobotArmSimulator.CompleteMission: it is called only from a moving state, so it does not re-prove the invariant on its own; UpdateMission does.

## Findings

| source | as written | input that shows it | evidently intended | confidence | as-written member | corrected member |
|---|---|---|---|---|---|---|
| src/main.py:195-199 | each word goes to line 1 whenever line 1 plus the word still fits, even after an earlier word has gone to line 2, so a later short word overtakes a longer one | the status "MISSION: Blue - Lower to drop height (+1 in queue)" is drawn as "MISSION: Blue - Lower to drop height in" / "(+1 queue)" | once a word has moved to line 2, all later words follow it, so the two lines read in order | not executed | StatusWrap.WrapReordersWords | StatusWrap.DisplayedLinesInOrderKeepOrder |
