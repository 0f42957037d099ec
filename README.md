# PianoPlayer, modelled in Dafny

PianoPlayer turns a written two-hand piece into timed key presses on an
88-key on-screen piano. Two other tools come with it:

- a sheet scanner, in two versions, that finds a sheet of paper in a camera
  frame or a still image, lets the user drag its corners, and crops and
  turns it;
- a trimmer that cuts the silence off the recorded piano samples.

The Dafny files model the logic of the four programs, with image processing,
sound and drawing treated as inputs and outputs.

| file | module | models |
|---|---|---|
| sheet_geometry.dfy | SheetGeometry | corner order (`reorder`), integer rescaling (`rescale`), choice of the sheet contour (`get_sheet_corners`), the warp's corner pairing, the display angle; shared by both scanner versions, whose helper code is the same |
| scanner_ui.dfy | ScannerUi | window constants, per-iteration inputs, the corner hit test and drag, detection followed by the rescale to the camera view |
| scanner_app.dfy | ScannerSteps, ScannerApp | the single main loop of OpenCV/OpenCV.py (capture, corner editing on a copy, crop, rotate, reset): each part of an iteration as a step on values with the invariant it keeps, and class `Session`, whose methods are proved to perform those steps |
| scanner_draft.dfy | ScannerDraft | class `DraftSession`: the capture loop and rotate loop of OpenCV.py, editing and rescaling the detected corners in place |
| rounding.dfy | Rounding | Python's `round` (halves to even) |
| score.dfy | Score | the shortest note value, expansion of each hand into slots, DURATION |
| naming.dfy | Naming | "{name}{digit}" names |
| keyboard.dfy | Keyboard | the 88 key objects and their numbering, class `Note` and its colour fade |
| player.dfy | Player | `play_notes`, class `Piano`: the main loop with the close button |
| trimmer.dfy | Trimmer | `trim_note`'s scans and slice, `main`'s enumeration and count |

Foreign results become parameters:

- the contour finder's output is a `seq<Candidate>` of area, approximation and contour;
- "the frame is not black" is a boolean;
- whether the pointer is over the option label is a boolean;
- the elapsed milliseconds are integers, one reading for each play_notes call;
- the wav files are a map from note name to stereo 16-bit frames;
- mixer calls are recorded as a list of `Sound` requests.

## Model

| member | source | states |
|---|---|---|
| SheetGeometry.ArgMin | OpenCV/OpenCV.py:141-146 | numpy argmin: the index of the first occurrence of the minimum |
| SheetGeometry.ArgMax | OpenCV/OpenCV.py:143-148 | numpy argmax: the index of the first occurrence of the maximum |
| SheetGeometry.Reorder | OpenCV/OpenCV.py:131-150 | four points out, each one of the four points in |
| SheetGeometry.ReorderSlots | OpenCV/OpenCV.py:131-150 | slot 0 holds the first point of least x+y, slot 1 the first of least y-x, slot 2 the first of greatest y-x, slot 3 the first of greatest x+y |
| SheetGeometry.ReorderIdempotent | OpenCV/OpenCV.py:131-150 | when the four sums and the four differences are each pairwise different, reordering twice equals reordering once |
| SheetGeometry.DiamondLosesAVertex | OpenCV.py:59-78 | for every square turned 45 degrees (any centre, any size), the rule puts the top vertex in two slots and drops the left one |
| SheetGeometry.DiamondNotIdempotent | OpenCV.py:59-78 | with ties, reordering any such diamond's result again changes it, so idempotence needs distinct keys |
| SheetGeometry.ReorderOfRectangle | OpenCV/OpenCV.py:131-150 | the corners of a w x h rectangle in any order come back as TL, TR, BL, BR, e.g. (0,0),(100,0),(0,200),(100,200) unchanged |
| SheetGeometry.ScaleCoord | OpenCV/OpenCV.py:158 | v * to // from is the floor of the exact quotient: r*from <= v*to < (r+1)*from |
| SheetGeometry.ScalePoints | OpenCV/OpenCV.py:157-158 | the rescaled list keeps one point per input point |
| SheetGeometry.Rescale | OpenCV/OpenCV.py:153-162 | all four array points overwritten in place: x becomes x*fw//w and y becomes y*fh//h |
| SheetGeometry.RescaleSameScale | OpenCV/OpenCV.py:158 | rescaling to the same dimensions leaves an integer coordinate unchanged |
| SheetGeometry.ScaleMonotone | OpenCV/OpenCV.py:158 | a larger coordinate never rescales to a smaller one |
| SheetGeometry.RescaleRoundTripNeverGrows | OpenCV.py:86 | for v >= 0, rescaling A to B and back to A never exceeds v |
| SheetGeometry.RescaleUpAndBackExact | OpenCV.py:86 | scaling up by a whole factor and back down gives the original exactly |
| SheetGeometry.ChainedRescaleLosesPrecision | OpenCV.py:86 | two floor rescales (2 to 1 to 2) differ from one (2 to 2) |
| SheetGeometry.GetSheetCorners | OpenCV/OpenCV.py:165-191 | both results are empty exactly when no candidate has area > total//8, area > 0 and 4 vertices; otherwise they are the approximation and contour of the largest such candidate, the first one winning among equal areas |
| SheetGeometry.SelectionUnique | OpenCV/OpenCV.py:186-189 | at most one candidate meets the selection rule |
| SheetGeometry.SheetBeatsNoise | OpenCV.py:93-119 | a 4-sided half-frame contour is chosen over a 5-sided small one in either order |
| SheetGeometry.WarpCorners | OpenCV/OpenCV.py:194-200 | slot i pairs the i-th reordered corner, Reorder(corners)[i], with the i-th target of (0,0), (w,0), (0,h), (w,h) |
| SheetGeometry.WarpOfOwnRectangleIsIdentity | OpenCV.py:122-128 | warping a w x h rectangle's own corners onto w x h pairs every corner with itself |
| SheetGeometry.DisplayAngle | OpenCV/OpenCV.py:213 | the angle 90*(rotation % 4 - 1) is -90, 0, 90 or 180 |
| SheetGeometry.AnglePeriodFour | OpenCV.py:141 | rotation r and r+4 give the same angle |
| Rounding.RoundHalfEven | PianoPlayer.py:70 | the result is within 1/2 of x, and even on a tie |
| Rounding.RoundInteger | PianoPlayer.py:73 | an integer rounds to itself |
| ScannerUi.ScaledHeightPositive | OpenCV/OpenCV.py:240-242 | the scaled heights are at least 1 when initial_h*width/initial_w exceeds 1/2 |
| ScannerUi.PickCorner | OpenCV/OpenCV.py:416-430 | -1 exactly when no corner's square [c-r, c+r) contains the pointer, otherwise the lowest index whose square does |
| ScannerUi.FirstHitUnique | OpenCV/OpenCV.py:416-430 | the hit corner is unique |
| ScannerUi.HitIndex | OpenCV/OpenCV.py:416-430 | the hit test as a value: -1 exactly when the pointer is on no handle, otherwise the first corner whose handle holds it |
| ScannerUi.Dragged | OpenCV/OpenCV.py:343-347 | y becomes mouse_y; x becomes mouse_x only when mouse_x <= CAMERA_WIDTH and otherwise keeps its old value |
| ScannerUi.Drag | OpenCV/OpenCV.py:338-347 | corner click-1 moves as Dragged, the other three are untouched |
| ScannerUi.CopyOf | OpenCV/OpenCV.py:322 | the copy is a fresh array with the same points |
| ScannerUi.DetectCorners | OpenCV/OpenCV.py:299-308 | a fresh array of 0 or 4 points: empty when nothing qualifies, else the selected approximation rescaled from IMAGE_WIDTH x height to the camera view |
| ScannerApp.Session.constructor | OpenCV/OpenCV.py:237-263 | heights are round(initial_h*width/initial_w); the state starts capturing, with nothing captured, no corners, no click and rotation 0 |
| ScannerSteps.MouseDownFrame | OpenCV/OpenCV.py:413-430 | a mouse-down touches neither running, rotation, the copy, the detection, the warp, the picture nor the failure flag |
| ScannerSteps.MouseUpFrame | OpenCV/OpenCV.py:431-449 | a mouse-up keeps running, the corners and the picture; rotation changes only by one, by the rotate click on the hovered label in the crop |
| ScannerSteps.KeyUpFrame | OpenCV/OpenCV.py:450-473 | a key release stops the loop exactly for Esc and q; the copy is kept or restored from the detection; rotation changes only by the r reset of the crop, to 0 |
| ScannerSteps.EventStepRunning | OpenCV/OpenCV.py:410-453 | one event stops the loop exactly when it is a quit, Esc or q, and never restarts it |
| ScannerSteps.EventStepsRunning | OpenCV/OpenCV.py:410-453 | after a queue the loop runs exactly when it ran before and the queue holds no quit, Esc or q |
| ScannerSteps.EventStepKeepsDetection | OpenCV/OpenCV.py:410-473 | one event never changes the detection, the warp, the picture, brightness or failure; the copy is kept or restored from the detection |
| ScannerSteps.EventStepsKeepDetection | OpenCV/OpenCV.py:410-473 | the same for a whole queue |
| ScannerSteps.RotationStep | OpenCV/OpenCV.py:431-473 | one event changes the rotation only as the rotate click (one more turn, from the crop) or the r reset of the crop (back to 0, capturing, copy restored) |
| ScannerSteps.DisplayKeepsDetection | OpenCV/OpenCV.py:324-400 | drawing never changes the detected corners, and moves the copy only by the drag or by the one rescale to full resolution |
| ScannerSteps.CropResetKeepsInv | OpenCV/OpenCV.py:462-473 | going back from the crop to editing keeps the session invariant (one stage active, rotation 0 while capturing, the picture tied to the rotation in the crop, at most one rescale per crop) |
| ScannerSteps.DetectKeepsInv | OpenCV/OpenCV.py:281-322 | detection that finds no corners or four keeps the invariant |
| ScannerSteps.DisplayKeepsInv | OpenCV/OpenCV.py:324-400 | drawing keeps the invariant: a new crop picture shows the warp at the current rotation |
| ScannerSteps.MouseDownKeepsInv | OpenCV/OpenCV.py:413-430 | a mouse-down keeps the invariant: the held corner is one of the four |
| ScannerSteps.MouseUpKeepsInv | OpenCV/OpenCV.py:431-449 | a mouse-up keeps the invariant: capture needs a bright frame, the crop needs a capture |
| ScannerSteps.KeyUpKeepsInv | OpenCV/OpenCV.py:450-473 | a key release keeps the invariant |
| ScannerSteps.EventKeepsInv | OpenCV/OpenCV.py:410-473 | every event keeps the invariant |
| ScannerSteps.EventsKeepInv | OpenCV/OpenCV.py:410-473 | every queue of events keeps the invariant |
| ScannerApp.Session.Detect | OpenCV/OpenCV.py:281-322 | detection only while capturing and not captured; records brightness; on a bright frame it sets the detected corners, a fresh copy of them, and captured only for a still image |
| ScannerApp.Session.DetectSheet | OpenCV/OpenCV.py:295-322 | on a bright frame: the corners found by get_sheet_corners rescaled to the camera view, a fresh copy of them, the picture made, and captured only for a still image |
| ScannerApp.Session.CaptureView | OpenCV/OpenCV.py:325-349 | after a corner edit the plain image is made once; the held corner of the copy follows the pointer |
| ScannerApp.Session.WarpCrop | OpenCV/OpenCV.py:353-362 | at rotation 0 the copy is rescaled to full resolution in place and warped, and the picture shows it at angle -90; with no corners the loop ends with an exception |
| ScannerApp.Session.ToFullResolution | OpenCV/OpenCV.py:354-356 | the copy's four points are rescaled in place from the camera view to the full-resolution image |
| ScannerApp.Session.TurnCrop | OpenCV/OpenCV.py:353-362 | at rotation > 0 the existing warp is shown turned by DisplayAngle(rotation), with no rescale |
| ScannerApp.Session.Display | OpenCV/OpenCV.py:324-400 | the new state is DisplayStep of the old: nothing on a black frame; while capturing, the plain picture after an edit and the drag of the copy; in the crop, the first picture rescales the copy to full resolution and warps it at angle -90 (failing with no corners), later ones turn the warp; then the hover state, read only with four corners. The detected corners are never touched |
| ScannerApp.Session.RefreshHover | OpenCV/OpenCV.py:368-397 | the hover state is taken from the pointer only when four corners are present; nothing else changes |
| ScannerApp.Session.OnMouseDown | OpenCV/OpenCV.py:413-430 | acts only when bright, capturing, captured, corners present and no click; then click := i+1 for the first hit corner, corner_changed set, image to redraw; otherwise nothing changes |
| ScannerApp.Session.OnMouseUp | OpenCV/OpenCV.py:431-449 | on the hovered label: capture, else crop (capturing off, analysing on), else rotation+1; elsewhere click := 0; nothing on a black frame |
| ScannerApp.Session.RestoreCopy | OpenCV/OpenCV.py:460 | corners_copy becomes a fresh copy of the detected corners; nothing else changes |
| ScannerApp.Session.ResetCapture | OpenCV/OpenCV.py:456-460 | back to live capture: captured and corner_changed cleared, copy restored from the detection |
| ScannerApp.Session.ResetCrop | OpenCV/OpenCV.py:462-473 | back to editing: analysing off, capturing on, corner_changed cleared, copy restored, rotation 0 |
| ScannerApp.Session.OnKeyUp | OpenCV/OpenCV.py:450-473 | Esc and q stop the loop and change nothing else; r on a bright frame while editing captured camera corners clears captured and corner_changed and restores the copy; r on a bright frame in the crop goes back to capturing with rotation 0 and the copy restored; any other key, or r in any other state, changes nothing |
| ScannerApp.Session.HandleEvent | OpenCV/OpenCV.py:410-473 | one event: a quit stops the loop; a mouse-down, mouse-up or key release acts as its handler; others change nothing |
| ScannerApp.Session.HandleEvents | OpenCV/OpenCV.py:410-473 | the state after the queue is the events' steps applied in order; the loop stops exactly when the queue holds a quit, Esc or q, and never restarts |
| ScannerApp.Session.Tick | OpenCV/OpenCV.py:272-476 | one iteration is detection, then drawing, then (unless the crop's picture failed) the queued events, each given by its step function; detection follows get_sheet_corners; an exception only arises when the crop's first picture is made |
| ScannerApp.Session.Run | OpenCV/OpenCV.py:271-272 | the loop stops early only when running is off |
| ScannerDraft.DraftSession.constructor | OpenCV.py:156-180 | heights rounded from the aspect ratio; starts capturing with nothing captured and no corners |
| ScannerDraft.DraftSession.CaptureDetect | OpenCV.py:195-235 | detection only until captured; on a bright frame the corners are replaced by the detection, and a still image is captured at once |
| ScannerDraft.DraftSession.CaptureView | OpenCV.py:237-293 | hover is read only on a bright frame; after an edit the plain image is made once; the held corner of the detected corners follows the pointer |
| ScannerDraft.DraftSession.CaptureMouseDown | OpenCV.py:299-315 | once captured with corners and no click, click := i+1 for the first hit corner; otherwise nothing changes |
| ScannerDraft.DraftSession.CaptureMouseUp | OpenCV.py:316-328 | on the hovered label it captures, or ends the loop for the crop; elsewhere click := 0 |
| ScannerDraft.CaptureMouseDownFrame | OpenCV.py:299-315 | a mouse-down only picks the held corner; the rest of the state is kept |
| ScannerDraft.CaptureMouseUpFrame | OpenCV.py:316-328 | a mouse-up changes only click, captured, capturing and analysing; captured and analysing are never cleared; the loop ends only by the crop click |
| ScannerDraft.CaptureEventFrame | OpenCV.py:296-332 | one capture event never changes the corners, the hover state or the rotate loop's state; it ends the loop exactly on quit, Esc, q or the crop click |
| ScannerDraft.CaptureStepsOutcome | OpenCV.py:296-332 | after a queue the loop goes on exactly when it went on, no quit, Esc or q came and no crop click ended it; the corners are untouched and captured is never cleared |
| ScannerDraft.CaptureEventStages | OpenCV.py:296-332 | one event sets captured exactly when it is a mouse-up on the hovered label, and starts the crop exactly when it is such a mouse-up once captured; nothing clears either |
| ScannerDraft.CaptureStepsStages | OpenCV.py:296-340 | after a batch, captured is set exactly when it was or the label is hovered and a mouse-up came; the crop, and so the rotate loop, starts exactly when it had started or the label is hovered and a mouse-up came once captured (one mouse-up when the batch starts captured, two otherwise) |
| ScannerDraft.CaptureIterationStages | OpenCV.py:195-334 | in one capture-loop iteration, captured becomes set only by a bright still-image frame or a mouse-up, and the crop starts only by a mouse-up |
| ScannerDraft.CapturedCornersOnlyDragged | OpenCV.py:195-293 | once captured, an iteration changes the corners only by dragging the held one |
| ScannerDraft.DraftSession.CaptureEvent | OpenCV.py:296-332 | the new state is CaptureEventStep of the old: quit, Esc and q end the loop; a mouse-down picks the first hit corner once captured with no corner held; a hovered mouse-up captures, then crops; an unhovered one sets click to 0; other events change nothing |
| ScannerDraft.DraftSession.CaptureEvents | OpenCV.py:296-332 | the state after the queue is the events' steps applied in order; any quit, Esc or q in the queue ends the loop; otherwise the loop ends only by the crop click |
| ScannerDraft.DraftSession.CaptureTick | OpenCV.py:186-334 | one iteration is detection (until captured), drawing and drag, then the queued events; after capture the corners' contents change only by dragging the held corner; a quit, Esc or q ends the loop |
| ScannerDraft.DraftSession.EndCapture | OpenCV.py:337-338 | the rotate loop starts with no picture and rotation 0 |
| ScannerDraft.DraftSession.RotateView | OpenCV.py:345-354 | on the first iteration the corners are rescaled to full resolution in place and warped, or an empty corner array raises; later the existing warp is turned |
| ScannerDraft.DraftSession.RotateEvent | OpenCV.py:377-390 | quit, Esc and q stop the loop; a hovered mouse-up adds 1 to rotation; nothing else changes |
| ScannerDraft.RotateEventsAppend | OpenCV.py:377-390 | the closed form of a queue agrees with handling its events one by one |
| ScannerDraft.DraftSession.RotateEvents | OpenCV.py:377-390 | the new state is RotateEventsStep: rotation grows by the number of mouse-ups when hovering and is unchanged otherwise; the loop stops exactly when a quit, Esc or q comes; a new picture is asked for only by a hovered mouse-up |
| ScannerDraft.DraftSession.RotateTick | OpenCV.py:340-392 | one iteration is RotateViewStep (the first picture rescales and warps, later ones turn the warp), then the hover state, then RotateEventsStep of the events; the rescale happens at most once, on the first iteration at rotation 0 |
| ScannerDraft.DraftSession.Run | OpenCV.py:186-392 | the rotate loop runs only after the capture loop ends; over the whole run the corners are rescaled at most once |
| Score.ShortestValue | PianoPlayer.py:56-60 | min_val is at least every value of both hands, and is 0 or one of them |
| Score.Expand | PianoPlayer.py:61-77 | the appended list equals the concatenated expansion of every entry |
| Score.AppendEntry | PianoPlayer.py:67-77 | the inner loops for one entry append exactly that entry's slots |
| Score.ExpansionStep | PianoPlayer.py:66-77 | expanding one more entry appends its slots to the expansion so far |
| Score.EntryWidth | PianoPlayer.py:66-77 | when min_val/v = k, the entry takes exactly k slots: the key then zeros, or k zeros (legato) or k "s" for a rest |
| Score.ExpansionLength | PianoPlayer.py:61-77 | with integral ratios, the expanded hand's length is the sum of the ratios |
| Score.ExpansionPrefix | PianoPlayer.py:61-77 | expanding a prefix of the entries gives a prefix of the expansion |
| Score.EntryStartsOnTime | PianoPlayer.py:61-77 | with integral ratios, a sounded entry i is at slot Sum(ratios[..i]) |
| Score.Duration | PianoPlayer.py:79 | DURATION is within 1/2 ms of 8 / min_val * 500 |
| Naming.Digit | trimmer.py:29 | the decimal digit character of d |
| Naming.WithDigit | PianoPlayer.py:188 | "{name}{d}" is the name followed by one digit |
| Naming.WithDigitInjective | trimmer.py:29 | different (name, digit) pairs give different names |
| Keyboard.Octaves | PianoPlayer.py:167-194 | every octave built is at most 8 |
| Keyboard.Note.constructor | PianoPlayer.py:116-126 | the key keeps its attributes and starts at its initial colour |
| Keyboard.Note.DrawNote | PianoPlayer.py:128-152 | the colour takes one fade step towards the initial colour, and none once it is there |
| Keyboard.RestingKeyStays | PianoPlayer.py:151-152 | a key at its initial colour never changes |
| Keyboard.WhiteFadesBack | PianoPlayer.py:133-152 | a white key k steps from white is white again after exactly k draws, not before |
| Keyboard.BlackFadesBack | PianoPlayer.py:142-152 | a black key k steps from black is black again after exactly k draws, not before |
| Keyboard.PlayedWhiteKeyFade | PianoPlayer.py:101-109 | LIGHT_BLUE returns to WHITE after 31 draws, and not before |
| Keyboard.PlayedBlackKeyFade | PianoPlayer.py:102-109 | DARK_BLUE returns to BLACK after 40 draws, and not before |
| Keyboard.MiddleKeys | PianoPlayer.py:180-189 | seven keys named name+1 to name+7, each of the name's type, the t-th numbered 2 + base_num + 7t, plus 2/3 for a flat |
| Keyboard.BuildMiddleKeys | PianoPlayer.py:180-189 | fresh, distinct key objects for octaves 1 to 7, numbered 2 + base_num + 7(j-1), plus 2/3 for flats |
| Keyboard.BuildNameKeys | PianoPlayer.py:160-194 | fresh, distinct key objects for octave 0 (A, Bb, B), octaves 1 to 7 and C8, as the specification lists |
| Keyboard.BuildKeyboard | PianoPlayer.py:156-194 | NOTES is exactly the specified key list, as distinct fresh objects at their initial colours |
| Keyboard.BaseNumValues | PianoPlayer.py:158-162 | base_num takes the values 1,1,2,2,3,4,4,5,5,6,6,7 |
| Keyboard.NumberRule | PianoPlayer.py:167-194 | all three numbering formulas agree with base_num + 7o - 5 (+2/3 for flats) |
| Keyboard.KeysLength | PianoPlayer.py:156-194 | the first n names give Offset(n) keys |
| Keyboard.KeysPrefix | PianoPlayer.py:156-194 | the list only grows name by name |
| Keyboard.KeyboardSize | PianoPlayer.py:155-194 | 88 keys |
| Keyboard.KeyAtOffset | PianoPlayer.py:156-194 | the t-th key of name i sits at Offset(i)+t |
| Keyboard.NameAt | PianoPlayer.py:156-194 | the name whose block contains position k |
| Keyboard.OctaveAt | PianoPlayer.py:156-194 | the octave of position k is one of its name's octaves |
| Keyboard.OctaveRange | PianoPlayer.py:166-194 | a name's octaves are one run: C from 1 to 8, A, Bb and B from 0 to 7, the others from 1 to 7 |
| Keyboard.KeyAt | PianoPlayer.py:156-194 | every key is the key of its name and octave |
| Keyboard.KeyNamesDistinct | PianoPlayer.py:176-193 | no two keys share a full name |
| Keyboard.WhiteKeyNumber | PianoPlayer.py:167-194 | a white key's number is a whole number from 1 to 52 |
| Keyboard.WhiteNumberDetermines | PianoPlayer.py:167-194 | a white number determines the name and octave |
| Keyboard.WhiteNumbersDistinct | PianoPlayer.py:167-194 | no two white keys share a number |
| Keyboard.WhiteNumbersCovered | PianoPlayer.py:167-194 | every number from 1 to 52 belongs to a white key |
| Keyboard.FlatAfterNatural | PianoPlayer.py:173-186 | a flat's number is its preceding natural's plus 2/3, in the same octaves |
| Keyboard.BlackKeyAfterWhite | PianoPlayer.py:173-186 | every black key is 2/3 past the white key of the name before it in its octave |
| Keyboard.OctaveEdges | PianoPlayer.py:166-194 | octave 0 holds only A, Bb and B; octave 8 only C |
| Player.BuiltKeysDistinct | PianoPlayer.py:156-194 | the key objects NOTES is built from have pairwise different names, which Highlight, PlayNotes and the Piano need for the first-match break to light exactly the named key |
| Player.Highlight | PianoPlayer.py:224-233 | exactly the key objects named key get the lit colour (light blue for white, dark blue for black); the others keep theirs |
| Player.PlayNotes | PianoPlayer.py:208-244 | played grows by the struck indices; the mixer requests are the staccato fades and stop/play pairs; exactly the struck keys light up |
| Player.StruckExactly | PianoPlayer.py:212-242 | an index is struck iff it is truthy, due at ind*DURATION+DELAY, not "s" and not played before; struck indices increase |
| Player.PlayedStaysDistinct | PianoPlayer.py:222-242 | the played list only grows and has no duplicates |
| Player.DueKeyIsPlayed | PianoPlayer.py:213-242 | every due key entry is on the played list after the call |
| Player.PlaysOnHandChannels | PianoPlayer.py:235-239 | each play comes from a struck entry, on channel ind%2 + 2*hand |
| Player.Piano.constructor | PianoPlayer.py:252-258 | the loop starts running, not hovering the close button, with nothing played |
| Player.Piano.DrawPass | PianoPlayer.py:272-278 | one pass draws exactly the keys of one name length, one fade step each |
| Player.Piano.DrawKeys | PianoPlayer.py:271-278 | every key takes one fade step per frame |
| Player.Piano.HandleEvents | PianoPlayer.py:281-289 | running stays on iff no Escape, and no mouse-up while the button was hovered |
| Player.Piano.Tick | PianoPlayer.py:259-300 | each hand plays what is due at its own clock reading (hand 0 first); the struck keys light up, then every key fades one step; events use the previous tick's hover; closed iff mouse_x >= MON_W - 50 and mouse_y <= 30 |
| Player.Piano.Run | PianoPlayer.py:258-259 | the played lists and request log only grow; the loop stops early only when stopped |
| Trimmer.Abs16 | trimmer.py:13-19 | numpy abs on an int16: the magnitude, except -32768 which stays negative |
| Trimmer.FirstLoud | trimmer.py:9-15 | start_crop is the first loud index, or 0 when none is loud |
| Trimmer.LastLoud | trimmer.py:10-21 | end_crop is the last loud index among 1..len-1, or 0; index 0 is never looked at |
| Trimmer.StartNotAfterEnd | trimmer.py:12-21 | start_crop <= end_crop |
| Trimmer.Slice | trimmer.py:22 | Python's data[a:b]: data[a..b] when a <= b, empty otherwise |
| Trimmer.TrimSpan | trimmer.py:22 | the output is data[start:end], end exclusive, the input's own samples in order; all quiet gives empty |
| Trimmer.TrimNote | trimmer.py:8-22 | the two scanning loops compute FirstLoud and LastLoud; the data written is their slice |
| Trimmer.AsWrittenAgreesAwayFromMinimum | trimmer.py:13-19 | away from -32768 the int16 test equals the intended one |
| Trimmer.FullScaleNegativeMissed | trimmer.py:13-19 | a frame at -32768 is not loud as written; the example recording trims to nothing as written |
| Trimmer.TrimKey | trimmer.py:28-35 | one key's octaves 0 to 8 add their outcomes in order, counting each trimmed file |
| Trimmer.TrimAll | trimmer.py:25-35 | the written files are the outcomes key-major, octave-minor, and total_trimmed is their number |
| Trimmer.KeysDistinct | trimmer.py:4 | the 14 keys are different |
| Trimmer.OutcomesLength | trimmer.py:27-28 | at most one file per attempt, 9 per key |
| Trimmer.OutcomeAttempted | trimmer.py:27-33 | every written file is some key+digit attempt whose file exists |
| Trimmer.AttemptRecorded | trimmer.py:27-33 | every attempt whose file exists is written |
| Trimmer.OutcomesDistinct | trimmer.py:27-33 | no file is written twice |

## Left out

- Image processing is not part of this model: preprocessing, the contour finder, contour area, the perspective transform and resampling, and the black-frame count. Their results are inputs. The warped image is represented by the corners and size it is warped from (`Warped`).
- The float rescale of the drawn contour (OpenCV/OpenCV.py:311-313), `drawContours`, every pygame drawing and text call, and the label's hit box are drawing details. The label hit box is the boolean input `overLabel`.
- `select_mode` and `check_valid` (the tkinter dialog), camera and file reading, and window set-up are I/O. The mode is a constructor parameter.
- The two scanner versions number their modes differently (camera 1 and file 2 in OpenCV/OpenCV.py; camera 0 and file 1 in OpenCV.py). The model uses one `Mode` type for both.
- Session constructors require the aspect ratio to give heights of at least one pixel. The program would fail earlier on a zero-height image.
- Sound loading and mixer playback are I/O. The model records the requests `FadeOut`, `Stop` and `Play` in order. Pygame's clock is read once in each play_notes call, so a tick has two readings, `elapsed0` for hand 0 and `elapsed1` for hand 1. The model states its results for any two readings and does not need `elapsed0 <= elapsed1`.
- The piece data (NOTES_VALUE_i, NOTES_RAW_i, ARTICULATION) are parameters, not the literal lists. Note values are exact reals, so Python's float rounding of ratios such as 8/3 is not modelled.
- Score.Duration: states only the rounding bound on 8 / min_val * BEAT_DURATION. Python's float division is not modelled.
- Keyboard pixel geometry (WIDTH, HEIGHT, SPACING, rectangles) is drawing and is not modelled. Colour values are unbounded integers, as in Python.
- wav reading and writing are I/O. A missing file (the WindowsError branch) is a name absent from the `files` map. The sample rate is passed through and is not modelled. "Trimmed" and "not found" messages are left out.
- Trimmer.TrimNote: uses the intended loudness test (see Findings). The 16-bit behaviour is kept in `LoudAsWritten`.
- Session.Display and Session.Tick require the loop to be running: they stand for the body of `while running`, which never executes otherwise.
- Python's `None` click before any mouse-up is modelled as 0, which it equals in every test the program makes.
- In OpenCV.py the capture loop handles its whole event batch even after a quit, Esc or q, so a quit does not by itself keep the rotate loop from starting. A batch with a hovered mouse-up while captured starts the crop whatever the order of the quit: [hovered mouse-up while captured, Quit] does. What the model promises, as the code does, is CaptureStepsStages: the crop starts only with the label hovered and a mouse-up once captured, so a capture loop that ends by quit, Esc or q without such a click never reaches the rotate loop.

## Findings

| source | as written | input that shows it | evidently intended | confidence | as-written member | corrected member |
|---|---|---|---|---|---|---|
| trimmer.py:13-19 | `abs` of a 16-bit sample -32768 is still -32768 in numpy, so a full-scale negative sample never counts as loud | left channel [0, -32768, 1000, 0]: start_crop = end_crop = 2 and nothing is written | the -32768 frame is loud, giving start 1, end 2 and one frame written | medium (assumes 16-bit PCM wav files); not executed | Trimmer.FullScaleNegativeMissed | Trimmer.TrimSpan |
