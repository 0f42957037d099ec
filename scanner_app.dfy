/**
 * The scanner's single main loop (capture, corner editing, crop, rotate and
 * reset in one window), iteration by iteration, on values: the session's
 * state, what each part of an iteration does to it, and the invariant every
 * part keeps.
 */
module ScannerSteps {
  import opened SheetGeometry
  import opened ScannerUi

  /**
   * Every field of a session at one instant, with the two corner arrays
   * given by their contents: detected is sheet_corners, copy is
   * corners_copy.
   */
  datatype State = State(
    running: bool, failed: bool, click: int, hovering: bool,
    captured: bool, cornerChanged: bool, imageCreated: bool,
    capturing: bool, analysing: bool, notBlack: bool, rotation: int,
    detected: seq<Point>, copy: seq<Point>,
    warped: Option<Warped>, finalImage: Option<Shown>,
    atFullResolution: bool)

  // ---------------------------------------------------------------------
  // One iteration, step by step, on values

  /**
   * Detection, given the corners it finds for a bright frame (already at
   * camera-view scale): it runs only while capturing and not captured.
   */
  function DetectStep(s: State, mode: Mode, bright: bool, found: seq<Point>): State
  {
    if !(s.capturing && !s.captured) then s
    else if !bright then s.(notBlack := false)
    else s.(notBlack := true, captured := mode == Still, imageCreated := true, detected := found, copy := found)
  }

  /** The option label's hover state is read only when four corners are present. */
  function WithHover(s: State, overLabel: bool): State
  {
    if |s.copy| == 4 then s.(hovering := overLabel) else s
  }

  /**
   * The drawing part of an iteration: nothing on a black frame; while
   * capturing, the plain picture after an edit and the drag of the copy;
   * in the crop, the first picture rescales the copy to full resolution and
   * warps it (failing with no corners), later ones turn the warp (failing
   * with no warp); then the hover state.
   */
  function DisplayStep(s: State, mouse: Point, overLabel: bool, initialW: int, initialH: int, cameraHeight: int): State
    requires cameraHeight >= 1
  {
    if !s.notBlack then s
    else if s.capturing then
      WithHover(s.(imageCreated := s.imageCreated || (s.captured && s.cornerChanged),
                   copy := Moved(s.copy, s.click, mouse)), overLabel)
    else if s.analysing && !s.imageCreated && s.rotation == 0 then
      if |s.copy| != 4 then s.(failed := true, running := false)
      else
        var full := ScalePoints(s.copy, CAMERA_WIDTH, cameraHeight, initialW, initialH);
        WithHover(s.(imageCreated := true, atFullResolution := true, copy := full,
                     warped := Some(Warped(full, initialW, initialH)),
                     finalImage := Some(Shown(Warped(full, initialW, initialH), DisplayAngle(0)))), overLabel)
    else if s.analysing && !s.imageCreated then
      if s.warped.None? then s.(failed := true, running := false)
      else WithHover(s.(imageCreated := true, finalImage := Some(Shown(s.warped.value, DisplayAngle(s.rotation)))), overLabel)
    else WithHover(s, overLabel)
  }

  /** A mouse-down: the first corner hit becomes the held one, when the guard lets the test run. */
  function MouseDownStep(s: State, mouse: Point): State
  {
    if s.notBlack && s.capturing && |s.copy| != 0 && s.click == 0 && s.captured then
      var hit := HitIndex(s.copy, mouse);
      if hit == -1 then s else s.(click := hit + 1, cornerChanged := true, imageCreated := false)
    else s
  }

  /** A mouse-up: capture, crop or rotate on the hovered label, release elsewhere; nothing on a black frame. */
  function MouseUpStep(s: State): State
  {
    if !s.notBlack then s
    else if !s.hovering then s.(click := 0)
    else if !s.captured then s.(captured := true)
    else if s.capturing then s.(capturing := false, analysing := true, imageCreated := false)
    else s.(imageCreated := false, rotation := s.rotation + 1)
  }

  /** A key release: Esc and q stop; r on a bright frame resets the capture (camera only) or the crop. */
  function KeyUpStep(s: State, mode: Mode, key: Key): State
  {
    if key == Escape || key == KeyQ then s.(running := false)
    else if key != KeyR || !s.notBlack then s
    else if s.captured && s.capturing && mode == Camera then
      s.(captured := false, cornerChanged := false, copy := s.detected)
    else if s.analysing then
      s.(analysing := false, capturing := true, cornerChanged := false, copy := s.detected,
         rotation := 0, atFullResolution := false)
    else s
  }

  function EventStep(s: State, mode: Mode, e: Event, mouse: Point): State
  {
    match e
    case Quit => s.(running := false)
    case MouseDown => MouseDownStep(s, mouse)
    case MouseUp => MouseUpStep(s)
    case KeyUp(key) => KeyUpStep(s, mode, key)
    case OtherEvent => s
  }

  /** The queued events handled in order. */
  function EventSteps(s: State, mode: Mode, events: seq<Event>, mouse: Point): State
  {
    if |events| == 0 then s
    else EventStep(EventSteps(s, mode, events[..|events| - 1], mouse), mode, events[|events| - 1], mouse)
  }

  /** A mouse-down only picks the held corner: it touches nothing else the batch lemmas speak of. */
  lemma MouseDownFrame(s: State, mouse: Point)
    ensures var t := MouseDownStep(s, mouse);
      && t.running == s.running && t.rotation == s.rotation && t.copy == s.copy
      && t.detected == s.detected && t.warped == s.warped && t.failed == s.failed
      && t.finalImage == s.finalImage && t.notBlack == s.notBlack
  {
    if s.notBlack && s.capturing && |s.copy| != 0 && s.click == 0 && s.captured {
      if HitIndex(s.copy, mouse) == -1 {
      } else {
      }
    }
  }

  /** A mouse-up moves the stage on or releases the corner; it turns the picture only from the crop. */
  lemma MouseUpFrame(s: State)
    ensures var t := MouseUpStep(s);
      && t.running == s.running && t.copy == s.copy
      && t.detected == s.detected && t.warped == s.warped && t.failed == s.failed
      && t.finalImage == s.finalImage && t.notBlack == s.notBlack
      && (t.rotation == s.rotation
          || (s.notBlack && s.hovering && s.captured && !s.capturing && t.rotation == s.rotation + 1))
  {
    if !s.notBlack {
    } else if !s.hovering {
    } else if !s.captured {
    } else if s.capturing {
    } else {
    }
  }

  /** A key release stops the loop or resets a stage from the detection; the reset of the crop unturns it. */
  lemma KeyUpFrame(s: State, mode: Mode, key: Key)
    ensures var t := KeyUpStep(s, mode, key);
      && t.running == (s.running && key != Escape && key != KeyQ)
      && t.detected == s.detected && t.warped == s.warped && t.failed == s.failed
      && t.finalImage == s.finalImage && t.notBlack == s.notBlack
      && (t.copy == s.copy || t.copy == s.detected)
      && (t.rotation == s.rotation
          || (key == KeyR && s.notBlack && s.analysing && t.rotation == 0 && t.capturing && t.copy == s.detected))
  {
    if key == Escape || key == KeyQ {
    } else if key != KeyR || !s.notBlack {
    } else if s.captured && s.capturing && mode == Camera {
    } else if s.analysing {
    } else {
    }
  }

  /** One event stops the loop exactly when it is a quit, Esc or q, and never restarts it. */
  lemma EventStepRunning(s: State, mode: Mode, e: Event, mouse: Point)
    ensures EventStep(s, mode, e, mouse).running == (s.running && !Ends(e))
  {
    match e {
      case Quit =>
      case MouseDown => MouseDownFrame(s, mouse);
      case MouseUp => MouseUpFrame(s);
      case KeyUp(key) => KeyUpFrame(s, mode, key);
      case OtherEvent =>
    }
  }

  /**
   * A batch of events leaves the loop running exactly when it was running
   * and the batch holds no quit, Esc or q: a quit cannot be undone later in
   * the batch.
   */
  lemma {:induction false} EventStepsRunning(s: State, mode: Mode, events: seq<Event>, mouse: Point)
    ensures EventSteps(s, mode, events, mouse).running <==>
      s.running && forall i :: 0 <= i < |events| ==> !Ends(events[i])
  {
    if |events| != 0 {
      var front := events[..|events| - 1];
      EventStepsRunning(s, mode, front, mouse);
      EventStepRunning(EventSteps(s, mode, front, mouse), mode, events[|events| - 1], mouse);
      assert forall i :: 0 <= i < |front| ==> front[i] == events[i];
    }
  }

  /** One event never touches the detection, the warp, the picture or the failure flag; the copy is kept or restored. */
  lemma EventStepKeepsDetection(s: State, mode: Mode, e: Event, mouse: Point)
    ensures var t := EventStep(s, mode, e, mouse);
      && t.detected == s.detected && t.warped == s.warped && t.failed == s.failed
      && t.finalImage == s.finalImage && t.notBlack == s.notBlack
      && (t.copy == s.copy || t.copy == s.detected)
  {
    match e {
      case Quit =>
      case MouseDown => MouseDownFrame(s, mouse);
      case MouseUp => MouseUpFrame(s);
      case KeyUp(key) => KeyUpFrame(s, mode, key);
      case OtherEvent =>
    }
  }

  /**
   * Events never touch the detection, the warp, the picture or the failure
   * flag, and the edited copy is either kept or restored from the detection.
   */
  lemma {:induction false} EventStepsKeepDetection(s: State, mode: Mode, events: seq<Event>, mouse: Point)
    ensures var t := EventSteps(s, mode, events, mouse);
      && t.detected == s.detected && t.warped == s.warped && t.failed == s.failed
      && t.finalImage == s.finalImage && t.notBlack == s.notBlack
      && (t.copy == s.copy || t.copy == s.detected)
  {
    if |events| != 0 {
      var front := events[..|events| - 1];
      EventStepsKeepDetection(s, mode, front, mouse);
      EventStepKeepsDetection(EventSteps(s, mode, front, mouse), mode, events[|events| - 1], mouse);
    }
  }

  /**
   * One event changes the rotation only as the rotate click (one more
   * quarter turn, from the crop) or the r reset of the crop (back to 0,
   * capturing again, with the corners restored from the detection).
   */
  lemma RotationStep(s: State, mode: Mode, e: Event, mouse: Point)
    ensures var t := EventStep(s, mode, e, mouse);
      || t.rotation == s.rotation
      || (e == MouseUp && s.notBlack && s.hovering && s.captured && !s.capturing && t.rotation == s.rotation + 1)
      || (e == KeyUp(KeyR) && s.notBlack && s.analysing && t.rotation == 0 && t.capturing && t.copy == s.detected)
  {
    match e {
      case Quit =>
      case MouseDown => MouseDownFrame(s, mouse);
      case MouseUp => MouseUpFrame(s);
      case KeyUp(key) => KeyUpFrame(s, mode, key);
      case OtherEvent =>
    }
  }

  /** Drawing never touches the detection; it moves the copy only by the drag or the one rescale to full resolution. */
  lemma DisplayKeepsDetection(s: State, mouse: Point, overLabel: bool, initialW: int, initialH: int, cameraHeight: int)
    requires cameraHeight >= 1
    ensures var t := DisplayStep(s, mouse, overLabel, initialW, initialH, cameraHeight);
      && t.detected == s.detected
      && (|| t.copy == s.copy
          || (s.capturing && t.copy == Moved(s.copy, s.click, mouse))
          || (s.analysing && !s.imageCreated && s.rotation == 0 && t.atFullResolution
                && t.copy == ScalePoints(s.copy, CAMERA_WIDTH, cameraHeight, initialW, initialH)))
  {
    if !s.notBlack {
    } else if s.capturing {
    } else if s.analysing && !s.imageCreated && s.rotation == 0 {
      if |s.copy| != 4 {
      } else {
      }
    } else if s.analysing && !s.imageCreated {
      if s.warped.None? {
      } else {
      }
    } else {
    }
  }

  /** What holds of a session between any two steps. */
  ghost predicate Inv(s: State)
  {
    && (|s.detected| == 0 || |s.detected| == 4)
    && (|s.copy| == 0 || |s.copy| == 4)
    && 0 <= s.click <= 4 && s.rotation >= 0
    // exactly one of the two stages is active
    && (s.capturing <==> !s.analysing)
    && (s.analysing ==> s.captured)
    && (s.capturing ==> s.rotation == 0)
    && (s.captured ==> s.notBlack)
    && (s.failed ==> !s.running)
    // a finished crop shows the warp turned by the current rotation
    && (s.analysing && s.imageCreated ==>
          s.warped.Some? && s.finalImage == Some(Shown(s.warped.value, DisplayAngle(s.rotation))))
    // the full-resolution rescale happens once per crop
    && (s.atFullResolution ==> s.analysing)
    && (s.analysing && s.rotation == 0 && !s.imageCreated ==> !s.atFullResolution)
  }

  /** Going back from the crop to editing keeps the invariant. */
  lemma CropResetKeepsInv(s: State)
    requires Inv(s) && s.analysing
    ensures Inv(s.(analysing := false, capturing := true, cornerChanged := false, copy := s.detected,
                   rotation := 0, atFullResolution := false))
  {
  }

  /** Detection keeps the invariant when it finds no corners or four. */
  lemma DetectKeepsInv(s: State, mode: Mode, bright: bool, found: seq<Point>)
    requires Inv(s) && (|found| == 0 || |found| == 4)
    ensures Inv(DetectStep(s, mode, bright, found))
  {
  }

  /** Drawing keeps the invariant: the drag and the rescale keep the copy's size, a new picture shows the warp at the current rotation. */
  lemma DisplayKeepsInv(s: State, mouse: Point, overLabel: bool, initialW: int, initialH: int, cameraHeight: int)
    requires Inv(s) && cameraHeight >= 1
    ensures Inv(DisplayStep(s, mouse, overLabel, initialW, initialH, cameraHeight))
  {
    if !s.notBlack {
    } else if s.capturing {
    } else if s.analysing && !s.imageCreated && s.rotation == 0 {
    } else if s.analysing && !s.imageCreated {
    } else {
    }
  }

  /** A mouse-down keeps the invariant: the held corner is one of the copy's. */
  lemma MouseDownKeepsInv(s: State, mouse: Point)
    requires Inv(s)
    ensures Inv(MouseDownStep(s, mouse))
  {
  }

  /** A mouse-up keeps the invariant: capture needs a bright frame, the crop needs a capture, and a rotation leaves the rescale done. */
  lemma MouseUpKeepsInv(s: State)
    requires Inv(s)
    ensures Inv(MouseUpStep(s))
  {
    if !s.notBlack {
    } else if !s.hovering {
    } else if !s.captured {
    } else if s.capturing {
    } else {
    }
  }

  /** A key release keeps the invariant. */
  lemma KeyUpKeepsInv(s: State, mode: Mode, key: Key)
    requires Inv(s)
    ensures Inv(KeyUpStep(s, mode, key))
  {
    if key == Escape || key == KeyQ {
    } else if key != KeyR || !s.notBlack {
    } else if s.captured && s.capturing && mode == Camera {
    } else if s.analysing {
    } else {
    }
  }

  /** Every event keeps the invariant. */
  lemma EventKeepsInv(s: State, mode: Mode, e: Event, mouse: Point)
    requires Inv(s)
    ensures Inv(EventStep(s, mode, e, mouse))
  {
    match e {
      case Quit =>
      case MouseDown => MouseDownKeepsInv(s, mouse);
      case MouseUp => MouseUpKeepsInv(s);
      case KeyUp(key) => KeyUpKeepsInv(s, mode, key);
      case OtherEvent =>
    }
  }

  /** A batch of events keeps the invariant. */
  lemma {:induction false} EventsKeepInv(s: State, mode: Mode, events: seq<Event>, mouse: Point)
    requires Inv(s)
    ensures Inv(EventSteps(s, mode, events, mouse))
  {
    if |events| != 0 {
      var front := events[..|events| - 1];
      EventsKeepInv(s, mode, front, mouse);
      EventKeepsInv(EventSteps(s, mode, front, mouse), mode, events[|events| - 1], mouse);
    }
  }
}

/**
 * The scanner session object: its fields, updated in place by the loop's
 * methods, each proved against the matching step of ScannerSteps.
 */
module ScannerApp {
  import opened SheetGeometry
  import opened ScannerUi
  import opened ScannerSteps

  class Session {
    /** Camera or still image. */
    const mode: Mode
    /** Dimensions of the full-resolution image. */
    const initialW: int
    const initialH: int
    /** Height of the detector's downscaled copy (IMAGE_WIDTH wide). */
    const height: int
    /** Height of the camera view (CAMERA_WIDTH wide). */
    const cameraHeight: int

    var running: bool
    /** The loop ended with an exception. */
    var failed: bool
    /** The corner being held, 1 to 4, or 0 for none. */
    var click: int
    var hovering: bool
    var captured: bool
    var cornerChanged: bool
    var imageCreated: bool
    var capturing: bool
    var analysing: bool
    var notBlack: bool
    var rotation: int
    /** The last detection, at camera-view scale; zero or four points. */
    var sheetCorners: array<Point>
    /** The corners being edited; zero or four points. */
    var cornersCopy: array<Point>
    var warped: Option<Warped>
    var finalImage: Option<Shown>
    /** cornersCopy has been taken to full resolution for the warp. */
    ghost var atFullResolution: bool

    ghost function Snapshot(): State
      reads this, sheetCorners, cornersCopy
    {
      State(running, failed, click, hovering, captured, cornerChanged, imageCreated,
            capturing, analysing, notBlack, rotation, sheetCorners[..], cornersCopy[..],
            warped, finalImage, atFullResolution)
    }

    ghost predicate Valid()
      reads this, sheetCorners, cornersCopy
    {
      && initialW > 0 && initialH > 0 && height >= 1 && cameraHeight >= 1
      && sheetCorners != cornersCopy
      && Inv(Snapshot())
    }

    constructor (mode: Mode, initialW: int, initialH: int)
      requires initialW > 0 && 2 * initialH * IMAGE_WIDTH > initialW
      ensures Valid() && fresh(sheetCorners) && fresh(cornersCopy)
      ensures this.mode == mode && this.initialW == initialW && this.initialH == initialH
      ensures height == ScaledHeight(initialW, initialH, IMAGE_WIDTH)
      ensures cameraHeight == ScaledHeight(initialW, initialH, CAMERA_WIDTH)
      ensures Snapshot() == State(true, false, 0, false, false, false, false, true, false, false, 0,
                                  [], [], None, None, false)
    {
      this.mode := mode;
      this.initialW := initialW;
      this.initialH := initialH;
      ScaledHeightPositive(initialW, initialH, IMAGE_WIDTH);
      ScaledHeightPositive(initialW, initialH, CAMERA_WIDTH);
      height := ScaledHeight(initialW, initialH, IMAGE_WIDTH);
      cameraHeight := ScaledHeight(initialW, initialH, CAMERA_WIDTH);
      running := true;
      failed := false;
      click := 0;
      hovering := false;
      captured := false;
      cornerChanged := false;
      imageCreated := false;
      capturing := true;
      analysing := false;
      notBlack := false;
      rotation := 0;
      sheetCorners := new Point[0];
      cornersCopy := new Point[0];
      warped := None;
      finalImage := None;
      atFullResolution := false;
    }

    /**
     * Detection, run while capturing and not yet captured: the frame's
     * brightness is recorded and, unless it is black, the sheet is chosen
     * among the contours (at the downscaled size), taken to camera-view scale
     * in place, and copied for editing. A still image counts as captured
     * after its first bright frame.
     */
    method Detect(frame: Frame)
      requires Valid()
      modifies this
      ensures Snapshot() == DetectStep(old(Snapshot()), mode, frame.notBlack, sheetCorners[..])
      ensures !(old(capturing) && !old(captured) && frame.notBlack) ==>
        sheetCorners == old(sheetCorners) && cornersCopy == old(cornersCopy)
      ensures old(capturing) && !old(captured) && frame.notBlack ==>
        && fresh(sheetCorners) && fresh(cornersCopy)
        && SheetFound(frame.candidates, height, cameraHeight, sheetCorners[..])
      ensures Valid()
    {
      if capturing && !captured {
        if frame.notBlack {
          DetectSheet(frame.candidates);
        } else {
          notBlack := false;
        }
      }
    }

    /** Detection on a bright frame. */
    method DetectSheet(candidates: seq<Candidate>)
      requires Valid() && capturing && !captured
      modifies this
      ensures fresh(sheetCorners) && fresh(cornersCopy)
      ensures Snapshot() == old(Snapshot()).(notBlack := true, captured := mode == Still, imageCreated := true,
                                             detected := sheetCorners[..], copy := sheetCorners[..])
      ensures SheetFound(candidates, height, cameraHeight, sheetCorners[..])
      ensures Valid()
    {
      var detected := DetectCorners(candidates, height, cameraHeight);
      var copy := CopyOf(detected);
      // captured is still false here, so this is "captured only for a still image"
      notBlack, captured, imageCreated := true, mode == Still, true;
      sheetCorners, cornersCopy := detected, copy;
    }

    /**
     * The capture stage's drawing for a bright frame: after a corner edit
     * the plain picture is made once, and the held corner follows the
     * pointer.
     */
    method CaptureView(mouse: Point)
      requires Valid() && notBlack && capturing
      modifies this, cornersCopy
      ensures sheetCorners == old(sheetCorners) && cornersCopy == old(cornersCopy)
      ensures Snapshot() == old(Snapshot()).(imageCreated := old(imageCreated) || (captured && cornerChanged),
                                             copy := Moved(old(cornersCopy[..]), click, mouse))
      ensures Valid()
    {
      if captured && cornerChanged && !imageCreated {
        imageCreated := true;
      }
      if cornersCopy.Length != 0 {
        Drag(cornersCopy, click, mouse);
      }
    }

    /** rescale of the edited corners from the camera view to the full-resolution image, in place. */
    method ToFullResolution()
      requires Valid() && analysing && !imageCreated && rotation == 0 && cornersCopy.Length == 4
      modifies this`atFullResolution, cornersCopy
      ensures atFullResolution
      ensures cornersCopy[..] == ScalePoints(old(cornersCopy[..]), CAMERA_WIDTH, cameraHeight, initialW, initialH)
    {
      Rescale(cornersCopy, CAMERA_WIDTH, cameraHeight, initialW, initialH);
      atFullResolution := true;
    }

    /**
     * The crop stage's first picture (rotation 0): the corners are taken
     * from camera-view scale to full resolution in place and warped.
     * Rescaling an empty corner array raises.
     */
    method WarpCrop()
      requires Valid() && notBlack && analysing && !imageCreated && rotation == 0
      modifies this, cornersCopy
      ensures sheetCorners == old(sheetCorners) && cornersCopy == old(cornersCopy)
      ensures old(cornersCopy.Length) != 4 ==> Snapshot() == old(Snapshot()).(failed := true, running := false)
      ensures old(cornersCopy.Length) == 4 ==>
        var full := ScalePoints(old(cornersCopy[..]), CAMERA_WIDTH, cameraHeight, initialW, initialH);
        Snapshot() == old(Snapshot()).(imageCreated := true, atFullResolution := true, copy := full,
                                       warped := Some(Warped(full, initialW, initialH)),
                                       finalImage := Some(Shown(Warped(full, initialW, initialH), DisplayAngle(0))))
      ensures Valid()
    {
      if cornersCopy.Length != 4 {
        failed, running := true, false;
        return;
      }
      ToFullResolution();
      var image := Warped(cornersCopy[..], initialW, initialH);
      warped := Some(image);
      finalImage := Some(Shown(image, DisplayAngle(rotation)));
      imageCreated := true;
    }

    /**
     * A later picture of the crop stage (rotation above 0): the existing
     * warp turned by the rotation, with no rescale. Turning a warp that was
     * never made raises.
     */
    method TurnCrop()
      requires Valid() && notBlack && analysing && !imageCreated && rotation != 0
      modifies this
      ensures sheetCorners == old(sheetCorners) && cornersCopy == old(cornersCopy)
      ensures old(warped).None? ==> Snapshot() == old(Snapshot()).(failed := true, running := false)
      ensures old(warped).Some? ==>
        Snapshot() == old(Snapshot()).(imageCreated := true, finalImage := Some(Shown(old(warped).value, DisplayAngle(rotation))))
      ensures Valid()
    {
      if warped.None? {
        failed, running := true, false;
        return;
      }
      finalImage := Some(Shown(warped.value, DisplayAngle(rotation)));
      imageCreated := true;
    }

    /** The label is drawn, and its hover state taken from the pointer, only when four corners are present. */
    method RefreshHover(overLabel: bool)
      requires Valid()
      modifies this
      ensures sheetCorners == old(sheetCorners) && cornersCopy == old(cornersCopy)
      ensures Snapshot() == WithHover(old(Snapshot()), overLabel)
      ensures Valid()
    {
      if cornersCopy.Length == 4 {
        hovering := overLabel;
      }
    }

    /**
     * The drawing part of an iteration. Nothing happens on a black frame.
     * Only the edited copy of the corners is ever moved; the detected
     * corners stay as they were.
     */
    method Display(mouse: Point, overLabel: bool)
      requires Valid() && running
      modifies this, cornersCopy
      ensures sheetCorners == old(sheetCorners) && cornersCopy == old(cornersCopy)
      ensures Snapshot() == DisplayStep(old(Snapshot()), mouse, overLabel, initialW, initialH, cameraHeight)
      ensures failed ==> !running && old(analysing) && !old(imageCreated)
      ensures Valid()
    {
      if !notBlack {
        return;
      }
      if capturing {
        CaptureView(mouse);
      } else if analysing && !imageCreated {
        if rotation == 0 {
          WarpCrop();
        } else {
          TurnCrop();
        }
        if failed {
          return;
        }
      }
      RefreshHover(overLabel);
    }

    /**
     * Mouse-down, acted on only for a bright frame while capturing, once
     * captured, with corners present and no corner held: the first corner
     * whose handle contains the pointer becomes the held one, and the
     * picture is to be redrawn without the detected outline.
     */
    method OnMouseDown(mouse: Point)
      requires Valid()
      modifies this
      ensures sheetCorners == old(sheetCorners) && cornersCopy == old(cornersCopy)
      ensures var acts := old(notBlack && capturing && cornersCopy.Length != 0 && click == 0 && captured);
        && (acts && (exists i :: FirstHit(cornersCopy[..], mouse, i)) ==>
              exists i :: FirstHit(cornersCopy[..], mouse, i)
                && Snapshot() == old(Snapshot()).(click := i + 1, cornerChanged := true, imageCreated := false))
        && (!(acts && exists i :: FirstHit(cornersCopy[..], mouse, i)) ==> Snapshot() == old(Snapshot()))
      ensures Snapshot() == MouseDownStep(old(Snapshot()), mouse)
      ensures Valid()
    {
      if notBlack && capturing && cornersCopy.Length != 0 && click == 0 && captured {
        var hit := PickCorner(cornersCopy, mouse);
        if hit != -1 {
          click := hit + 1;
          cornerChanged := true;
          imageCreated := false;
        } else {
          assert forall i :: !FirstHit(cornersCopy[..], mouse, i);
        }
      }
    }

    /**
     * Mouse-up on a bright frame: on the hovered label it captures, then
     * crops, then rotates; anywhere else it releases the held corner.
     */
    method OnMouseUp()
      requires Valid()
      modifies this
      ensures sheetCorners == old(sheetCorners) && cornersCopy == old(cornersCopy)
      ensures Snapshot() == MouseUpStep(old(Snapshot()))
      ensures Valid()
    {
      if notBlack {
        if hovering {
          if !captured {
            captured := true;
          } else if capturing {
            capturing := false;
            analysing := true;
            imageCreated := false;
          } else {
            imageCreated := false;
            rotation := rotation + 1;
          }
        } else {
          click := 0;
        }
      }
    }

    /** The edited copy restored from the detection, as a fresh array. */
    method RestoreCopy()
      modifies this`cornersCopy
      ensures sheetCorners == old(sheetCorners) && fresh(cornersCopy)
      ensures Snapshot() == old(Snapshot()).(copy := old(sheetCorners[..]))
    {
      cornersCopy := CopyOf(sheetCorners);
    }

    /** r while editing captured camera corners: back to live capture with the detected corners. */
    method ResetCapture()
      requires Valid() && notBlack && captured && capturing && mode == Camera
      modifies this
      ensures sheetCorners == old(sheetCorners) && fresh(cornersCopy)
      ensures Snapshot() == old(Snapshot()).(captured := false, cornerChanged := false, copy := old(sheetCorners[..]))
      ensures Valid()
    {
      RestoreCopy();
      captured := false;
      cornerChanged := false;
    }

    /** r in the crop stage: back to editing the detected corners, unrotated. */
    method ResetCrop()
      requires Valid() && notBlack && analysing
      modifies this
      ensures sheetCorners == old(sheetCorners) && fresh(cornersCopy)
      ensures Snapshot() == old(Snapshot()).(analysing := false, capturing := true, cornerChanged := false,
                                             copy := old(sheetCorners[..]), rotation := 0, atFullResolution := false)
      ensures Valid()
    {
      RestoreCopy();
      analysing := false;
      capturing := true;
      cornerChanged := false;
      rotation := 0;
      atFullResolution := false;
      CropResetKeepsInv(old(Snapshot()));
    }

    /**
     * Key release: Esc or q ends the loop; r on a bright frame goes back one
     * stage, from editing captured camera corners to live capture, or from
     * the crop to editing, restoring the corners from the detection.
     */
    method OnKeyUp(key: Key)
      requires Valid()
      modifies this
      ensures sheetCorners == old(sheetCorners)
      ensures cornersCopy == old(cornersCopy) || fresh(cornersCopy)
      ensures key == Escape || key == KeyQ ==> Snapshot() == old(Snapshot()).(running := false)
      ensures key == KeyR && old(notBlack && captured && capturing) && mode == Camera ==>
        Snapshot() == old(Snapshot()).(captured := false, cornerChanged := false, copy := old(sheetCorners[..]))
      ensures key == KeyR && old(notBlack && analysing) ==>
        Snapshot() == old(Snapshot()).(analysing := false, capturing := true, cornerChanged := false,
                                       copy := old(sheetCorners[..]), rotation := 0, atFullResolution := false)
      ensures key == KeyR && !(old(notBlack && captured && capturing) && mode == Camera) && !old(notBlack && analysing) ==>
        Snapshot() == old(Snapshot()) && cornersCopy == old(cornersCopy)
      ensures key == OtherKey ==> Snapshot() == old(Snapshot()) && cornersCopy == old(cornersCopy)
      ensures Snapshot() == KeyUpStep(old(Snapshot()), mode, key)
      ensures Valid()
    {
      if key == Escape || key == KeyQ {
        running := false;
      } else if key == KeyR && notBlack {
        if captured && capturing && mode == Camera {
          ResetCapture();
        } else if analysing {
          ResetCrop();
        }
      }
      KeyUpKeepsInv(old(Snapshot()), mode, key);
    }

    /** One queued event. */
    method HandleEvent(e: Event, mouse: Point)
      requires Valid()
      modifies this
      ensures sheetCorners == old(sheetCorners)
      ensures cornersCopy == old(cornersCopy) || fresh(cornersCopy)
      ensures Snapshot() == EventStep(old(Snapshot()), mode, e, mouse)
      ensures Valid()
    {
      match e {
        case Quit => running := false;
        case MouseDown => OnMouseDown(mouse);
        case MouseUp => OnMouseUp();
        case KeyUp(key) => OnKeyUp(key);
        case OtherEvent =>
      }
    }

    /**
     * The queued events, in order; a quit does not stop the rest from being
     * handled, but the loop stops after the batch exactly when the batch
     * holds a quit, Esc or q (or it had stopped already).
     */
    method HandleEvents(events: seq<Event>, mouse: Point)
      requires Valid()
      modifies this
      ensures sheetCorners == old(sheetCorners)
      ensures cornersCopy == old(cornersCopy) || fresh(cornersCopy)
      ensures Snapshot() == EventSteps(old(Snapshot()), mode, events, mouse)
      ensures running <==> old(running) && forall i :: 0 <= i < |events| ==> !Ends(events[i])
      ensures Valid()
    {
      for n := 0 to |events|
        invariant Valid()
        invariant sheetCorners == old(sheetCorners)
        invariant cornersCopy == old(cornersCopy) || fresh(cornersCopy)
        invariant Snapshot() == EventSteps(old(Snapshot()), mode, events[..n], mouse)
      {
        HandleEvent(events[n], mouse);
        assert events[..n + 1][..n] == events[..n];
      }
      assert events[..|events|] == events;
      EventStepsRunning(old(Snapshot()), mode, events, mouse);
    }

    /**
     * One iteration of the main loop: detection, drawing, then the queued
     * events unless drawing raised. The detection's result is what the
     * detected corners hold at the end of the iteration.
     */
    method Tick(input: Input)
      requires Valid() && running
      modifies this, cornersCopy
      ensures cornersCopy == old(cornersCopy) || fresh(cornersCopy)
      ensures sheetCorners == old(sheetCorners) || fresh(sheetCorners)
      ensures var found := DetectStep(old(Snapshot()), mode, input.frame.notBlack, sheetCorners[..]);
        var shown := DisplayStep(found, input.mouse, input.overLabel, initialW, initialH, cameraHeight);
        Snapshot() == if shown.failed then shown else EventSteps(shown, mode, input.events, input.mouse)
      ensures old(capturing) && !old(captured) && input.frame.notBlack ==>
        SheetFound(input.frame.candidates, height, cameraHeight, sheetCorners[..])
      ensures failed ==> !running && old(analysing) && !old(imageCreated)
      ensures Valid()
    {
      Detect(input.frame);
      Display(input.mouse, input.overLabel);
      if !failed {
        ghost var shown := Snapshot();
        HandleEvents(input.events, input.mouse);
        EventStepsKeepDetection(shown, mode, input.events, input.mouse);
      }
    }

    /**
     * The main loop over a script of iterations: it runs while running is
     * set, and stops early when an event or an exception ends it.
     */
    method Run(inputs: seq<Input>) returns (done: nat)
      requires Valid()
      modifies this, cornersCopy
      ensures done <= |inputs|
      ensures done < |inputs| ==> !running
      ensures Valid()
    {
      done := 0;
      while running && done < |inputs|
        invariant Valid()
        invariant done <= |inputs|
        invariant cornersCopy == old(cornersCopy) || fresh(cornersCopy)
      {
        Tick(inputs[done]);
        done := done + 1;
      }
    }
  }
}
