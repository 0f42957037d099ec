/**
 * The earlier version of the scanner: a capture loop (live view, capture,
 * corner editing, crop) followed by a rotate loop, with the detected
 * corners themselves edited and rescaled in place.
 */
module ScannerDraft {
  import opened SheetGeometry
  import opened ScannerUi

  /**
   * Every field of a draft session at one instant, with the corner array
   * given by its contents.
   */
  datatype DraftState = DraftState(
    failed: bool, click: int, hovering: bool, captured: bool, cornerChanged: bool,
    imageCreated: bool, capturing: bool, analysing: bool, notBlack: bool,
    corners: seq<Point>, rotation: int, warped: Option<Warped>, finalImage: Option<Shown>,
    rotating: bool, rescales: nat)

  // ---------------------------------------------------------------------
  // The capture loop, step by step, on values

  /** Detection, given the corners it finds for a bright frame: it runs only until captured. */
  function CaptureDetectStep(s: DraftState, mode: Mode, bright: bool, found: seq<Point>): DraftState
  {
    if s.captured then s
    else if !bright then s.(notBlack := false)
    else s.(notBlack := true, captured := mode == Still, imageCreated := true, corners := found)
  }

  /**
   * The capture loop's drawing: hover read on a bright frame, the plain
   * picture made once after an edit, and the held corner dragged.
   */
  function CaptureViewStep(s: DraftState, mouse: Point, overLabel: bool): DraftState
  {
    s.(hovering := if s.notBlack then overLabel else s.hovering,
       imageCreated := s.imageCreated || (s.captured && s.cornerChanged),
       corners := Moved(s.corners, s.click, mouse))
  }

  /** A mouse-down: once captured, with corners and no corner held, the first corner hit becomes the held one. */
  function CaptureMouseDownStep(s: DraftState, mouse: Point): DraftState
  {
    if |s.corners| != 0 && s.click == 0 && s.captured then
      var hit := HitIndex(s.corners, mouse);
      if hit == -1 then s else s.(click := hit + 1, cornerChanged := true, imageCreated := false)
    else s
  }

  /** A mouse-up: capture, then crop, on the hovered label; release elsewhere. */
  function CaptureMouseUpStep(s: DraftState): DraftState
  {
    if !s.hovering then s.(click := 0)
    else if !s.captured then s.(captured := true)
    else s.(capturing := false, analysing := true)
  }

  function CaptureEventStep(s: DraftState, e: Event, mouse: Point): DraftState
  {
    match e
    case Quit => s.(capturing := false)
    case MouseDown => CaptureMouseDownStep(s, mouse)
    case MouseUp => CaptureMouseUpStep(s)
    case KeyUp(key) => if key == Escape || key == KeyQ then s.(capturing := false) else s
    case OtherEvent => s
  }

  /** The capture loop's queued events handled in order. */
  function CaptureSteps(s: DraftState, events: seq<Event>, mouse: Point): DraftState
  {
    if |events| == 0 then s
    else CaptureEventStep(CaptureSteps(s, events[..|events| - 1], mouse), events[|events| - 1], mouse)
  }

  /** A capture-loop mouse-down only picks the held corner. */
  lemma CaptureMouseDownFrame(s: DraftState, mouse: Point)
    ensures var t := CaptureMouseDownStep(s, mouse);
      t == s.(click := t.click, cornerChanged := t.cornerChanged, imageCreated := t.imageCreated)
  {
    if |s.corners| != 0 && s.click == 0 && s.captured {
      if HitIndex(s.corners, mouse) == -1 {
      } else {
      }
    }
  }

  /** A capture-loop mouse-up captures, crops or releases; nothing else. */
  lemma CaptureMouseUpFrame(s: DraftState)
    requires !(s.capturing && s.analysing)
    ensures var t := CaptureMouseUpStep(s);
      && t == s.(click := t.click, captured := t.captured, capturing := t.capturing, analysing := t.analysing)
      && (s.captured ==> t.captured) && (s.analysing ==> t.analysing)
      && t.capturing == (s.capturing && !(t.analysing && !s.analysing))
  {
    if !s.hovering {
    } else if !s.captured {
    } else {
    }
  }

  /** A quit ends the capture loop and changes nothing else. */
  lemma QuitFrame(s: DraftState, mouse: Point)
    requires !(s.capturing && s.analysing)
    ensures var t := CaptureEventStep(s, Quit, mouse);
      && t.corners == s.corners && t.hovering == s.hovering && t.notBlack == s.notBlack
      && t.rotating == s.rotating && t.rotation == s.rotation && t.rescales == s.rescales
      && t.warped == s.warped && t.finalImage == s.finalImage && t.failed == s.failed
      && (s.analysing ==> t.analysing)
      && (s.captured ==> t.captured)
      && t.capturing == (s.capturing && !Ends(Quit) && !(t.analysing && !s.analysing))
  {
  }

  /** A capture-loop mouse-down, as an event: only the corner pick. */
  lemma MouseDownEventFrame(s: DraftState, mouse: Point)
    requires !(s.capturing && s.analysing)
    ensures var t := CaptureEventStep(s, MouseDown, mouse);
      && t.corners == s.corners && t.hovering == s.hovering && t.notBlack == s.notBlack
      && t.rotating == s.rotating && t.rotation == s.rotation && t.rescales == s.rescales
      && t.warped == s.warped && t.finalImage == s.finalImage && t.failed == s.failed
      && (s.analysing ==> t.analysing)
      && (s.captured ==> t.captured)
      && t.capturing == (s.capturing && !Ends(MouseDown) && !(t.analysing && !s.analysing))
  {
    CaptureMouseDownFrame(s, mouse);
  }

  /** A capture-loop mouse-up, as an event: only the stage fields and the click. */
  lemma MouseUpEventFrame(s: DraftState, mouse: Point)
    requires !(s.capturing && s.analysing)
    ensures var t := CaptureEventStep(s, MouseUp, mouse);
      && t.corners == s.corners && t.hovering == s.hovering && t.notBlack == s.notBlack
      && t.rotating == s.rotating && t.rotation == s.rotation && t.rescales == s.rescales
      && t.warped == s.warped && t.finalImage == s.finalImage && t.failed == s.failed
      && (s.analysing ==> t.analysing)
      && (s.captured ==> t.captured)
      && t.capturing == (s.capturing && !Ends(MouseUp) && !(t.analysing && !s.analysing))
  {
    CaptureMouseUpFrame(s);
  }

  /** A capture-loop key release: Esc and q end the loop; other keys change nothing. */
  lemma KeyUpEventFrame(s: DraftState, key: Key, mouse: Point)
    requires !(s.capturing && s.analysing)
    ensures var t := CaptureEventStep(s, KeyUp(key), mouse);
      && t.corners == s.corners && t.hovering == s.hovering && t.notBlack == s.notBlack
      && t.rotating == s.rotating && t.rotation == s.rotation && t.rescales == s.rescales
      && t.warped == s.warped && t.finalImage == s.finalImage && t.failed == s.failed
      && (s.analysing ==> t.analysing)
      && (s.captured ==> t.captured)
      && t.capturing == (s.capturing && !Ends(KeyUp(key)) && !(t.analysing && !s.analysing))
  {
    if key == Escape || key == KeyQ {
      assert Ends(KeyUp(key)) && CaptureEventStep(s, KeyUp(key), mouse) == s.(capturing := false);
    } else {
      assert !Ends(KeyUp(key)) && CaptureEventStep(s, KeyUp(key), mouse) == s;
    }
  }

  /** What one capture event can change: never the corners, the hover state or anything of the rotate loop. */
  lemma CaptureEventFrame(s: DraftState, e: Event, mouse: Point)
    requires !(s.capturing && s.analysing)
    ensures var t := CaptureEventStep(s, e, mouse);
      && t.corners == s.corners && t.hovering == s.hovering && t.notBlack == s.notBlack
      && t.rotating == s.rotating && t.rotation == s.rotation && t.rescales == s.rescales
      && t.warped == s.warped && t.finalImage == s.finalImage && t.failed == s.failed
      && (s.analysing ==> t.analysing)
      && (s.captured ==> t.captured)
      && t.capturing == (s.capturing && !Ends(e) && !(t.analysing && !s.analysing))
  {
    match e {
      case Quit => QuitFrame(s, mouse);
      case MouseDown => MouseDownEventFrame(s, mouse);
      case MouseUp => MouseUpEventFrame(s, mouse);
      case KeyUp(key) => KeyUpEventFrame(s, key, mouse);
      case OtherEvent =>
    }
  }

  /**
   * Over a batch of capture events the loop goes on exactly when it was
   * going on, no quit, Esc or q came, and no crop click ended it. The
   * corners and the hover state are never touched, and captured is never
   * cleared.
   */
  lemma {:induction false} CaptureStepsOutcome(s: DraftState, events: seq<Event>, mouse: Point)
    requires !(s.capturing && s.analysing)
    ensures var t := CaptureSteps(s, events, mouse);
      && t.corners == s.corners && t.hovering == s.hovering && t.notBlack == s.notBlack
      && t.rotating == s.rotating && t.rotation == s.rotation && t.rescales == s.rescales
      && t.warped == s.warped && t.finalImage == s.finalImage && t.failed == s.failed
      && (s.captured ==> t.captured)
      && (s.analysing ==> t.analysing) && !(t.capturing && t.analysing)
      && t.capturing == (s.capturing && (forall i :: 0 <= i < |events| ==> !Ends(events[i]))
                         && !(t.analysing && !s.analysing))
  {
    if |events| != 0 {
      var front := events[..|events| - 1];
      CaptureStepsOutcome(s, front, mouse);
      CaptureEventFrame(CaptureSteps(s, front, mouse), events[|events| - 1], mouse);
      assert forall i :: 0 <= i < |front| ==> front[i] == events[i];
    }
  }

  /**
   * Only a mouse-up on the hovered label moves the stage on: it captures,
   * or, once captured, starts the crop. No other event sets either flag.
   */
  lemma CaptureEventStages(s: DraftState, e: Event, mouse: Point)
    ensures var t := CaptureEventStep(s, e, mouse);
      && t.captured == (s.captured || (e == MouseUp && s.hovering))
      && t.analysing == (s.analysing || (e == MouseUp && s.hovering && s.captured))
  {
    match e {
      case Quit =>
      case MouseDown => CaptureMouseDownFrame(s, mouse);
      case MouseUp =>
      case KeyUp(key) =>
      case OtherEvent =>
    }
  }

  /**
   * Over a batch of capture events, captured becomes set exactly when the
   * label is hovered and a mouse-up comes, and the crop starts exactly when
   * the label is hovered and a mouse-up comes once captured: one mouse-up
   * if the batch starts captured, two otherwise. A batch without a hovered
   * mouse-up never reaches the rotate loop, whatever quit it holds.
   */
  lemma {:induction false} CaptureStepsStages(s: DraftState, events: seq<Event>, mouse: Point)
    requires !(s.capturing && s.analysing)
    ensures var t := CaptureSteps(s, events, mouse);
      && t.captured == (s.captured || (s.hovering && MouseUps(events) >= 1))
      && t.analysing == (s.analysing || (s.hovering && MouseUps(events) >= (if s.captured then 1 else 2)))
  {
    if |events| != 0 {
      var front := events[..|events| - 1];
      CaptureStepsStages(s, front, mouse);
      CaptureStepsOutcome(s, front, mouse);
      CaptureEventStages(CaptureSteps(s, front, mouse), events[|events| - 1], mouse);
    }
  }

  /**
   * In one iteration of the capture loop, captured becomes set only by a
   * bright frame of a still image or by a mouse-up, and the crop starts only
   * by a mouse-up.
   */
  lemma CaptureIterationStages(s: DraftState, mode: Mode, bright: bool, found: seq<Point>,
                               mouse: Point, overLabel: bool, events: seq<Event>)
    requires !(s.capturing && s.analysing)
    ensures var t := CaptureSteps(CaptureViewStep(CaptureDetectStep(s, mode, bright, found), mouse, overLabel), events, mouse);
      && (!s.captured && t.captured ==> (bright && mode == Still) || MouseUps(events) >= 1)
      && (!s.analysing && t.analysing ==> MouseUps(events) >= 1)
  {
    CaptureStepsStages(CaptureViewStep(CaptureDetectStep(s, mode, bright, found), mouse, overLabel), events, mouse);
  }

  /**
   * After capture, an iteration of the capture loop changes the corners
   * only by dragging the held one: detection no longer runs.
   */
  lemma CapturedCornersOnlyDragged(s: DraftState, mode: Mode, bright: bool, found: seq<Point>,
                                   mouse: Point, overLabel: bool, events: seq<Event>)
    requires s.captured && !(s.capturing && s.analysing)
    ensures CaptureSteps(CaptureViewStep(CaptureDetectStep(s, mode, bright, found), mouse, overLabel), events, mouse).corners
            == Moved(s.corners, s.click, mouse)
  {
    CaptureStepsOutcome(CaptureViewStep(s, mouse, overLabel), events, mouse);
  }

  // ---------------------------------------------------------------------
  // The rotate loop, step by step, on values

  /**
   * The rotate loop's drawing when no picture is shown: at rotation 0 the
   * corners are rescaled to full resolution and warped (failing with no
   * corners); later the existing warp is turned (failing with no warp).
   */
  function RotateViewStep(s: DraftState, initialW: int, initialH: int, cameraHeight: int): DraftState
    requires cameraHeight >= 1
  {
    if s.imageCreated then s
    else if s.rotation == 0 then
      if |s.corners| != 4 then s.(failed := true)
      else
        var full := ScalePoints(s.corners, CAMERA_WIDTH, cameraHeight, initialW, initialH);
        s.(corners := full, imageCreated := true, rescales := s.rescales + 1,
           warped := Some(Warped(full, initialW, initialH)),
           finalImage := Some(Shown(Warped(full, initialW, initialH), DisplayAngle(0))))
    else if s.warped.None? then s.(failed := true)
    else s.(imageCreated := true, finalImage := Some(Shown(s.warped.value, DisplayAngle(s.rotation))))
  }

  /** One rotate-loop event: quit, Esc and q stop the loop; a mouse-up on the hovered label turns the picture. */
  function RotateEventStep(s: DraftState, e: Event): DraftState
  {
    if Ends(e) then s.(analysing := false)
    else if e == MouseUp && s.hovering then s.(imageCreated := false, rotation := s.rotation + 1)
    else s
  }

  /** How many mouse-ups a batch holds. */
  function MouseUps(events: seq<Event>): nat
  {
    if |events| == 0 then 0
    else MouseUps(events[..|events| - 1]) + (if events[|events| - 1] == MouseUp then 1 else 0)
  }

  /**
   * The rotate loop's queued events, in closed form: the loop stops when
   * a quit, Esc or q comes; each mouse-up on the hovered label is one more
   * quarter turn and asks for a new picture; nothing else changes.
   */
  function RotateEventsStep(s: DraftState, events: seq<Event>): DraftState
  {
    s.(analysing := s.analysing && forall i :: 0 <= i < |events| ==> !Ends(events[i]),
       rotation := s.rotation + (if s.hovering then MouseUps(events) else 0),
       imageCreated := s.imageCreated && !(s.hovering && MouseUp in events))
  }

  /** A batch with one more event holds no quit, Esc or q exactly when neither part does. */
  lemma NoEndsAppend(events: seq<Event>, e: Event)
    ensures (forall i :: 0 <= i < |events + [e]| ==> !Ends((events + [e])[i])) <==>
            (forall i :: 0 <= i < |events| ==> !Ends(events[i])) && !Ends(e)
  {
    var all := events + [e];
    assert forall i :: 0 <= i < |events| ==> all[i] == events[i];
    assert all[|events|] == e;
  }

  /** The closed form agrees with handling the events one by one. */
  lemma RotateEventsAppend(s: DraftState, events: seq<Event>, e: Event)
    ensures RotateEventsStep(s, events + [e]) == RotateEventStep(RotateEventsStep(s, events), e)
  {
    var all := events + [e];
    assert all[..|all| - 1] == events;
    NoEndsAppend(events, e);
    var t := RotateEventsStep(s, events);
    var u := RotateEventsStep(s, all);
    assert u.rotation == t.rotation + (if e == MouseUp && s.hovering then 1 else 0);
    assert u.imageCreated == (t.imageCreated && !(e == MouseUp && s.hovering));
    assert u.analysing == (t.analysing && !Ends(e));
  }

  class DraftSession {
    const mode: Mode
    const initialW: int
    const initialH: int
    const height: int
    const cameraHeight: int

    /** The rotate loop ended with an exception. */
    var failed: bool
    /** The corner being held, 1 to 4, or 0 for none. */
    var click: int
    var hovering: bool
    var captured: bool
    var cornerChanged: bool
    var imageCreated: bool
    /** The capture loop's condition. */
    var capturing: bool
    /** The rotate loop's condition. */
    var analysing: bool
    var notBlack: bool
    /** The detected corners, edited and rescaled in place; zero or four points. */
    var sheetCorners: array<Point>
    var rotation: int
    var warped: Option<Warped>
    var finalImage: Option<Shown>
    /** The capture loop is over and the rotate loop's set-up has run. */
    ghost var rotating: bool
    /** How many times the corners were rescaled to full resolution. */
    ghost var rescales: nat

    ghost function Snapshot(): DraftState
      reads this, sheetCorners
    {
      DraftState(failed, click, hovering, captured, cornerChanged, imageCreated, capturing, analysing,
                 notBlack, sheetCorners[..], rotation, warped, finalImage, rotating, rescales)
    }

    ghost predicate Valid()
      reads this
    {
      && initialW > 0 && initialH > 0 && height >= 1 && cameraHeight >= 1
      && (sheetCorners.Length == 0 || sheetCorners.Length == 4)
      && 0 <= click <= 4 && rotation >= 0
      // a corner is held or has been moved only after capture, and only when there are corners
      && (click != 0 ==> captured && sheetCorners.Length == 4)
      && (cornerChanged ==> captured && sheetCorners.Length == 4)
      && !(capturing && analysing)
      && (analysing ==> captured)
      && (rotating ==> !capturing)
      && (!rotating ==> rotation == 0 && rescales == 0 && warped.None? && finalImage.None? && !failed)
      // the full-resolution rescale and the warp happen together, at most once
      && rescales <= 1
      && (rescales == 1 <==> warped.Some?)
      && (rotating && rotation == 0 && !imageCreated ==> rescales == 0)
      && (rotating && !failed && (imageCreated || rotation > 0) ==> rescales == 1)
      && (rotating && imageCreated ==>
            warped.Some? && finalImage == Some(Shown(warped.value, DisplayAngle(rotation))))
      && (failed ==> rotating && rotation == 0 && !imageCreated)
    }

    constructor (mode: Mode, initialW: int, initialH: int)
      requires initialW > 0 && 2 * initialH * IMAGE_WIDTH > initialW
      ensures Valid() && fresh(sheetCorners)
      ensures this.mode == mode && this.initialW == initialW && this.initialH == initialH
      ensures height == ScaledHeight(initialW, initialH, IMAGE_WIDTH)
      ensures cameraHeight == ScaledHeight(initialW, initialH, CAMERA_WIDTH)
      ensures Snapshot() == DraftState(false, 0, false, false, false, false, true, false, false,
                                       [], 0, None, None, false, 0)
    {
      this.mode := mode;
      this.initialW := initialW;
      this.initialH := initialH;
      ScaledHeightPositive(initialW, initialH, IMAGE_WIDTH);
      ScaledHeightPositive(initialW, initialH, CAMERA_WIDTH);
      height := ScaledHeight(initialW, initialH, IMAGE_WIDTH);
      cameraHeight := ScaledHeight(initialW, initialH, CAMERA_WIDTH);
      failed := false;
      click := 0;
      hovering := false;
      captured := false;
      cornerChanged := false;
      imageCreated := false;
      capturing := true;
      analysing := false;
      notBlack := false;
      sheetCorners := new Point[0];
      rotation := 0;
      warped := None;
      finalImage := None;
      rotating := false;
      rescales := 0;
    }

    // -------------------------------------------------------------------
    // The capture loop

    /**
     * Detection, run until captured: the frame's brightness is recorded
     * and, unless it is black, the detected corners replace the previous
     * ones. A still image counts as captured after its first bright frame.
     */
    method CaptureDetect(frame: Frame)
      requires Valid() && capturing
      modifies this
      ensures Valid()
      ensures Snapshot() == CaptureDetectStep(old(Snapshot()), mode, frame.notBlack, sheetCorners[..])
      ensures !(!old(captured) && frame.notBlack) ==> sheetCorners == old(sheetCorners)
      ensures !old(captured) && frame.notBlack ==>
        fresh(sheetCorners) && SheetFound(frame.candidates, height, cameraHeight, sheetCorners[..])
    {
      if !captured {
        notBlack := frame.notBlack;
        if notBlack {
          var detected := DetectCorners(frame.candidates, height, cameraHeight);
          // captured is still false here, so this is "captured only for a still image"
          captured, sheetCorners, imageCreated := mode == Still, detected, true;
        }
      }
    }

    /**
     * The capture loop's drawing: the label's hover state is taken from the
     * pointer on a bright frame, the plain picture is made once after a
     * corner edit, and the held corner follows the pointer.
     */
    method CaptureView(mouse: Point, overLabel: bool)
      requires Valid() && capturing
      modifies this, sheetCorners
      ensures Valid() && sheetCorners == old(sheetCorners)
      ensures Snapshot() == CaptureViewStep(old(Snapshot()), mouse, overLabel)
    {
      if notBlack {
        hovering := overLabel;
      }
      if captured && cornerChanged && !imageCreated {
        imageCreated := true;
      }
      if sheetCorners.Length != 0 {
        Drag(sheetCorners, click, mouse);
      }
    }

    /**
     * Mouse-down in the capture loop, acted on once captured with corners
     * present and no corner held: the first corner whose handle contains
     * the pointer becomes the held one.
     */
    method CaptureMouseDown(mouse: Point)
      requires Valid() && !rotating
      modifies this
      ensures Valid() && sheetCorners == old(sheetCorners)
      ensures Snapshot() == CaptureMouseDownStep(old(Snapshot()), mouse)
    {
      if sheetCorners.Length != 0 && click == 0 && captured {
        var hit := PickCorner(sheetCorners, mouse);
        if hit != -1 {
          click := hit + 1;
          cornerChanged := true;
          imageCreated := false;
        }
      }
    }

    /**
     * Mouse-up in the capture loop: on the hovered label it captures, then
     * ends the loop for the crop; anywhere else it releases the held corner.
     */
    method CaptureMouseUp()
      requires Valid() && !rotating
      modifies this
      ensures Valid() && sheetCorners == old(sheetCorners)
      ensures Snapshot() == CaptureMouseUpStep(old(Snapshot()))
    {
      if hovering {
        if !captured {
          captured := true;
        } else {
          capturing := false;
          analysing := true;
        }
      } else {
        click := 0;
      }
    }

    /** One queued event of the capture loop; quit, Esc and q end the loop. */
    method CaptureEvent(e: Event, mouse: Point)
      requires Valid() && !rotating
      modifies this
      ensures Valid() && !rotating && sheetCorners == old(sheetCorners)
      ensures Snapshot() == CaptureEventStep(old(Snapshot()), e, mouse)
    {
      match e {
        case Quit => capturing := false;
        case MouseDown => CaptureMouseDown(mouse);
        case MouseUp => CaptureMouseUp();
        case KeyUp(key) =>
          if key == Escape || key == KeyQ {
            capturing := false;
          }
        case OtherEvent =>
      }
    }

    /**
     * The capture loop's queued events, in order. A quit, Esc or q anywhere
     * in the batch ends the loop; otherwise it ends only by the crop click.
     */
    method CaptureEvents(events: seq<Event>, mouse: Point)
      requires Valid() && !rotating
      modifies this
      ensures Valid() && !rotating && sheetCorners == old(sheetCorners)
      ensures Snapshot() == CaptureSteps(old(Snapshot()), events, mouse)
      ensures (exists i :: 0 <= i < |events| && Ends(events[i])) ==> !capturing
      ensures capturing == (old(capturing) && (forall i :: 0 <= i < |events| ==> !Ends(events[i]))
                            && !(analysing && !old(analysing)))
    {
      for n := 0 to |events|
        invariant Valid() && !rotating && sheetCorners == old(sheetCorners)
        invariant Snapshot() == CaptureSteps(old(Snapshot()), events[..n], mouse)
      {
        CaptureEvent(events[n], mouse);
        assert events[..n + 1][..n] == events[..n];
      }
      assert events[..|events|] == events;
      CaptureStepsOutcome(old(Snapshot()), events, mouse);
    }

    /**
     * One iteration of the capture loop: detection, drawing, then the
     * queued events. After capture the corners change only by dragging the
     * held one, and a quit, Esc or q ends the loop.
     */
    method CaptureTick(input: Input)
      requires Valid() && capturing
      modifies this, sheetCorners
      ensures Valid() && !rotating
      ensures sheetCorners == old(sheetCorners) || fresh(sheetCorners)
      ensures exists found ::
        && (!old(captured) && input.frame.notBlack ==> SheetFound(input.frame.candidates, height, cameraHeight, found))
        && Snapshot() == CaptureSteps(CaptureViewStep(CaptureDetectStep(old(Snapshot()), mode, input.frame.notBlack, found),
                                                      input.mouse, input.overLabel), input.events, input.mouse)
      ensures old(captured) ==> sheetCorners == old(sheetCorners)
      ensures old(captured) ==> forall i :: 0 <= i < sheetCorners.Length ==>
        sheetCorners[i] == (if old(click) == i + 1 then Dragged(old(sheetCorners[i]), input.mouse) else old(sheetCorners[i]))
      ensures (exists i :: 0 <= i < |input.events| && Ends(input.events[i])) ==> !capturing
    {
      CaptureDetect(input.frame);
      ghost var found := sheetCorners[..];
      CaptureView(input.mouse, input.overLabel);
      CaptureEvents(input.events, input.mouse);
      if old(captured) {
        CapturedCornersOnlyDragged(old(Snapshot()), mode, input.frame.notBlack, found,
                                   input.mouse, input.overLabel, input.events);
      }
    }

    // -------------------------------------------------------------------
    // Between the loops and the rotate loop

    /** Set-up of the rotate loop: no picture yet, no rotation. */
    method EndCapture()
      requires Valid() && !capturing && !rotating
      modifies this
      ensures Valid() && rotating && sheetCorners == old(sheetCorners)
      ensures Snapshot() == old(Snapshot()).(imageCreated := false, rotation := 0, rotating := true)
    {
      imageCreated := false;
      rotation := 0;
      rotating := true;
    }

    /**
     * The rotate loop's drawing when no picture is shown: on the first
     * iteration the corners are taken to full resolution in place and
     * warped (rescaling an empty corner array raises); afterwards the
     * existing warp is turned by the rotation.
     */
    method RotateView()
      requires Valid() && rotating && analysing && !failed && !imageCreated
      modifies this, sheetCorners
      ensures Valid() && sheetCorners == old(sheetCorners)
      ensures Snapshot() == RotateViewStep(old(Snapshot()), initialW, initialH, cameraHeight)
      ensures !failed ==> old(rotation) != 0 || rescales == 1
    {
      if rotation == 0 {
        if sheetCorners.Length != 4 {
          failed := true;
          return;
        }
        Rescale(sheetCorners, CAMERA_WIDTH, cameraHeight, initialW, initialH);
        rescales := rescales + 1;
        warped := Some(Warped(sheetCorners[..], initialW, initialH));
      }
      finalImage := Some(Shown(warped.value, DisplayAngle(rotation)));
      imageCreated := true;
    }

    /** One queued event of the rotate loop: quit, Esc and q end it; a mouse-up on the label turns the picture. */
    method RotateEvent(e: Event)
      requires Valid() && rotating && !failed && rescales == 1
      modifies this
      ensures Valid() && !failed && rotating && sheetCorners == old(sheetCorners)
      ensures Snapshot() == RotateEventStep(old(Snapshot()), e)
    {
      match e {
        case Quit => analysing := false;
        case MouseDown =>
        case MouseUp =>
          if hovering {
            imageCreated := false;
            rotation := rotation + 1;
          }
        case KeyUp(key) =>
          if key == Escape || key == KeyQ {
            analysing := false;
          }
        case OtherEvent =>
      }
    }

    /**
     * The rotate loop's queued events, in order: the loop stops on a quit,
     * Esc or q; the rotation grows by one for each mouse-up on the hovered
     * label and stays put when the label is not hovered.
     */
    method RotateEvents(events: seq<Event>)
      requires Valid() && rotating && !failed && rescales == 1
      modifies this
      ensures Valid() && !failed && rotating && sheetCorners == old(sheetCorners)
      ensures Snapshot() == RotateEventsStep(old(Snapshot()), events)
      ensures !old(hovering) ==> rotation == old(rotation)
    {
      for n := 0 to |events|
        invariant Valid() && !failed && rotating && sheetCorners == old(sheetCorners)
        invariant Snapshot() == RotateEventsStep(old(Snapshot()), events[..n])
      {
        assert events[..n + 1] == events[..n] + [events[n]];
        RotateEventsAppend(old(Snapshot()), events[..n], events[n]);
        RotateEvent(events[n]);
      }
      assert events[..|events|] == events;
    }

    /**
     * One iteration of the rotate loop: the picture (made when asked for),
     * the hover state, then the queued events unless the picture raised.
     * The rescale to full resolution and the warp run at most once over
     * the whole loop, on its first iteration.
     */
    method RotateTick(input: Input)
      requires Valid() && rotating && analysing && !failed
      modifies this, sheetCorners
      ensures Valid() && rotating && sheetCorners == old(sheetCorners)
      ensures var shown := RotateViewStep(old(Snapshot()), initialW, initialH, cameraHeight);
        Snapshot() == if shown.failed then shown else RotateEventsStep(shown.(hovering := input.overLabel), input.events)
      ensures rescales == 1 || failed
      ensures rescales > old(rescales) ==> old(rotation) == 0 && !old(imageCreated)
      ensures failed ==> old(rotation) == 0 && old(sheetCorners.Length) != 4
    {
      if !imageCreated {
        RotateView();
        if failed {
          return;
        }
      }
      hovering := input.overLabel;
      RotateEvents(input.events);
    }

    /**
     * The whole session over scripts of iterations for the two loops: the
     * capture loop runs while capturing, and the rotate loop, after its
     * set-up, while analysing; an exception ends it.
     */
    method Run(captureInputs: seq<Input>, rotateInputs: seq<Input>) returns (captureDone: nat, rotateDone: nat)
      requires Valid() && capturing && !rotating
      modifies this, sheetCorners
      ensures Valid()
      ensures captureDone <= |captureInputs| && rotateDone <= |rotateInputs|
      ensures captureDone < |captureInputs| ==> !capturing
      ensures rescales <= 1
      ensures rotateDone > 0 ==> rotating && (rescales == 1 || failed)
    {
      captureDone, rotateDone := 0, 0;
      while capturing && captureDone < |captureInputs|
        invariant Valid() && !rotating
        invariant captureDone <= |captureInputs|
        invariant sheetCorners == old(sheetCorners) || fresh(sheetCorners)
      {
        CaptureTick(captureInputs[captureDone]);
        captureDone := captureDone + 1;
      }
      if capturing {
        return;
      }
      EndCapture();
      while analysing && !failed && rotateDone < |rotateInputs|
        invariant Valid() && rotating
        invariant rotateDone <= |rotateInputs|
        invariant rotateDone > 0 ==> rescales == 1 || failed
        invariant sheetCorners == old(sheetCorners) || fresh(sheetCorners)
      {
        RotateTick(rotateInputs[rotateDone]);
        rotateDone := rotateDone + 1;
      }
    }
  }
}
