/**
 * The input controller of earth.js (buildInputController). It turns the noisy
 * zoomstart / zoom / zoomend events of the d3 zoom behaviour into moveStart,
 * move, click and debounced moveEnd events, and drives the globe's
 * manipulator.
 *
 * The pure function Step gives the effect of one event on the controller's
 * state; the class InputController runs the handlers imperatively and is
 * proved to agree with Step. The debounce timer is an explicit event,
 * DebounceFires, which the environment may deliver at any time.
 *
 * The controller is built before the globe exists and is handed one later
 * (GlobeSet); until then no operation can begin. The globe's projection is
 * rotated in place by drags, clicks and reorientation, so zoomend carries the
 * projection's invert as it is at that moment.
 */
module Gestures {
  import opened Wrappers
  import opened Fields
  import opened Projections

  /** MIN_MOVE: slack in pixels before a click becomes a drag. */
  const MinMove: int := 4

  /** Mouse distances are compared squared: d < MIN_MOVE iff d * d < MIN_MOVE * MIN_MOVE. */
  const MinMoveSquared: int := MinMove * MinMove

  function DistanceSquared(a: Point, b: Point): (r: nat)
    ensures r == 0 <==> a == b
  {
    var dx := a.x - b.x;
    var dy := a.y - b.y;
    assert dx * dx >= 0 && dy * dy >= 0;
    assert dx != 0 ==> dx * dx > 0;
    assert dy != 0 ==> dy * dy > 0;
    dx * dx + dy * dy
  }

  /** op.type: an operation starts as a click until the mouse or the scale moves. */
  datatype Kind = Click | Spurious | Drag | Zoom

  /** One move operation: its type and where it started. */
  datatype Op = Op(kind: Kind, startMouse: Point, startScale: real)

  /** The events the controller emits through its dispatcher. */
  datatype Emit =
    | MoveStart
    | Move
    | Clicked(mouse: Point, coord: Option<Geo>)
    | MoveEnd

  /** The calls the controller makes on the globe's manipulator. */
  datatype Manip =
    | Begin(mouse: Point, scale: real)      // globe.manipulator(startMouse, startScale)
    | MoveTo(at: Option<Point>, scale: real)
    | Finish                                // manipulator.end()

  /**
   * The events the controller reacts to. ZoomEnd carries globe.projection.invert
   * as it is when zoomend fires. GlobeSet is inputController.globe(globe).
   * Reoriented is a change of the configured orientation, and says whether the
   * change came from the controller's own moveEnd.
   */
  datatype Event =
    | ZoomStart(mouse: Point, scale: real)
    | ZoomMove(mouse: Point, scale: real)
    | ZoomEnd(invert: Point -> Option<Geo>)
    | DebounceFires
    | GlobeSet
    | Reoriented(fromMoveEnd: bool)

  /**
   * The controller's state: the live operation, whether a debounced signalEnd
   * is scheduled, and whether a globe has been set.
   */
  datatype Controller = Controller(op: Option<Op>, endPending: bool, globe: bool)

  /** The effect of one or more events: the new state, the events emitted, the manipulator calls. */
  datatype Output = Output(state: Controller, emitted: seq<Emit>, calls: seq<Manip>)

  /** The state buildInputController starts in: no operation, nothing scheduled, globe null. */
  const Idle := Controller(None, false, false)

  /** The events that come from d3's zoom behaviour and the debounce timer. */
  predicate IsGesture(e: Event)
  {
    e.ZoomStart? || e.ZoomMove? || e.ZoomEnd? || e.DebounceFires?
  }

  /** An operation or a scheduled signalEnd can only exist once there is a globe. */
  predicate Consistent(c: Controller)
  {
    (c.op.Some? || c.endPending) ==> c.globe
  }

  function NewOp(mouse: Point, scale: real): (r: Op)
    ensures !IsMoving(r.kind) && r.startMouse == mouse && r.startScale == scale
  {
    Op(Click, mouse, scale)
  }

  predicate IsMoving(k: Kind)
  {
    k == Drag || k == Zoom
  }

  /** A drag or zoom operation is under way. */
  predicate LiveMove(c: Controller)
  {
    c.op.Some? && IsMoving(c.op.value.kind)
  }

  /** Not yet a drag, and the mouse and scale are close enough to the start to stay a click. */
  predicate WithinSlack(op: Op, mouse: Point, scale: real)
  {
    scale == op.startScale && DistanceSquared(mouse, op.startMouse) < MinMoveSquared
  }

  /** The zoom handler after the click-or-spurious test: the operation moves the globe. */
  function Moved(c: Controller, op: Op, mouse: Point, scale: real, pre: seq<Emit>, begun: seq<Manip>): (r: Output)
    ensures LiveMove(r.state) && r.state.endPending == c.endPending && r.state.globe == c.globe
    ensures r.state.op.value.startMouse == op.startMouse && r.state.op.value.startScale == op.startScale
    ensures r.state.op.value.kind == Zoom <==> scale != op.startScale || op.kind == Zoom
    ensures r.emitted == pre + [Move]
    ensures r.calls == begun + [MoveTo(if r.state.op.value.kind == Zoom then None else Some(mouse), scale)]
  {
    var kind := if scale != op.startScale then Zoom else if IsMoving(op.kind) then op.kind else Drag;
    Output(Controller(Some(op.(kind := kind)), c.endPending, c.globe),
           pre + [Move],
           begun + [MoveTo(if kind == Zoom then None else Some(mouse), scale)])
  }

  /**
   * One event. Where the handler would throw before changing anything, the
   * event is ignored: newOp with no globe yet fails on globe.manipulator, and a
   * zoomend with no live operation fails on op.manipulator.
   */
  function Step(c: Controller, e: Event): (r: Output)
    ensures e.ZoomEnd? ==> r.state.op.None?
    ensures e.DebounceFires? ==> !r.state.endPending
    ensures !e.ZoomMove? ==> Move !in r.emitted
    ensures r.state.globe == (c.globe || e.GlobeSet?)
    ensures Consistent(c) ==> Consistent(r.state)
    ensures Consistent(c) && !c.globe && IsGesture(e) ==> r == Output(c, [], [])
  {
    match e
    case ZoomStart(mouse, scale) =>
      if c.op.Some? || !c.globe then Output(c, [], [])
      else Output(Controller(Some(NewOp(mouse, scale)), c.endPending, c.globe), [], [Begin(mouse, scale)])
    case ZoomMove(mouse, scale) =>
      if c.op.None? && !c.globe then Output(c, [], []) else
      // zoomstart may arrive after zoom on some browsers: start the operation at scale 1
      var op := if c.op.Some? then c.op.value else NewOp(mouse, 1.0);
      var begun := if c.op.Some? then [] else [Begin(mouse, 1.0)];
      if IsMoving(op.kind) then Moved(c, op, mouse, scale, [], begun)
      else if WithinSlack(op, mouse, scale) then
        var kind := if DistanceSquared(mouse, op.startMouse) > 0 then Click else Spurious;
        Output(Controller(Some(op.(kind := kind)), c.endPending, c.globe), [], begun)
      else Moved(c, op, mouse, scale, [MoveStart], begun)
    case ZoomEnd(invert) =>
      if c.op.None? then Output(c, [], [])
      else
        var op := c.op.value;
        Output(Controller(None, c.endPending || IsMoving(op.kind), c.globe),
               if op.kind == Click then [Clicked(op.startMouse, invert(op.startMouse))] else [],
               [Finish])
    case DebounceFires =>
      if !c.endPending then Output(c, [], [])
      else Output(Controller(c.op, false, c.globe), if LiveMove(c) then [] else [MoveEnd], [])
    case GlobeSet =>
      // the new globe is reoriented straight away, with no source option
      Output(c.(globe := true), [MoveStart, MoveEnd], [])
    case Reoriented(fromMoveEnd) =>
      Output(c, if c.globe && !fromMoveEnd then [MoveStart, MoveEnd] else [], [])
  }

  /** A sequence of events, in order. */
  function Run(c: Controller, es: seq<Event>): (r: Output)
    decreases |es|
  {
    if |es| == 0 then Output(c, [], [])
    else
      var h := Step(c, es[0]);
      var t := Run(h.state, es[1..]);
      Output(t.state, h.emitted + t.emitted, h.calls + t.calls)
  }

  // ---------------------------------------------------------------------------
  // One event

  /**
   * While a click or spurious operation stays within the slack, a zoom event
   * only reclassifies it: click if the mouse is off the start, spurious if it
   * is exactly on it. Nothing is emitted and the manipulator is not moved.
   */
  lemma SlackZoomIsSilent(c: Controller, mouse: Point, scale: real)
    requires c.op.Some? && !IsMoving(c.op.value.kind) && WithinSlack(c.op.value, mouse, scale)
    ensures var r := Step(c, ZoomMove(mouse, scale));
      && r.emitted == [] && r.calls == []
      && r.state.endPending == c.endPending
      && r.state.op == Some(c.op.value.(kind := if mouse != c.op.value.startMouse then Click else Spurious))
  {
  }

  /**
   * A zoom event emits moveStart exactly when it turns a click or spurious
   * operation into a drag or zoom; whenever it leaves a drag or zoom live it
   * emits move and nothing else after that moveStart.
   */
  lemma ZoomEventEmits(c: Controller, mouse: Point, scale: real)
    ensures var r := Step(c, ZoomMove(mouse, scale));
      && (MoveStart in r.emitted <==> !LiveMove(c) && LiveMove(r.state))
      && (LiveMove(c) ==> r.emitted == [Move])
      && (LiveMove(r.state) <==> r.emitted == [Move] || r.emitted == [MoveStart, Move])
      && (!LiveMove(r.state) ==> r.emitted == [])
  {
  }

  /**
   * A scale different from the operation's start scale makes it a zoom, and
   * the manipulator then gets no mouse position.
   */
  lemma ScaleChangeIsZoom(c: Controller, mouse: Point, scale: real)
    requires c.op.Some? && scale != c.op.value.startScale
    ensures var r := Step(c, ZoomMove(mouse, scale));
      r.state.op == Some(c.op.value.(kind := Zoom)) && r.calls == [MoveTo(None, scale)]
  {
  }

  /**
   * zoomend: a click emits click with the start position and its coordinates,
   * a spurious operation emits nothing, a drag or zoom schedules signalEnd;
   * the operation is over in every case. The coordinates are those of the
   * projection as it is at zoomend.
   */
  lemma ZoomEndOutcome(c: Controller, invert: Point -> Option<Geo>)
    requires c.op.Some?
    ensures var r := Step(c, ZoomEnd(invert));
      && r.state.op.None?
      && r.calls == [Finish]
      && (c.op.value.kind == Click ==>
            r.emitted == [Clicked(c.op.value.startMouse, invert(c.op.value.startMouse))] && r.state.endPending == c.endPending)
      && (c.op.value.kind == Spurious ==> r.emitted == [] && r.state.endPending == c.endPending)
      && (IsMoving(c.op.value.kind) ==> r.emitted == [] && r.state.endPending)
  {
  }

  /** The debounced signalEnd emits moveEnd only if it was scheduled and no drag or zoom is live. */
  lemma DebounceOutcome(c: Controller)
    ensures var r := Step(c, DebounceFires);
      && (r.emitted == [MoveEnd] <==> c.endPending && !LiveMove(c))
      && (r.emitted == [] <==> !(c.endPending && !LiveMove(c)))
      && r.state.op == c.op && !r.state.endPending && r.calls == []
  {
  }

  // ---------------------------------------------------------------------------
  // Runs within one operation

  /** Events that arrive while an operation is under way and do not end it. */
  predicate Continues(e: Event)
  {
    e.ZoomStart? || e.ZoomMove?
  }

  function CountOf(log: seq<Emit>, e: Emit): nat
  {
    if |log| == 0 then 0 else (if log[0] == e then 1 else 0) + CountOf(log[1..], e)
  }

  lemma {:induction false} CountOfAppend(a: seq<Emit>, b: seq<Emit>, e: Emit)
    ensures CountOf(a + b, e) == CountOf(a, e) + CountOf(b, e)
  {
    if |a| == 0 {
      assert a + b == b;
    } else {
      assert (a + b)[1..] == a[1..] + b;
      CountOfAppend(a[1..], b, e);
    }
  }

  /**
   * Once a drag or zoom is live it stays live until zoomend, emits only move
   * events, and a zoom stays a zoom whose manipulator moves carry no mouse position.
   */
  lemma {:induction false} LiveRun(c: Controller, es: seq<Event>)
    requires LiveMove(c) && forall i :: 0 <= i < |es| ==> Continues(es[i])
    ensures var r := Run(c, es);
      && LiveMove(r.state)
      && r.state.op.value.startMouse == c.op.value.startMouse
      && r.state.op.value.startScale == c.op.value.startScale
      && r.state.endPending == c.endPending
      && (forall i :: 0 <= i < |r.emitted| ==> r.emitted[i] == Move)
      && (c.op.value.kind == Zoom ==>
            r.state.op.value.kind == Zoom && forall i :: 0 <= i < |r.calls| ==> r.calls[i].MoveTo? && r.calls[i].at.None?)
    decreases |es|
  {
    if |es| > 0 {
      var h := Step(c, es[0]);
      LiveRun(h.state, es[1..]);
    }
  }

  /** An operation emits moveStart at most once, however many zoom events it sees. */
  lemma {:induction false} OneMoveStartPerOp(c: Controller, es: seq<Event>)
    requires c.op.Some? && forall i :: 0 <= i < |es| ==> Continues(es[i])
    ensures var r := Run(c, es);
      && r.state.op.Some?
      && CountOf(r.emitted, MoveStart) <= (if LiveMove(c) then 0 else 1)
    decreases |es|
  {
    if |es| > 0 {
      var h := Step(c, es[0]);
      var t := Run(h.state, es[1..]);
      CountOfAppend(h.emitted, t.emitted, MoveStart);
      if LiveMove(h.state) {
        LiveRun(h.state, es[1..]);
        NoneEqual(t.emitted, MoveStart);
      } else {
        OneMoveStartPerOp(h.state, es[1..]);
      }
    }
  }

  lemma {:induction false} NoneEqual(log: seq<Emit>, e: Emit)
    requires e != Move && forall i :: 0 <= i < |log| ==> log[i] == Move
    ensures CountOf(log, e) == 0
  {
    if |log| > 0 {
      NoneEqual(log[1..], e);
    }
  }

  /** zoomstart, zoom events at the start scale each within the slack of the start, zoomend. */
  function ClickEvents(start: Point, scale: real, moves: seq<Point>, invert: Point -> Option<Geo>): seq<Event>
  {
    [ZoomStart(start, scale)] + MovesAt(moves, scale) + [ZoomEnd(invert)]
  }

  function MovesAt(moves: seq<Point>, scale: real): (r: seq<Event>)
    ensures |r| == |moves|
    ensures forall i :: 0 <= i < |moves| ==> r[i] == ZoomMove(moves[i], scale)
  {
    if |moves| == 0 then [] else [ZoomMove(moves[0], scale)] + MovesAt(moves[1..], scale)
  }

  /**
   * A gesture that never leaves the slack is a click when the mouse was
   * released off the start or never moved, and spurious (no event at all) when
   * its last zoom event was exactly on the start; the manipulator is only
   * created and ended.
   */
  lemma ClickGesture(c: Controller, start: Point, scale: real, moves: seq<Point>, invert: Point -> Option<Geo>)
    requires c.op.None? && c.globe
    requires forall i :: 0 <= i < |moves| ==> DistanceSquared(moves[i], start) < MinMoveSquared
    ensures var r := Run(c, ClickEvents(start, scale, moves, invert));
      && r.state == c
      && r.calls == [Begin(start, scale), Finish]
      && r.emitted == if |moves| == 0 || moves[|moves| - 1] != start then [Clicked(start, invert(start))] else []
  {
    var op := NewOp(start, scale);
    var es := ClickEvents(start, scale, moves, invert);
    assert es[1..] == MovesAt(moves, scale) + [ZoomEnd(invert)];
    var c1 := Controller(Some(op), c.endPending, c.globe);
    assert Step(c, es[0]) == Output(c1, [], [Begin(start, scale)]);
    SlackMoves(c1, start, scale, moves, [ZoomEnd(invert)]);
  }

  /** The zoom events of a click gesture, followed by `rest`. */
  lemma {:induction false} SlackMoves(c: Controller, start: Point, scale: real, moves: seq<Point>,
                                      rest: seq<Event>)
    requires c.op.Some? && !IsMoving(c.op.value.kind)
    requires c.op.value.startMouse == start && c.op.value.startScale == scale
    requires forall i :: 0 <= i < |moves| ==> DistanceSquared(moves[i], start) < MinMoveSquared
    ensures var kind := if |moves| == 0 then c.op.value.kind
                        else if moves[|moves| - 1] != start then Click else Spurious;
      Run(c, MovesAt(moves, scale) + rest) == Run(Controller(Some(c.op.value.(kind := kind)), c.endPending, c.globe), rest)
    decreases |moves|
  {
    if |moves| > 0 {
      var es := MovesAt(moves, scale) + rest;
      assert es[0] == ZoomMove(moves[0], scale);
      assert es[1..] == MovesAt(moves[1..], scale) + rest;
      SlackZoomIsSilent(c, moves[0], scale);
      var h := Step(c, es[0]);
      var t := Run(h.state, es[1..]);
      assert Run(c, es) == Output(t.state, h.emitted + t.emitted, h.calls + t.calls);
      assert h.emitted + t.emitted == t.emitted && h.calls + t.calls == t.calls;
      SlackMoves(h.state, start, scale, moves[1..], rest);
      var kind := if moves[|moves| - 1] != start then Click else Spurious;
      var kind1 := if |moves| == 1 then h.state.op.value.kind
                   else if moves[1..][|moves[1..]| - 1] != start then Click else Spurious;
      assert kind1 == kind;
      assert h.state.op.value.(kind := kind1) == c.op.value.(kind := kind);
      assert h.state.endPending == c.endPending && h.state.globe == c.globe;
    } else {
      assert MovesAt(moves, scale) + rest == rest;
    }
  }

  // ---------------------------------------------------------------------------
  // Traces: every move and moveEnd belongs to an open move

  /**
   * Reads a log from the front, starting with a move open or not: None if a
   * move or moveEnd comes while no move is open, otherwise whether a move is
   * open at the end.
   */
  function Scan(open: bool, log: seq<Emit>): Option<bool>
    decreases |log|
  {
    if |log| == 0 then Some(open)
    else if (log[0] == Move || log[0] == MoveEnd) && !open then None
    else Scan(if log[0] == MoveStart then true else if log[0] == MoveEnd then false else open, log[1..])
  }

  /** Every move and every moveEnd in the log comes after a moveStart that no moveEnd has closed. */
  predicate Balanced(log: seq<Emit>)
  {
    Scan(false, log).Some?
  }

  lemma {:induction false} ScanAppend(open: bool, a: seq<Emit>, b: seq<Emit>)
    ensures Scan(open, a + b) == if Scan(open, a).None? then None else Scan(Scan(open, a).value, b)
    decreases |a|
  {
    if |a| == 0 {
      assert a + b == b;
    } else {
      assert (a + b)[1..] == a[1..] + b;
      var next := if a[0] == MoveStart then true else if a[0] == MoveEnd then false else open;
      ScanAppend(next, a[1..], b);
    }
  }

  /** A scheduled moveEnd and a live drag or zoom both have an open move to end. */
  predicate Accounted(c: Controller, open: bool)
  {
    (c.endPending ==> open) && (LiveMove(c) ==> open)
  }

  /** Scan over the logs a single event can emit. */
  lemma ScanShort(open: bool, e: Emit)
    ensures Scan(open, []) == Some(open)
    ensures Scan(open, [e]) == if (e == Move || e == MoveEnd) && !open then None
                              else Some(if e == MoveStart then true else if e == MoveEnd then false else open)
    ensures Scan(open, [MoveStart, Move]) == Some(true)
  {
    assert [MoveStart, Move][1..] == [Move];
    assert [e][1..] == [];
    assert [Move][1..] == [];
  }

  /** One gesture or timer event keeps the log balanced and every open obligation accounted for. */
  lemma StepKeepsBalance(c: Controller, e: Event, open: bool)
    requires IsGesture(e) && Accounted(c, open)
    ensures var r := Step(c, e);
      Scan(open, r.emitted).Some? && Accounted(r.state, Scan(open, r.emitted).value)
  {
    match e
    case ZoomStart(_, _) =>
      ScanShort(open, Move);
    case ZoomMove(mouse, scale) =>
      ZoomKeepsBalance(c, mouse, scale, open);
    case ZoomEnd(_) =>
      var r := Step(c, e);
      ScanShort(open, if r.emitted == [] then Move else r.emitted[0]);
    case DebounceFires =>
      ScanShort(open, MoveEnd);
  }

  lemma ZoomKeepsBalance(c: Controller, mouse: Point, scale: real, open: bool)
    requires Accounted(c, open)
    ensures var r := Step(c, ZoomMove(mouse, scale));
      Scan(open, r.emitted).Some? && Accounted(r.state, Scan(open, r.emitted).value)
  {
    var r := Step(c, ZoomMove(mouse, scale));
    ZoomEventEmits(c, mouse, scale);
    assert r.state.endPending == c.endPending;
    ScanShort(open, Move);
    if LiveMove(c) {
      assert r.emitted == [Move] && LiveMove(r.state);
    } else if LiveMove(r.state) {
      assert r.emitted == [MoveStart, Move];
    } else {
      assert r.emitted == [];
    }
  }

  /**
   * Any sequence of gesture and timer events extends a balanced log to a
   * balanced log, as long as the state's obligations are accounted for.
   */
  lemma {:induction false} GestureTracesBalanced(c: Controller, open: bool, es: seq<Event>)
    requires Accounted(c, open)
    requires forall i :: 0 <= i < |es| ==> IsGesture(es[i])
    ensures var r := Run(c, es);
      Scan(open, r.emitted).Some? && Accounted(r.state, Scan(open, r.emitted).value)
    decreases |es|
  {
    if |es| > 0 {
      var h := Step(c, es[0]);
      StepKeepsBalance(c, es[0], open);
      var open' := Scan(open, h.emitted).value;
      GestureTracesBalanced(h.state, open', es[1..]);
      ScanAppend(open, h.emitted, Run(h.state, es[1..]).emitted);
    }
  }

  /** Until a globe is set, gestures neither begin an operation nor emit nor call anything. */
  lemma {:induction false} BeforeGlobe(c: Controller, before: seq<Event>, rest: seq<Event>)
    requires Consistent(c) && !c.globe
    requires forall i :: 0 <= i < |before| ==> IsGesture(before[i])
    ensures Run(c, before + rest) == Run(c, rest)
    decreases |before|
  {
    if |before| == 0 {
      assert before + rest == rest;
    } else {
      var es := before + rest;
      assert es[0] == before[0] && es[1..] == before[1..] + rest;
      assert Step(c, es[0]) == Output(c, [], []);
      BeforeGlobe(c, before[1..], rest);
    }
  }

  /**
   * The page's run: gestures before the globe exists, the globe being set,
   * then any gestures and timer events. The log is balanced: every move and
   * every moveEnd comes after a moveStart that no earlier moveEnd has closed.
   */
  lemma IdleTracesBalanced(before: seq<Event>, after: seq<Event>)
    requires forall i :: 0 <= i < |before| ==> IsGesture(before[i])
    requires forall i :: 0 <= i < |after| ==> IsGesture(after[i])
    ensures Balanced(Run(Idle, before + [GlobeSet] + after).emitted)
  {
    var rest := [GlobeSet] + after;
    assert before + [GlobeSet] + after == before + rest;
    BeforeGlobe(Idle, before, rest);
    GlobeThenGestures(after);
  }

  /** Setting the globe emits moveStart, moveEnd and leaves nothing open; gestures follow. */
  lemma GlobeThenGestures(after: seq<Event>)
    requires forall i :: 0 <= i < |after| ==> IsGesture(after[i])
    ensures Balanced(Run(Idle, [GlobeSet] + after).emitted)
  {
    var ready := Controller(None, false, true);
    var es := [GlobeSet] + after;
    assert es[0] == GlobeSet && es[1..] == after;
    assert Step(Idle, GlobeSet) == Output(ready, [MoveStart, MoveEnd], []);
    var t := Run(ready, after);
    assert Run(Idle, es).emitted == [MoveStart, MoveEnd] + t.emitted;
    GestureTracesBalanced(ready, false, after);
    ScanAppend(false, [MoveStart, MoveEnd], t.emitted);
    assert [MoveStart, MoveEnd][1..] == [MoveEnd];
    assert [MoveEnd][1..] == [];
  }

  /**
   * The log is balanced but not one moveEnd per moveStart: a second drag begun
   * before the first one's debounced signalEnd has fired emits a second
   * moveStart, and one moveEnd follows both.
   */
  lemma SecondDragInsideWait(invert: Point -> Option<Geo>)
    ensures var p, far := Point(0, 0), Point(10, 0);
      var r := Run(Controller(None, false, true),
                   [ZoomStart(p, 1.0), ZoomMove(far, 1.0), ZoomEnd(invert),
                    ZoomStart(p, 1.0), ZoomMove(far, 1.0), ZoomEnd(invert), DebounceFires]);
      r.emitted == [MoveStart, Move, MoveStart, Move, MoveEnd]
      && CountOf(r.emitted, MoveStart) == 2 && CountOf(r.emitted, MoveEnd) == 1
  {
    TwoDrags(invert);
    var log := [MoveStart, Move, MoveStart, Move, MoveEnd];
    assert log[1..] == [Move, MoveStart, Move, MoveEnd];
    assert log[1..][1..] == [MoveStart, Move, MoveEnd];
    assert log[1..][1..][1..] == [Move, MoveEnd];
    assert log[1..][1..][1..][1..] == [MoveEnd];
    assert log[1..][1..][1..][1..][1..] == [];
  }

  /** The log of two drags the debounce timer does not separate. */
  lemma TwoDrags(invert: Point -> Option<Geo>)
    ensures var p, far := Point(0, 0), Point(10, 0);
      Run(Controller(None, false, true),
          [ZoomStart(p, 1.0), ZoomMove(far, 1.0), ZoomEnd(invert),
           ZoomStart(p, 1.0), ZoomMove(far, 1.0), ZoomEnd(invert), DebounceFires]).emitted
        == [MoveStart, Move, MoveStart, Move, MoveEnd]
  {
    var p, far := Point(0, 0), Point(10, 0);
    var tail := [ZoomStart(p, 1.0), ZoomMove(far, 1.0), ZoomEnd(invert), DebounceFires];
    SecondDrag(p, far, invert);
    DragThen(Controller(None, false, true), p, far, invert, tail);
    assert [ZoomStart(p, 1.0), ZoomMove(far, 1.0), ZoomEnd(invert)] + tail ==
           [ZoomStart(p, 1.0), ZoomMove(far, 1.0), ZoomEnd(invert),
            ZoomStart(p, 1.0), ZoomMove(far, 1.0), ZoomEnd(invert), DebounceFires];
  }

  /** The second drag, begun while the first one's signalEnd is pending, and the timer. */
  lemma SecondDrag(p: Point, far: Point, invert: Point -> Option<Geo>)
    requires DistanceSquared(far, p) >= MinMoveSquared
    ensures Run(Controller(None, true, true),
                [ZoomStart(p, 1.0), ZoomMove(far, 1.0), ZoomEnd(invert), DebounceFires]).emitted
              == [MoveStart, Move, MoveEnd]
  {
    var fire: seq<Event> := [DebounceFires];
    DragThen(Controller(None, true, true), p, far, invert, fire);
    assert fire[1..] == [];
    assert Run(Controller(None, true, true), fire).emitted == [MoveEnd];
    assert [ZoomStart(p, 1.0), ZoomMove(far, 1.0), ZoomEnd(invert)] + fire ==
           [ZoomStart(p, 1.0), ZoomMove(far, 1.0), ZoomEnd(invert), DebounceFires];
  }

  /** One drag from p to far, then rest: moveStart, move, and a scheduled signalEnd. */
  lemma DragThen(c: Controller, p: Point, far: Point, invert: Point -> Option<Geo>, rest: seq<Event>)
    requires c.op.None? && c.globe && DistanceSquared(far, p) >= MinMoveSquared
    ensures Run(c, [ZoomStart(p, 1.0), ZoomMove(far, 1.0), ZoomEnd(invert)] + rest).emitted
              == [MoveStart, Move] + Run(Controller(None, true, true), rest).emitted
  {
    var s1 := Controller(Some(NewOp(p, 1.0)), c.endPending, true);
    var s2 := Controller(Some(Op(Drag, p, 1.0)), c.endPending, true);
    var e3 := [ZoomEnd(invert)] + rest;
    var e2 := [ZoomMove(far, 1.0)] + e3;
    assert [ZoomStart(p, 1.0)] + e2 == [ZoomStart(p, 1.0), ZoomMove(far, 1.0), ZoomEnd(invert)] + rest;
    DragEnds(s2, invert, rest);
    DragMoves(s1, far, e3);
    RunCons(c, ZoomStart(p, 1.0), e2);
    assert Step(c, ZoomStart(p, 1.0)) == Output(s1, [], [Begin(p, 1.0)]);
  }

  /** The first zoom event beyond the slack turns the click into a drag. */
  lemma DragMoves(s1: Controller, far: Point, rest: seq<Event>)
    requires s1.op.Some? && s1.op.value.kind == Click && s1.op.value.startScale == 1.0
    requires DistanceSquared(far, s1.op.value.startMouse) >= MinMoveSquared
    ensures Run(s1, [ZoomMove(far, 1.0)] + rest).emitted
              == [MoveStart, Move] + Run(Controller(Some(s1.op.value.(kind := Drag)), s1.endPending, s1.globe), rest).emitted
  {
    RunCons(s1, ZoomMove(far, 1.0), rest);
    var r := Step(s1, ZoomMove(far, 1.0));
    assert r.state == Controller(Some(s1.op.value.(kind := Drag)), s1.endPending, s1.globe);
    assert r.emitted == [MoveStart, Move];
  }

  /** zoomend of a drag schedules signalEnd. */
  lemma DragEnds(s2: Controller, invert: Point -> Option<Geo>, rest: seq<Event>)
    requires s2.op.Some? && s2.op.value.kind == Drag
    ensures Run(s2, [ZoomEnd(invert)] + rest).emitted == Run(Controller(None, true, s2.globe), rest).emitted
  {
    RunCons(s2, ZoomEnd(invert), rest);
    assert Step(s2, ZoomEnd(invert)) == Output(Controller(None, true, s2.globe), [], [Finish]);
  }

  /** Run unfolded once. */
  lemma RunCons(c: Controller, e: Event, rest: seq<Event>)
    ensures var h := Step(c, e);
      Run(c, [e] + rest).emitted == h.emitted + Run(h.state, rest).emitted
  {
    assert ([e] + rest)[0] == e && ([e] + rest)[1..] == rest;
  }

  // ---------------------------------------------------------------------------
  // The controller as the page runs it

  /**
   * The handlers and the closure variables op and globe of
   * buildInputController. emitted is what the dispatcher has triggered so far,
   * calls what the manipulators have been asked to do.
   */
  class InputController {
    var op: Option<Op>
    var endPending: bool
    var globe: bool
    var emitted: seq<Emit>
    var calls: seq<Manip>

    function State(): Controller
      reads this
    {
      Controller(op, endPending, globe)
    }

    constructor ()
      ensures State() == Idle && emitted == [] && calls == []
    {
      op := None;
      endPending := false;
      globe := false;
      emitted := [];
      calls := [];
    }

    /** zoomstart: op = op || newOp(mouse, scale). */
    method OnZoomStart(mouse: Point, scale: real)
      modifies this
      ensures var r := Step(old(State()), ZoomStart(mouse, scale));
        State() == r.state && emitted == old(emitted) + r.emitted && calls == old(calls) + r.calls
    {
      if op.None? && globe {
        op := Some(NewOp(mouse, scale));
        calls := calls + [Begin(mouse, scale)];
      }
    }

    /** zoom: classify the operation, then move the manipulator and emit move. */
    method OnZoom(mouse: Point, scale: real)
      modifies this
      ensures var r := Step(old(State()), ZoomMove(mouse, scale));
        State() == r.state && emitted == old(emitted) + r.emitted && calls == old(calls) + r.calls
    {
      if op.None? {
        if !globe {
          return;
        }
        op := Some(NewOp(mouse, 1.0));
        calls := calls + [Begin(mouse, 1.0)];
      }
      var cur := op.value;
      if cur.kind == Click || cur.kind == Spurious {
        var moved := DistanceSquared(mouse, cur.startMouse);
        if scale == cur.startScale && moved < MinMoveSquared {
          op := Some(cur.(kind := if moved > 0 then Click else Spurious));
          return;
        }
        emitted := emitted + [MoveStart];
        cur := cur.(kind := Drag);
        op := Some(cur);
      }
      if scale != cur.startScale {
        cur := cur.(kind := Zoom);
        op := Some(cur);
      }
      calls := calls + [MoveTo(if cur.kind == Zoom then None else Some(mouse), scale)];
      emitted := emitted + [Move];
    }

    /**
     * zoomend: end the manipulator, report a click or schedule signalEnd, clear
     * op. invert is globe.projection.invert as the projection stands now.
     */
    method OnZoomEnd(invert: Point -> Option<Geo>)
      modifies this
      ensures var r := Step(old(State()), ZoomEnd(invert));
        State() == r.state && emitted == old(emitted) + r.emitted && calls == old(calls) + r.calls
    {
      if op.None? {
        return;
      }
      calls := calls + [Finish];
      if op.value.kind == Click {
        emitted := emitted + [Clicked(op.value.startMouse, invert(op.value.startMouse))];
      } else if op.value.kind != Spurious {
        endPending := true;
      }
      op := None;
    }

    /** The debounced signalEnd runs MOVE_END_WAIT after the last time it was scheduled. */
    method OnDebounce()
      modifies this
      ensures var r := Step(old(State()), DebounceFires);
        State() == r.state && emitted == old(emitted) + r.emitted && calls == old(calls) + r.calls
    {
      if !endPending {
        return;
      }
      endPending := false;
      if op.None? || (op.value.kind != Drag && op.value.kind != Zoom) {
        emitted := emitted + [MoveEnd];
      }
    }

    /** dispatch.globe(globe): store the globe, then reorient with no options. */
    method SetGlobe()
      modifies this
      ensures var r := Step(old(State()), GlobeSet);
        State() == r.state && emitted == old(emitted) + r.emitted && calls == old(calls) + r.calls
    {
      globe := true;
      Reorient(false);
    }

    /** reorient: a configuration change not caused by moveEnd replays moveStart, moveEnd. */
    method Reorient(fromMoveEnd: bool)
      modifies this
      ensures var r := Step(old(State()), Reoriented(fromMoveEnd));
        State() == r.state && emitted == old(emitted) + r.emitted && calls == old(calls) + r.calls
    {
      if !globe || fromMoveEnd {
        return;
      }
      emitted := emitted + [MoveStart];
      emitted := emitted + [MoveEnd];
    }
  }
}
