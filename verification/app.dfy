/**
 The event loop as the front end sees it: a stream of pointer clicks and
 redraws, each answered by the phase-guarded handlers.  Clicks fall inside the
 window, which keeps the selection on the board and so keeps every later
 handler away from its panics.
 */
module App {
  import opened Wrappers
  import opened Notation
  import opened Pixels
  import opened Interaction
  import opened Render

  /** A pointer press at (x, y), with the window size and the engine's move
      query at that moment; or a redraw with the engine's state at that moment. */
  datatype Event =
    | Click(x: nat, y: nat, width: nat, height: nat, moves: MoveQuery)
    | Redraw(view: EngineView)

  /** The outcome of one event: new state, engine calls, frame drawn. */
  datatype StepResult = StepResult(gui: Gui, calls: seq<EngineCall>, frame: Option<Frame>)

  /** The outcome of a run of events. */
  datatype Trace = Trace(gui: Gui, calls: seq<EngineCall>, frames: seq<Frame>)

  /** A reachable front-end state: any selection is a board square. */
  predicate Reachable(g: Gui) {
    g.selection.Selected? ==> g.selection.origin.OnBoard()
  }

  /** Events as the window system and the engine deliver them. */
  predicate EventOk(e: Event) {
    match e
    case Click(x, y, w, h, _) => 0 < w && 0 < h && x < w && y < h
    case Redraw(v) =>
      && BoardShaped(v.board)
      && SidesKnown(v)
      && forall col: nat, row: nat :: col < 8 && row < 8 ==> MovesParse(v.moves(Encode(Square(col, row))))
  }

  /** Every `make_move` in the log names two board squares. */
  predicate MovesOnBoard(calls: seq<EngineCall>) {
    forall k :: 0 <= k < |calls| && calls[k].MakeMove? ==>
      CanonicalNotation(calls[k].from) && CanonicalNotation(calls[k].to)
  }

  /** The initial state of `MainState::new`. */
  const Start := Gui(InGame, Idle)

  /** One event, handled by `mouse_button_down_event` or `draw`. */
  function Step(g: Gui, e: Event): (r: StepResult)
    requires Reachable(g) && EventOk(e)
    ensures Reachable(r.gui)
    ensures MovesOnBoard(r.calls)
    ensures g.phase == Ended ==> r == StepResult(g, [], None)
    ensures r.gui.phase == InGame ==> g.phase == InGame
    ensures e.Click? ==> r.frame == None
    ensures e.Redraw? ==> r.calls == [] && r.gui.selection == g.selection
    ensures e.Click? && g.phase == InGame ==>
      r.gui.selection == UpdateMouse(g.selection, e.moves, e.x, e.y, e.width, e.height).selection
  {
    match e
    case Click(x, y, w, h, moves) =>
      var r := MouseButtonDown(g, moves, x, y, w, h);
      StepResult(r.gui, r.calls, None)
    case Redraw(v) =>
      var r := Draw(g, v);
      StepResult(r.gui, [], r.frame)
  }

  /** Events handled in arrival order. */
  function Run(g: Gui, events: seq<Event>): (t: Trace)
    requires Reachable(g)
    requires forall k :: 0 <= k < |events| ==> EventOk(events[k])
    ensures Reachable(t.gui)
    ensures MovesOnBoard(t.calls)
    ensures |t.frames| <= |events|
    decreases |events|
  {
    if events == [] then Trace(g, [], [])
    else
      var s := Step(g, events[0]);
      var rest := Run(s.gui, events[1..]);
      var frames := if s.frame.Some? then [s.frame.value] + rest.frames else rest.frames;
      Trace(rest.gui, s.calls + rest.calls, frames)
  }

  /** Once ended, always ended: every later event is ignored, no engine call
      is made and nothing is drawn. */
  lemma {:induction false} EndedIsAbsorbing(g: Gui, events: seq<Event>)
    requires Reachable(g) && g.phase == Ended
    requires forall k :: 0 <= k < |events| ==> EventOk(events[k])
    ensures Run(g, events) == Trace(g, [], [])
    decreases |events|
  {
    if events != [] {
      EndedIsAbsorbing(g, events[1..]);
    }
  }

  /** The phase never goes back: a run that ends in game started in game. */
  lemma {:induction false} PhaseNeverReverts(g: Gui, events: seq<Event>)
    requires Reachable(g)
    requires forall k :: 0 <= k < |events| ==> EventOk(events[k])
    ensures Run(g, events).gui.phase == InGame ==> g.phase == InGame
    decreases |events|
  {
    if events != [] {
      var s := Step(g, events[0]);
      PhaseNeverReverts(s.gui, events[1..]);
    }
  }

  /** A redraw while checkmate is reported ends the game for good. */
  lemma CheckmateEndsGame(g: Gui, v: EngineView, events: seq<Event>)
    requires Reachable(g) && g.phase == InGame
    requires EventOk(Redraw(v)) && v.status == Checkmate
    requires forall k :: 0 <= k < |events| ==> EventOk(events[k])
    ensures Step(g, Redraw(v)).gui.phase == Ended
    ensures Step(g, Redraw(v)).frame.Some?
    ensures Step(g, Redraw(v)).frame.value.banner == Some(CheckmateBanner)
    ensures Run(Step(g, Redraw(v)).gui, events) == Trace(Step(g, Redraw(v)).gui, [], [])
  {

  }

  /** The whole select-then-move exchange from a fresh state: two clicks,
      back to no selection, and one move exactly when the engine lists the
      second square among the first square's destinations. */
  lemma SelectThenClick(x1: nat, y1: nat, x2: nat, y2: nat, w: nat, h: nat, m1: MoveQuery, m2: MoveQuery)
    requires 0 < w && 0 < h && x1 < w && y1 < h && x2 < w && y2 < h
    ensures
      var origin := PixelToSquare(x1, y1, w, h);
      var dest := PixelToSquare(x2, y2, w, h);
      var t := Run(Start, [Click(x1, y1, w, h, m1), Click(x2, y2, w, h, m2)]);
      && t.gui == Start
      && t.frames == []
      && (MovesPiece(t.calls) <==> IsLegal(m2, Encode(origin), Encode(dest)))
      && (MovesPiece(t.calls) ==> t.calls[|t.calls| - 1] == MakeMove(Encode(origin), Encode(dest)))
  {
    var events := [Click(x1, y1, w, h, m1), Click(x2, y2, w, h, m2)];
    var s1 := Step(Start, events[0]);
    assert s1.gui == Gui(InGame, Selected(PixelToSquare(x1, y1, w, h))) && s1.calls == [];
    var s2 := Step(s1.gui, events[1]);
    assert s2.gui == Start;
    var tail := events[1..];
    assert tail[0] == events[1] && tail[1..] == [];
    assert Run(s2.gui, tail[1..]) == Trace(Start, [], []);
    assert Run(s1.gui, tail) == Trace(Start, s2.calls, []);
    assert Run(Start, events) == Trace(Start, s2.calls, []);
  }
}
