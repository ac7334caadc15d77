/**
 The two-click "select, then move" interaction.  A first click remembers the
 cell under the pointer; a second click asks the rules engine for the legal
 destinations of the remembered cell, commands the move when the clicked cell
 is among them, and always forgets the selection.  Once the game has ended,
 clicks are ignored.

 The rules engine is not modelled: its move query is a parameter, and the calls
 the click makes to it are returned as a log.
 */
module Interaction {
  import opened Wrappers
  import opened Notation
  import opened Pixels

  /** Whether the game is still being played. */
  datatype Phase = InGame | Ended

  /** Nothing selected, or the origin of the next move attempt. */
  datatype Selection = Idle | Selected(origin: Square)

  /** The front end's own state. */
  datatype Gui = Gui(phase: Phase, selection: Selection)

  /** The rules engine's answer to "where may the piece on this square go?",
      in square notation; `None` when it has nothing to offer. */
  type MoveQuery = string -> Option<seq<string>>

  /** A call into the rules engine made while handling a click. */
  datatype EngineCall =
    | PossibleMoves(square: string)
    | MakeMove(from: string, to: string)

  /** The new selection and the engine calls made, in order. */
  datatype Reaction = Reaction(selection: Selection, calls: seq<EngineCall>)

  /** The phase-guarded counterpart of `Reaction`. */
  datatype GuiReaction = GuiReaction(gui: Gui, calls: seq<EngineCall>)

  /** The engine lists `to` among the destinations of `from`. */
  predicate IsLegal(moves: MoveQuery, from: string, to: string) {
    moves(from).Some? && to in moves(from).value
  }

  /** Some call in the log commands a move. */
  predicate MovesPiece(calls: seq<EngineCall>) {
    exists k :: 0 <= k < |calls| && calls[k].MakeMove?
  }

  /** What handling a click needs in order not to panic: a window of positive
      size, and, when a square is already selected, that it has a square name,
      and so does the clicked cell once the engine has a move list to search. */
  predicate ClickOk(sel: Selection, moves: MoveQuery, x: nat, y: nat, width: nat, height: nat) {
    && width > 0 && height > 0
    && (sel.Selected? ==>
          && Encodable(sel.origin)
          && (moves(Encode(sel.origin)).Some? ==> Encodable(PixelToSquare(x, y, width, height))))
  }

  /** `update_mouse_thing`: a click at (x, y) in a window of the given size. */
  function UpdateMouse(sel: Selection, moves: MoveQuery, x: nat, y: nat, width: nat, height: nat): (r: Reaction)
    requires ClickOk(sel, moves, x, y, width, height)
    // first click: select the cell under the pointer, without asking the engine
    ensures sel.Idle? ==> r.selection == Selected(PixelToSquare(x, y, width, height)) && r.calls == []
    // second click: always back to no selection
    ensures sel.Selected? ==> r.selection == Idle
    // a move is commanded exactly when the engine lists the clicked square
    ensures MovesPiece(r.calls) <==>
      && sel.Selected? && moves(Encode(sel.origin)).Some?
      && IsLegal(moves, Encode(sel.origin), Encode(PixelToSquare(x, y, width, height)))
    // at most one move, as the last call, from the selection to the clicked square
    ensures forall k :: 0 <= k < |r.calls| && r.calls[k].MakeMove? ==>
      && k == |r.calls| - 1
      && sel.Selected? && moves(Encode(sel.origin)).Some?
      && r.calls[k] == MakeMove(Encode(sel.origin), Encode(PixelToSquare(x, y, width, height)))
    // every query is about the selected square
    ensures forall k :: 0 <= k < |r.calls| && r.calls[k].PossibleMoves? ==>
      sel.Selected? && r.calls[k].square == Encode(sel.origin)
  {
    var clicked := PixelToSquare(x, y, width, height);
    match sel
    case Idle => Reaction(Selected(clicked), [])
    case Selected(origin) =>
      var from := Encode(origin);
      var query := PossibleMoves(from);
      if moves(from).Some? then
        var to := Encode(clicked);
        if to in moves(from).value then
          // the source queries twice: once to test, once to unwrap
          var calls := [query, query, MakeMove(from, to)];
          assert calls[2].MakeMove?;
          Reaction(Idle, calls)
        else
          Reaction(Idle, [query, query])
      else
        Reaction(Idle, [query])
  }

  /** `mouse_button_down_event`: clicks reach the handler only while the game is on. */
  function MouseButtonDown(g: Gui, moves: MoveQuery, x: nat, y: nat, width: nat, height: nat): (r: GuiReaction)
    requires g.phase == InGame ==> ClickOk(g.selection, moves, x, y, width, height)
    ensures r.gui.phase == g.phase
    ensures g.phase == Ended ==> r.gui == g && r.calls == []
    ensures g.phase == InGame ==>
      var inner := UpdateMouse(g.selection, moves, x, y, width, height);
      r.gui.selection == inner.selection && r.calls == inner.calls
  {
    match g.phase
    case InGame =>
      var inner := UpdateMouse(g.selection, moves, x, y, width, height);
      GuiReaction(Gui(g.phase, inner.selection), inner.calls)
    case Ended => GuiReaction(g, [])
  }
}
