/**
 The decisions `update_board` makes each frame, without the drawing: the
 background of every square, the glyph and its colour for every occupied
 square, the highlighted destinations of the selected square, and the
 checkmate banner together with the switch to the ended phase.

 The rules engine is given as a snapshot: the board, the side of the piece on
 a square, the move query and the game status.
 */
module Render {
  import opened Wrappers
  import opened Notation
  import opened Interaction

  /** The two sides. */
  datatype Side = White | Black

  /** The piece kinds the board can hold. */
  datatype PieceKind = King | Queen | Rook | Bishop | Knight | Pawn

  /** The engine's verdict on the game; the front end only tells checkmate apart. */
  datatype EngineStatus = Checkmate | NotCheckmate

  /** Row-major: `board[row][col]`. */
  type Board = seq<seq<Option<PieceKind>>>

  /** What the rules engine tells the renderer during one frame.
      `sideAt(col, row)` takes its arguments column first. */
  datatype EngineView = EngineView(
    board: Board,
    sideAt: (nat, nat) -> Option<Side>,
    moves: MoveQuery,
    status: EngineStatus)

  /** An RGBA colour; `from_rgb` colours are opaque. */
  datatype Colour = Rgba(red: nat, green: nat, blue: nat, alpha: nat)

  const LightSquare := Rgba(255, 161, 161, 255)
  const DarkSquare := Rgba(180, 112, 80, 255)
  const WhiteInk := Rgba(255, 255, 255, 255)
  const BlackInk := Rgba(0, 0, 0, 255)
  const CaptureMark := Rgba(100, 69, 200, 200)
  const QuietMark := Rgba(182, 212, 119, 200)
  const CheckmateBanner := "Checkmate :O"

  /** What is drawn on one square: its background, then the glyph in its ink. */
  datatype Tile = Tile(background: Colour, glyph: string, ink: Colour)

  /** A translucent mark over a destination square. */
  datatype Highlight = Highlight(square: Square, colour: Colour)

  /** One frame: the 8×8 tiles, then the highlights over them, then the banner. */
  datatype Frame = Frame(tiles: seq<seq<Tile>>, highlights: seq<Highlight>, banner: Option<string>)

  /** The frame and the phase after drawing it. */
  datatype Rendered = Rendered(frame: Frame, phase: Phase)

  /** What `draw` produced, if anything, and the state it leaves behind. */
  datatype Drawn = Drawn(frame: Option<Frame>, gui: Gui)

  /** The engine's board is an 8×8 array. */
  predicate BoardShaped(b: Board) {
    |b| == 8 && forall i :: 0 <= i < 8 ==> |b[i]| == 8
  }

  /** `get_color_at(..).unwrap()` succeeds on every occupied square. */
  predicate SidesKnown(v: EngineView)
    requires BoardShaped(v.board)
  {
    forall i, j :: 0 <= i < 8 && 0 <= j < 8 && v.board[i][j].Some? ==> v.sideAt(j, i).Some?
  }

  /** Every listed destination parses to a square of the board, so indexing the board with it cannot fail. */
  predicate MovesParse(list: Option<seq<string>>) {
    list.Some? ==> forall k :: 0 <= k < |list.value| ==> Decodable(list.value[k]) && Decode(list.value[k]).OnBoard()
  }

  /** What drawing a frame needs in order not to panic. */
  predicate RenderOk(v: EngineView, sel: Selection) {
    && BoardShaped(v.board)
    && SidesKnown(v)
    && (sel.Selected? ==> Encodable(sel.origin) && MovesParse(v.moves(Encode(sel.origin))))
  }

  /** The chess glyph of a piece kind. */
  function Glyph(k: PieceKind): string {
    match k
    case King => "\U{265A}"
    case Queen => "\U{265B}"
    case Rook => "\U{265C}"
    case Bishop => "\U{265D}"
    case Knight => "\U{265E}"
    case Pawn => "\U{265F}"
  }

  /** The piece kind a glyph stands for, if any. */
  function GlyphKind(s: string): Option<PieceKind> {
    if s == "\U{265A}" then Some(King)
    else if s == "\U{265B}" then Some(Queen)
    else if s == "\U{265C}" then Some(Rook)
    else if s == "\U{265D}" then Some(Bishop)
    else if s == "\U{265E}" then Some(Knight)
    else if s == "\U{265F}" then Some(Pawn)
    else None
  }

  /** Each glyph names its piece kind, and the empty text names none. */
  lemma GlyphRoundTrip(k: PieceKind)
    ensures GlyphKind(Glyph(k)) == Some(k)
    ensures GlyphKind("") == None
  {
  }

  /** The tile of row i, column j. */
  function TileAt(v: EngineView, i: nat, j: nat): (t: Tile)
    requires BoardShaped(v.board) && SidesKnown(v) && i < 8 && j < 8
    ensures t.background == LightSquare <==> (i + j) % 2 == 0
    ensures t.background in {LightSquare, DarkSquare}
    ensures t.glyph == "" <==> v.board[i][j].None?
    ensures v.board[i][j].Some? ==> GlyphKind(t.glyph) == v.board[i][j]
    ensures t.ink == WhiteInk <==> v.board[i][j].Some? && v.sideAt(j, i) == Some(White)
    ensures t.ink in {WhiteInk, BlackInk}
  {
    var background := if (i + j) % 2 == 0 then LightSquare else DarkSquare;
    match v.board[i][j]
    case None => Tile(background, "", BlackInk)
    case Some(kind) =>
      GlyphRoundTrip(kind);
      var ink := if v.sideAt(j, i).value == White then WhiteInk else BlackInk;
      Tile(background, Glyph(kind), ink)
  }

  /** The mark over one listed destination: capture colour on an occupied square. */
  function HighlightAt(b: Board, dest: string): (h: Highlight)
    requires BoardShaped(b) && Decodable(dest) && Decode(dest).OnBoard()
    ensures h.square == Decode(dest)
    ensures h.colour == CaptureMark <==> b[h.square.row][h.square.col].Some?
    ensures h.colour in {CaptureMark, QuietMark}
  {
    var sq := Decode(dest);
    Highlight(sq, if b[sq.row][sq.col] != None then CaptureMark else QuietMark)
  }

  /** The destinations to mark: those of the selected square, if the engine lists any. */
  function Destinations(v: EngineView, sel: Selection): (ds: seq<string>)
    requires sel.Selected? ==> Encodable(sel.origin)
    ensures |ds| > 0 ==> sel.Selected? && v.moves(Encode(sel.origin)).Some?
    ensures sel.Selected? && v.moves(Encode(sel.origin)).Some? ==> ds == v.moves(Encode(sel.origin)).value
  {
    if sel.Selected? && v.moves(Encode(sel.origin)).Some? then v.moves(Encode(sel.origin)).value else []
  }

  /** `update_board`, called only while the game is on: the frame to draw
      and the phase it leaves behind. */
  function UpdateBoard(v: EngineView, sel: Selection, phase: Phase): (r: Rendered)
    requires RenderOk(v, sel)
    // tiles: 8 rows of 8, coloured by parity, glyph and ink by the occupant
    ensures |r.frame.tiles| == 8 && forall i :: 0 <= i < 8 ==> |r.frame.tiles[i]| == 8
    ensures forall i, j :: 0 <= i < 8 && 0 <= j < 8 ==>
      && (r.frame.tiles[i][j].background == LightSquare <==> (i + j) % 2 == 0)
      && r.frame.tiles[i][j].background in {LightSquare, DarkSquare}
      && (r.frame.tiles[i][j].glyph == "" <==> v.board[i][j].None?)
      && (v.board[i][j].Some? ==> GlyphKind(r.frame.tiles[i][j].glyph) == v.board[i][j])
      && (r.frame.tiles[i][j].ink == WhiteInk <==> v.board[i][j].Some? && v.sideAt(j, i) == Some(White))
      && r.frame.tiles[i][j].ink in {WhiteInk, BlackInk}
    // highlights: only for a selected square the engine has moves for, one per listed destination
    ensures |r.frame.highlights| > 0 ==> sel.Selected? && v.moves(Encode(sel.origin)).Some?
    ensures sel.Selected? && v.moves(Encode(sel.origin)).Some? ==>
      |r.frame.highlights| == |v.moves(Encode(sel.origin)).value|
    ensures forall k :: 0 <= k < |r.frame.highlights| ==>
      && r.frame.highlights[k].square == Decode(v.moves(Encode(sel.origin)).value[k])
      && r.frame.highlights[k].square.OnBoard()
      && (r.frame.highlights[k].colour == CaptureMark <==>
          v.board[r.frame.highlights[k].square.row][r.frame.highlights[k].square.col].Some?)
      && r.frame.highlights[k].colour in {CaptureMark, QuietMark}
    // checkmate: banner and the one-way switch to the ended phase
    ensures r.frame.banner.Some? <==> v.status == Checkmate
    ensures r.frame.banner.Some? ==> r.frame.banner.value == CheckmateBanner
    ensures r.phase == Ended <==> phase == Ended || v.status == Checkmate
  {
    var tiles := seq(8, i requires 0 <= i < 8 =>
      seq(8, j requires 0 <= j < 8 => TileAt(v, i, j)));
    var ds := Destinations(v, sel);
    var marks := seq(|ds|, k requires 0 <= k < |ds| => HighlightAt(v.board, ds[k]));
    var banner := if v.status == Checkmate then Some(CheckmateBanner) else None;
    var next := if v.status == Checkmate then Ended else phase;
    Rendered(Frame(tiles, marks, banner), next)
  }

  /** `draw`: a frame only while the game is on. */
  function Draw(g: Gui, v: EngineView): (r: Drawn)
    requires g.phase == InGame ==> RenderOk(v, g.selection)
    ensures r.gui.selection == g.selection
    ensures g.phase == Ended ==> r.frame == None && r.gui == g
    ensures g.phase == InGame ==> r.frame == Some(UpdateBoard(v, g.selection, InGame).frame)
    ensures g.phase == InGame ==> (r.gui.phase == Ended <==> v.status == Checkmate)
  {
    match g.phase
    case InGame =>
      var rendered := UpdateBoard(v, g.selection, g.phase);
      Drawn(Some(rendered.frame), Gui(rendered.phase, g.selection))
    case Ended => Drawn(None, g)
  }
}
