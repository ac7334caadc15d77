# Chess board front end — interaction and render model

A Dafny model of the part of the `chessgui` program that is not drawing or
window setup: the square-name codec (`coordinates_to_string` and
`string_to_coordinates`), the pointer-to-cell mapping, the two-click
"select, then move" state machine (`update_mouse_thing` behind the phase guard
of `mouse_button_down_event`), and the decisions `update_board` takes each
frame (square colours, piece glyphs and their colours, capture/quiet
highlights, the checkmate banner and the one-way switch to the ended phase,
behind the phase guard of `draw`).

Modules, leaf first:

- `Wrappers` — `Option`.
- `Notation` — `Square`, `Encode` (`coordinates_to_string`), `Decode`
  (`string_to_coordinates`), with the source's `u8` arithmetic as
  preconditions (`Encodable`, `Decodable`) and its `char as u8` truncation
  written out (`Byte`).
- `Pixels` — `PixelToCell`/`PixelToSquare`. With whole-pixel positions,
  floor(x / (w/8)) is exactly (8·x) div w, so no window-size divisibility is
  assumed; `CellSizeQuotient` shows it equals x div (w/8) when 8 divides w.
- `Interaction` — phase, selection, `UpdateMouse`, `MouseButtonDown`. The
  rules engine's move query is a parameter; the calls a click makes to the
  engine (`get_possible_moves`, `make_move`) come back as a log.
- `Render` — `UpdateBoard` and `Draw` over an `EngineView` (board snapshot,
  side query, move query, game status).
- `App` — events (clicks and redraws) handled in order by `Step`/`Run`, and
  the properties of whole event sequences.

Three behaviours of the code a reader might expect to be otherwise:

- The pointer mapping does not clamp. A position at or past the window's far
  edge gives a cell index of 8 or more (`Pixels.NotClamped`).
- Malformed notation is not reported as an error. The code panics or reads a
  truncated byte, so the model has the preconditions `Decodable`/`Encodable`.
  `Notation.TruncatedFileLetter` shows a non-Latin-1 letter being read as file A.
- Highlights are drawn after the whole board, so they lie over the piece
  glyphs, not under them. A `Frame` lists them after the tiles.

## Model

| member | source | states |
|---|---|---|
| Notation.Encode | chessgui/src/main.rs:215-222 | two characters: the file letter is 'A' + column and the digit is rank 8 − row; the cell is on the board exactly when the result is upper-case A–H followed by 1–8 |
| Notation.Decode | chessgui/src/main.rs:204-213 | whatever the decoder accepts decodes to a cell the encoder accepts |
| Notation.EncodeDecode | chessgui/src/main.rs:204-222 | decoding an encoded cell gives the cell back, for every encodable cell whose letter is not lower-case |
| Notation.SquareRoundTrip | chessgui/src/main.rs:204-222 | for all 64 board squares, decode(encode(sq)) == sq |
| Notation.LowerCaseFileShifts | chessgui/src/main.rs:204-222 | for every encodable cell in columns 32..57 the encoder writes a lower-case letter and the decoder returns the cell 32 columns lower, same row; with `EncodeDecode` this covers the round trip on the encoder's whole domain |
| Notation.LowerCaseFileCollides | chessgui/src/main.rs:205-217 | one instance of that shift: column 32 encodes as "a8", which decodes to A8 |
| Notation.EncodeInjective | chessgui/src/main.rs:215-222 | distinct encodable cells get distinct names |
| Notation.DecodeEncode | chessgui/src/main.rs:204-222 | valid notation (A–H or a–h, then 1–8) decodes onto the board and re-encodes to itself with the file upper-cased |
| Notation.CanonicalRoundTrip | chessgui/src/main.rs:204-222 | upper-case notation is a fixed point of decode then encode |
| Notation.DecodeIgnoresFileCase | chessgui/src/main.rs:205-207 | the lower- and upper-case file letter are accepted alike and decode to the same cell |
| Notation.DecodesOntoBoardIff | chessgui/src/main.rs:204-213 | for characters below 256, the decoder lands on the board if and only if the first two characters are valid notation |
| Notation.TruncatedFileLetter | chessgui/src/main.rs:205-207 | the `as u8` cast reads U+0141 as 'A', so "Ł8" decodes to A8 |
| Notation.EncodeExamples | chessgui/src/main.rs:215-222 | (0,0) is "A8", (7,7) is "H1", (4,6) is "E2", and row 8 gives digit '0' |
| Pixels.PixelToCell | chessgui/src/main.rs:139-140 | the cell index c is the floor of p over a cell: c·extent ≤ 8·p < (c+1)·extent |
| Pixels.PixelToSquare | chessgui/src/main.rs:138-140 | a pointer inside the window maps to a board square |
| Pixels.CellInRange | chessgui/src/main.rs:139-140 | positions inside the window give indices 0..7 |
| Pixels.NotClamped | chessgui/src/main.rs:139-140 | positions at or past the far edge give an index of 8 or more |
| Pixels.EdgeGoesToHigherCell | chessgui/src/main.rs:139-140 | a position exactly on a cell edge belongs to the higher-index cell |
| Pixels.CellSizeQuotient | chessgui/src/main.rs:139-140 | when 8 divides the extent, the index is the position divided by the cell size |
| Pixels.WindowExamples | chessgui/src/main.rs:138-140 | in an 800×800 window: (0,0) ↦ (0,0), (799,799) ↦ (7,7), (400,0) ↦ (4,0), (800,0) ↦ (8,0) |
| Interaction.UpdateMouse | chessgui/src/main.rs:136-157 | needs the clicked cell to have a name only when the origin's move list exists; first click selects the cell under the pointer and makes no engine call; second click always deselects; a move is commanded if and only if the origin's move list exists and contains the clicked square; that move is the last call, made at most once, from the selection to the clicked square; every query is about the selection |
| Interaction.MouseButtonDown | chessgui/src/main.rs:174-185 | the phase never changes; when ended, the click changes nothing and calls nothing; in game, it is the click handler |
| Render.GlyphRoundTrip | chessgui/src/main.rs:52-60 | each piece kind has its own glyph, and the empty text stands for no piece |
| Render.TileAt | chessgui/src/main.rs:49-92 | the background is the light colour if and only if row + column is even; the glyph is empty if and only if the square is empty, else it is that kind's glyph; the ink is white if and only if a white piece stands there |
| Render.HighlightAt | chessgui/src/main.rs:108-121 | a destination is marked on its decoded square, in the capture colour if and only if that square is occupied, else in the quiet colour |
| Render.Destinations | chessgui/src/main.rs:105-108 | destinations exist only for a selected square that has a move list, and then they are that list |
| Render.UpdateBoard | chessgui/src/main.rs:36-134 | 8×8 tiles, each with the light background if and only if row + column is even and the dark one otherwise, the occupant's glyph, and white ink for a white piece and black ink otherwise; one highlight per listed destination, only when selected with a move list, capture colour if and only if occupied; banner if and only if checkmate; the phase is ended if and only if it already was or checkmate is reported |
| Render.Draw | chessgui/src/main.rs:167-172 | while in game, it draws `update_board`'s frame and ends the game exactly on checkmate; while ended, nothing is drawn and nothing changes |
| App.Step | chessgui/src/main.rs:167-185 | for an in-window click or a well-formed redraw: reachable states stay reachable; every commanded move names two board squares; an ended state ignores every event; nothing goes from ended back to in game |
| App.Run | chessgui/src/main.rs:161-186 | over any sequence of in-window clicks and well-formed redraws, the selection stays on the board and every commanded move names two board squares |
| App.EndedIsAbsorbing | chessgui/src/main.rs:167-185 | from the ended phase, any sequence of events leaves the state unchanged, makes no engine call and draws nothing |
| App.PhaseNeverReverts | chessgui/src/main.rs:127-130 | a run that finishes in game started in game |
| App.CheckmateEndsGame | chessgui/src/main.rs:127-130 | a redraw that sees checkmate shows the banner, ends the game, and every later event is ignored |
| App.SelectThenClick | chessgui/src/main.rs:142-156 | from the start state two in-window clicks return to no selection, and a move is commanded if and only if the engine lists the second square for the first, as that move |

## Left out

- Drawing and window setup: the canvas, meshes, text, fonts, `drawable_size`, `main` and the context builder. They are I/O. The model keeps only the decisions they are handed.
- The rules engine (`sagakar_chess_lib::Game`). Its board, side query, move query and status are inputs. `make_move` appears only as an entry in the call log. Its effect on the board, and chess legality, are not modelled.
- Floating point. Pointer positions and window sizes are whole numbers and the cell is computed exactly. `f32` rounding, negative pointer positions, and a zero-size window (division by zero, then a saturating `as usize`) are not modelled.
- The selection is stored as an `f32` pair in the source. The model stores the integer cell, because every cell index below 2^24 survives that round trip exactly.
- Release-build wrap-around of the `u8` arithmetic. Overflow and underflow are taken as the debug-build panics, which become preconditions.
- Any piece kind beyond the six named ones. The source's fallback arm gives such a kind the empty glyph, but the engine's enumeration is not part of this model.
- The commented-out active-colour block and the empty `update` callback. Neither does anything.
- App.Run: the window system is assumed to deliver clicks only inside the drawable area (`App.EventOk`), so the selection stays on the board. The click handler itself accepts a click past the edge, which selects a cell with index 8 or more (`Pixels.NotClamped`).
- The engine is assumed to list only board squares as destinations, for every board-square origin (`App.EventOk`). A redraw itself parses only the selected origin's list.
- The engine queries made while rendering (`get_board`, `get_color_at`, `get_possible_moves`, `get_game_state`). They are reads, so they are not logged. Only the click handler's calls are logged.
