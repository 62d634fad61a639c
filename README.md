# Chess game: position history and threefold-repetition bookkeeping

This project models the part of the chess game's `Game` object (`src/game.py`)
that decides draws by repetition:

- the bounded first-in-first-out list of recent board snapshots
  (`last_n_board_positions`, capacity `n`, 9 by default). When the list already
  holds `n` or more snapshots, the oldest one is popped. The new snapshot is
  then appended at the end;
- the repetition check, which compares the snapshots in slots 8, 4 and 0 and
  raises the `three_fold_repetition_detected` flag when all three boards are
  equal;
- the state of a new or reset game: the starting board, an empty history,
  the flag down and white to move.

A board is a type parameter `T(==)`. The game only compares snapshots with
`==`, and board equality is defined in `board.py`, which is not part of this
model. Each snapshot is treated as a value.

Files:

- `repetition.dfy`, module `Repetition`: the history operations as pure
  functions (`Push`, `Detect`). It also holds `Record`, which replays a whole
  game's snapshots from an empty history, and `Window`, the last `n` snapshots
  of a game, which serves as the independent reference definition. Lemmas
  connect the functions to that reference and to the threefold-repetition
  rule of Article 9.2 of the FIDE Laws of Chess.
- `game.dfy`, module `ChessGame`: class `Game` with the fields the source
  updates in place and the methods `AddBoard`, `CheckThreefold` and `Reset`.
  The `ensures` of `AddBoard` and `CheckThreefold` tie the new state to the
  functions of `Repetition`; those of `Reset` give the new-game state directly.

Python exceptions are modelled as results, not as preconditions:

- `pop(0)` on an empty list raises `IndexError`. This happens when the history
  is empty and `n <= 0`.
- Reading slot 8 of a history with fewer than nine snapshots raises
  `IndexError`.

In both cases the call changes nothing. The methods return
`Raised(IndexError)`, and the functions return `Err(IndexError)`.

Behaviour of the code worth knowing:

- The check does not test the length first: reading slot 8 of a history with
  fewer than nine entries raises `IndexError`.
- Eviction happens before appending whenever the list holds at least `n`
  entries, so a list at most `n` long never grows past `n`. A list already
  longer than `n` (after a call with a larger `n`) loses one entry and gains
  one, so it keeps its length (`Push`).
- The check always reads slots 0, 4 and 8. With a capacity larger than 9 these
  are the oldest snapshots, not the last nine.

## Model

| member | source | states |
|---|---|---|
| `Repetition.Push` | src/game.py:141-144 | recording raises exactly when the history is empty and `n <= 0`; otherwise the new snapshot is last and everything before it is a suffix of the old history in the same order; below capacity nothing is evicted (old history plus `b`); at or above capacity the length is unchanged (one evicted, one added); a history of at most `n` entries stays at most `n` |
| `Repetition.Detect` | src/game.py:129-135 | the check raises exactly when the history has at most 8 entries; a positive answer means slots 0, 4 and 8 hold equal boards, a negative one that two of them differ |
| `Repetition.WindowStep` | src/game.py:141-144 | recording one snapshot into the last `n` snapshots of a game (`n > 0`) gives the last `n` snapshots of the game extended by that snapshot: the oldest is evicted exactly when the window was full |
| `Repetition.RecordIsWindow` | src/game.py:138-144 | replaying any game's snapshots from an empty history with capacity `n > 0` never raises and leaves exactly the most recent `n` snapshots, oldest first |
| `Repetition.RecordFailsWithoutCapacity` | src/game.py:141-143 | with capacity `n <= 0`, recording any non-empty game raises `IndexError` (the first `pop(0)` hits an empty list) |
| `Repetition.RecordBounded` | src/game.py:139-144 | with the default capacity 9, the history never holds more than nine snapshots |
| `Repetition.DetectOnRecord` | src/game.py:129-144 | over a whole game recorded with capacity 9, the check raises before nine snapshots exist; afterwards it reports whether the ninth-, fifth- and first-most-recent snapshots are equal (positions exactly four plies apart) |
| `Repetition.DetectSound` | src/game.py:126-134 | whenever the check reports a repetition, the repeated position occurs at least three times in the history |
| `Repetition.DetectMissesIrregularSpacing` | src/game.py:129-135 | the check is only a fixed-window approximation: a full history in which one position occurs three times (at slots 0, 3 and 7) is reported as no repetition |
| `ChessGame.Game.constructor` | src/game.py:11-18 | a new game holds the starting board, an empty history, the repetition flag down and `"white"` to move |
| `ChessGame.Game.Reset` | src/game.py:107-108 | reset puts every modelled field back to the state of a new game |
| `ChessGame.Game.AddBoard` | src/game.py:141-144 | the history becomes `Push` of the old history; it raises and changes nothing exactly when the history is empty and `n <= 0`; on success the last entry is the board just added; starting at most `n` long it stays at most `n` long; only the history field changes |
| `ChessGame.Game.CheckThreefold` | src/game.py:129-135 | raises and changes nothing exactly when the history has at most 8 entries; the flag afterwards is its old value or `Detect`'s positive answer, so it is never lowered; only the flag changes, the history is untouched |

## Left out

- Drawing and UI: `show_bg`, `show_pieces`, `show_moves`, `show_last_move`, `show_hover`, `draw_popup` only render pixels with pygame.
- `play_sound` and `change_theme` are thin wrappers over the sound and theme configuration, which is not part of this model.
- The `dragger`, `hovered_sqr`, `set_hover` and `config` fields are UI interaction state. The constructor and `Reset` do not model them.
- The console message printed on a detected repetition (the three move numbers) is output only; `move_count` of a board is not modelled.
- The board's contents, legal-move generation, castling, en passant, promotion, check, checkmate and stalemate live in `board.py` and the piece files, which are not part of this model. `Board()` is the `start` argument of the constructor and `Reset`.
- Aliasing: the source stores board object references. If a caller appends the same mutable board object repeatedly, later mutations would change every stored copy. The model treats each snapshot as an immutable value.
- Turn alternation (`current_player` flipping after a move) happens in the caller, which is not part of this model. Only its reset to `"white"` is modelled.
