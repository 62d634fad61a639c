/**
 The game object's bookkeeping for the threefold-repetition draw: the board in
 play, the bounded list of recent board snapshots, the repetition flag and the
 side to move. Drawing, sound, dragging and theming are not modelled.
 */
module ChessGame {
  import opened Repetition

  /** What a call does: it returns normally, or raises a Python exception
      before changing anything. */
  datatype Outcome = Done | Raised(error: Error)

  class Game<T(==)> {
    /** The board in play; `Board()` of the source is the `start` argument. */
    var board: T
    /** Recent board snapshots, oldest first. */
    var previousPositions: seq<T>
    var threefoldDetected: bool
    var currentPlayer: string

    /** A new game: the starting board, no history, no repetition, white to move. */
    constructor (start: T)
      ensures board == start
      ensures previousPositions == []
      ensures !threefoldDetected
      ensures currentPlayer == "white"
    {
      board := start;
      previousPositions := [];
      threefoldDetected := false;
      currentPlayer := "white";
    }

    /** Back to the state of a new game; every field is overwritten at once. */
    method Reset(start: T)
      modifies this
      ensures board == start
      ensures previousPositions == []
      ensures !threefoldDetected
      ensures currentPlayer == "white"
    {
      board := start;
      previousPositions := [];
      threefoldDetected := false;
      currentPlayer := "white";
    }

    /** Records snapshot `b` with capacity `n` (the game uses 9): when the
        history is full the oldest snapshot is popped, then `b` is appended.
        Popping an empty history (possible only when `n <= 0`) raises and
        leaves it as it was. */
    method AddBoard(b: T, n: int := DefaultCapacity) returns (r: Outcome)
      modifies this`previousPositions
      ensures r == Raised(IndexError) <==> old(previousPositions) == [] && n <= 0
      ensures r == Done <==> Push(old(previousPositions), b, n).Ok?
      ensures Push(old(previousPositions), b, n).Ok? ==>
        previousPositions == Push(old(previousPositions), b, n).value
      ensures r.Raised? ==> previousPositions == old(previousPositions)
      ensures r == Done ==> previousPositions[|previousPositions| - 1] == b
      ensures old(|previousPositions|) <= n ==> |previousPositions| <= n
    {
      if |previousPositions| >= n {
        if previousPositions == [] {
          return Raised(IndexError);
        }
        previousPositions := previousPositions[1..];
      }
      previousPositions := previousPositions + [b];
      r := Done;
    }

    /** Compares history slots 8, 4 and 0 and raises the repetition flag when
        all three boards are equal; the flag is never lowered here and the
        history is left alone. Fewer than nine snapshots make reading slot 8
        raise before anything changes. */
    method CheckThreefold() returns (r: Outcome)
      modifies this`threefoldDetected
      ensures r == Raised(IndexError) <==> |previousPositions| <= LastSlot
      ensures r == Done <==> Detect(previousPositions).Ok?
      ensures threefoldDetected == (old(threefoldDetected) || Detect(previousPositions) == Ok(true))
      // Corollary of the clause above: the flag is never lowered.
      ensures old(threefoldDetected) ==> threefoldDetected
    {
      if |previousPositions| <= LastSlot {
        return Raised(IndexError);
      }
      r := Done;
      if previousPositions[LastSlot] == previousPositions[MiddleSlot] {
        if previousPositions[MiddleSlot] == previousPositions[FirstSlot] {
          threefoldDetected := true;
          return;
        }
      }
    }
  }
}
