/**
 The position history that the chess game keeps for its threefold-repetition
 draw check, written as pure functions over sequences of board snapshots.

 A board is any type with decidable equality: the game compares snapshots only
 with `==`, so nothing else about a board matters here.
 */
module Repetition {

  /** The one Python exception these operations can raise: indexing or
      popping a list that is too short. */
  datatype Error = IndexError

  datatype Result<T> = Ok(value: T) | Err(error: Error)

  /** Capacity the game passes when it records a position (the default `n`). */
  const DefaultCapacity: int := 9

  /** History slots the repetition check compares: three snapshots taken
      four plies apart. */
  const FirstSlot: nat := 0
  const MiddleSlot: nat := 4
  const LastSlot: nat := 8

  function Min(a: int, b: int): int { if a <= b then a else b }

  /** The history after recording `b` with capacity `n`: when it already holds
      `n` or more snapshots the oldest one is popped first; the new snapshot
      always goes at the end. Popping an empty list raises. */
  function Push<T>(h: seq<T>, b: T, n: int): (r: Result<seq<T>>)
    ensures r.Err? <==> h == [] && n <= 0
    ensures r.Ok? ==> |r.value| > 0 && r.value[|r.value| - 1] == b
    ensures r.Ok? ==> |r.value| - 1 <= |h| && r.value[..|r.value| - 1] == h[|h| - (|r.value| - 1)..]
    ensures r.Ok? && |h| < n ==> r.value == h + [b]
    ensures r.Ok? && |h| >= n ==> |r.value| == |h|
    ensures r.Ok? && |h| <= n ==> |r.value| <= n
  {
    if |h| >= n then
      if h == [] then Err(IndexError) else Ok(h[1..] + [b])
    else
      Ok(h + [b])
  }

  /** The history after recording each snapshot of `bs` in turn, starting from
      the empty history of a new game, all with capacity `n`. */
  function Record<T>(bs: seq<T>, n: int): Result<seq<T>>
  {
    if bs == [] then Ok([])
    else match Record(bs[..|bs| - 1], n)
      case Ok(h) => Push(h, bs[|bs| - 1], n)
      case Err(e) => Err(e)
  }

  /** The last `n` snapshots of `bs` (all of them when there are fewer). */
  function Window<T>(bs: seq<T>, n: nat): (w: seq<T>)
    ensures |w| == Min(|bs|, n)
  {
    bs[|bs| - Min(|bs|, n)..]
  }

  /** The result of the repetition check on history `h`: reading slot 8 of a
      shorter history raises; otherwise the answer is whether slots 8, 4 and
      0 hold equal boards. */
  function Detect<T(==)>(h: seq<T>): (r: Result<bool>)
    ensures r.Err? <==> |h| <= LastSlot
    ensures r == Ok(true) ==> h[FirstSlot] == h[MiddleSlot] == h[LastSlot]
    ensures r == Ok(false) ==> h[FirstSlot] != h[MiddleSlot] || h[MiddleSlot] != h[LastSlot]
  {
    if |h| <= LastSlot then Err(IndexError)
    else Ok(h[LastSlot] == h[MiddleSlot] && h[MiddleSlot] == h[FirstSlot])
  }

  /** Recording one more snapshot into the window of a game gives the
      window of the longer game. */
  lemma WindowStep<T>(p: seq<T>, x: T, n: int)
    requires n > 0
    ensures Push(Window(p, n), x, n) == Ok(Window(p + [x], n))
  {
    var w := Window(p, n);
    if |p| >= n {
      assert w == p[|p| - n..];
      assert Push(w, x, n) == Ok(w[1..] + [x]);
      assert Window(p + [x], n) == (p + [x])[|p| + 1 - n..];
      assert w[1..] + [x] == (p + [x])[|p| + 1 - n..];
    } else {
      assert w == p;
      assert Window(p + [x], n) == p + [x];
    }
  }

  /** Recording a game's snapshots with a positive capacity never fails, and
      leaves exactly the most recent `n` of them, oldest first. */
  lemma {:induction false} RecordIsWindow<T>(bs: seq<T>, n: int)
    requires n > 0
    ensures Record(bs, n) == Ok(Window(bs, n))
  {
    if bs != [] {
      var p, x := bs[..|bs| - 1], bs[|bs| - 1];
      assert bs == p + [x];
      RecordIsWindow(p, n);
      WindowStep(p, x, n);
    }
  }

  /** With a capacity of zero or less, recording the first snapshot of a game
      pops an empty list, and the error stays. */
  lemma {:induction false} RecordFailsWithoutCapacity<T>(bs: seq<T>, n: int)
    requires n <= 0 && bs != []
    ensures Record(bs, n) == Err(IndexError)
  {
    if |bs| > 1 {
      RecordFailsWithoutCapacity(bs[..|bs| - 1], n);
    }
  }

  /** Recording with the default capacity, the history never holds more
      than nine snapshots. */
  lemma RecordBounded<T>(bs: seq<T>)
    ensures Record(bs, DefaultCapacity).Ok?
    ensures |Record(bs, DefaultCapacity).value| <= 9
  {
    RecordIsWindow(bs, DefaultCapacity);
  }

  /** Played over a whole game with the default capacity, the check compares
      the ninth-, fifth- and first-most-recent snapshots, i.e. positions
      exactly four plies apart among the last nine; with fewer than nine
      snapshots it raises. */
  lemma DetectOnRecord<T>(bs: seq<T>)
    ensures Record(bs, DefaultCapacity).Ok?
    ensures var k := |bs|;
      Detect(Record(bs, DefaultCapacity).value)
        == if k < 9 then Err(IndexError)
           else Ok(bs[k - 9] == bs[k - 5] && bs[k - 5] == bs[k - 1])
  {
    RecordIsWindow(bs, DefaultCapacity);
    var k := |bs|;
    if k >= 9 {
      var w := Window(bs, DefaultCapacity);
      assert w == bs[k - 9..];
      assert w[FirstSlot] == bs[k - 9] && w[MiddleSlot] == bs[k - 5] && w[LastSlot] == bs[k - 1];
    }
  }

  /** The number of snapshots in `h` equal to `b`. */
  function Occurrences<T(==)>(h: seq<T>, b: T): nat
  {
    if h == [] then 0
    else (if h[0] == b then 1 else 0) + Occurrences(h[1..], b)
  }

  /** Occurrences add up over the parts of a history. */
  lemma {:induction false} OccurrencesAppend<T>(h: seq<T>, g: seq<T>, b: T)
    ensures Occurrences(h + g, b) == Occurrences(h, b) + Occurrences(g, b)
  {
    if h != [] {
      assert (h + g)[1..] == h[1..] + g;
      OccurrencesAppend(h[1..], g, b);
    } else {
      assert h + g == g;
    }
  }

  /** A detected repetition is a genuine one: the repeated position occurs
      at least three times in the history. */
  lemma DetectSound<T>(h: seq<T>)
    requires Detect(h) == Ok(true)
    ensures Occurrences(h, h[FirstSlot]) >= 3
  {
    var b := h[0];
    assert h == h[..4] + (h[4..8] + h[8..]);
    OccurrencesAppend(h[..4], h[4..8] + h[8..], b);
    OccurrencesAppend(h[4..8], h[8..], b);
    assert Occurrences(h[..4], b) >= 1;
    assert Occurrences(h[4..8], b) >= 1;
    assert Occurrences(h[8..], b) >= 1;
  }

  /** The check is a fixed-window approximation of the threefold-repetition
      rule: a position seen three times at plies 0, 3 and 7 of a full history
      goes undetected. */
  lemma DetectMissesIrregularSpacing()
    ensures var h := [1, 2, 3, 1, 4, 5, 6, 1, 7];
      Occurrences(h, 1) == 3 && Detect(h) == Ok(false)
  {
  }
}
