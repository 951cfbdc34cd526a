/**
 * The page cursor of the dashboard: the next-page button moves it forward
 * without bound, the previous-page button moves it back but never below the
 * first page.
 */
module Paging {

  const FirstPage := 1

  /** The page after the next-page button: later than the current one, with no end-of-data check. */
  function Next(p: int): (q: int)
    ensures q > p
  {
    p + 1
  }

  /** The page after the previous-page button: `Math.max(p - 1, 1)`. */
  function Prev(p: int): (q: int)
    ensures q >= FirstPage
    ensures p > FirstPage ==> Next(q) == p
    ensures p <= FirstPage ==> q == FirstPage
  {
    if p - 1 > FirstPage then p - 1 else FirstPage
  }

  /** Going back undoes going forward, from any valid page. */
  lemma PrevUndoesNext(p: int)
    requires p >= FirstPage
    ensures Prev(Next(p)) == p
  {
  }

  datatype Move = NextMove | PrevMove

  function Step(p: int, m: Move): int
  {
    match m
    case NextMove => Next(p)
    case PrevMove => Prev(p)
  }

  /** The cursor after a run of button presses, starting from a valid page: it is still a valid page. */
  function PageAfter(p: int, moves: seq<Move>): (q: int)
    requires p >= FirstPage
    ensures q >= FirstPage
    decreases |moves|
  {
    if moves == [] then p else PageAfter(Step(p, moves[0]), moves[1..])
  }

  /** `n` presses of the previous-page button from page `p` land on `max(p - n, 1)`; pressing at page 1 stays there. */
  lemma {:induction false} PrevRepeated(p: int, n: nat)
    requires p >= FirstPage
    ensures PageAfter(p, seq(n, _ => PrevMove)) == if p - n > FirstPage then p - n else FirstPage
    decreases n
  {
    var moves := seq(n, _ => PrevMove);
    if n > 0 {
      assert moves[0] == PrevMove;
      assert moves[1..] == seq(n - 1, _ => PrevMove);
      PrevRepeated(Prev(p), n - 1);
    }
  }

  /** `n` presses of the next-page button from page `p` land on page `p + n`. */
  lemma {:induction false} NextRepeated(p: int, n: nat)
    requires p >= FirstPage
    ensures PageAfter(p, seq(n, _ => NextMove)) == p + n
    decreases n
  {
    var moves := seq(n, _ => NextMove);
    if n > 0 {
      assert moves[0] == NextMove;
      assert moves[1..] == seq(n - 1, _ => NextMove);
      NextRepeated(Next(p), n - 1);
    }
  }
}
