/**
 * The alpha-beta search of ai.py's minimax, stated over any type of position with
 * an evaluation and a successor function, beside the plain minimax value it
 * approximates. The max player starts from -10001 and keeps a child whose score
 * is >= the best so far (so the last of equal children wins); the min player
 * starts from 10001 with <=. Both stop scanning children as soon as
 * beta <= alpha.
 */
module Search {
  import opened Chessboard

  /** What minimax returns: the score and the board it was reached through. */
  datatype Outcome<T> = Outcome(score: int, best: Option<T>)

  function Max(a: int, b: int): (m: int)
    ensures m >= a && m >= b && (m == a || m == b)
  {
    if a >= b then a else b
  }

  function Min(a: int, b: int): (m: int)
    ensures m <= a && m <= b && (m == a || m == b)
  {
    if a <= b then a else b
  }

  /** A position ends the search when the depth is spent or its evaluation is a mate score. */
  predicate Terminal<T>(eval: T -> int, p: T, depth: nat) {
    depth == 0 || eval(p) == -10000 || eval(p) == 10000
  }

  /** minimax(board, depth, alpha, beta, maximizing_player). */
  function Minimax<T>(eval: T -> int, next: (T, bool) -> seq<T>, p: T, depth: nat,
                      alpha: int, beta: int, maxing: bool): Outcome<T>
    decreases depth, 1, 0
  {
    if Terminal(eval, p, depth) then Outcome(eval(p), Some(p))
    else if maxing then MaxLoop(eval, next, next(p, true), 0, depth - 1, alpha, beta, Outcome(-10001, None))
    else MinLoop(eval, next, next(p, false), 0, depth - 1, alpha, beta, Outcome(10001, None))
  }

  /** The max player's loop from child i on, with the best so far in acc. */
  function MaxLoop<T>(eval: T -> int, next: (T, bool) -> seq<T>, kids: seq<T>, i: nat, d: nat,
                      alpha: int, beta: int, acc: Outcome<T>): Outcome<T>
    requires i <= |kids|
    decreases d + 1, 0, |kids| - i
  {
    if i == |kids| then acc
    else
      var e := Minimax(eval, next, kids[i], d, alpha, beta, false).score;
      var acc' := if e >= acc.score then Outcome(e, Some(kids[i])) else acc;
      var alpha' := Max(alpha, e);
      if beta <= alpha' then acc' else MaxLoop(eval, next, kids, i + 1, d, alpha', beta, acc')
  }

  /** The min player's loop from child i on, with the best so far in acc. */
  function MinLoop<T>(eval: T -> int, next: (T, bool) -> seq<T>, kids: seq<T>, i: nat, d: nat,
                      alpha: int, beta: int, acc: Outcome<T>): Outcome<T>
    requires i <= |kids|
    decreases d + 1, 0, |kids| - i
  {
    if i == |kids| then acc
    else
      var e := Minimax(eval, next, kids[i], d, alpha, beta, true).score;
      var acc' := if e <= acc.score then Outcome(e, Some(kids[i])) else acc;
      var beta' := Min(beta, e);
      if beta' <= alpha then acc' else MinLoop(eval, next, kids, i + 1, d, alpha, beta', acc')
  }

  /** The minimax value without pruning, with the same -10001 and 10001 starting bounds
      and the same terminal positions: the reference the pruned search is measured against. */
  function Value<T>(eval: T -> int, next: (T, bool) -> seq<T>, p: T, depth: nat, maxing: bool): int
    decreases depth, 1, 0
  {
    if Terminal(eval, p, depth) then eval(p)
    else if maxing then MaxValue(eval, next, next(p, true), 0, depth - 1)
    else MinValue(eval, next, next(p, false), 0, depth - 1)
  }

  /** The largest value of the children from i on, and at least -10001. */
  function MaxValue<T>(eval: T -> int, next: (T, bool) -> seq<T>, kids: seq<T>, i: nat, d: nat): int
    requires i <= |kids|
    decreases d + 1, 0, |kids| - i
  {
    if i == |kids| then -10001
    else Max(Value(eval, next, kids[i], d, false), MaxValue(eval, next, kids, i + 1, d))
  }

  /** The smallest value of the children from i on, and at most 10001. */
  function MinValue<T>(eval: T -> int, next: (T, bool) -> seq<T>, kids: seq<T>, i: nat, d: nat): int
    requires i <= |kids|
    decreases d + 1, 0, |kids| - i
  {
    if i == |kids| then 10001
    else Min(Value(eval, next, kids[i], d, true), MinValue(eval, next, kids, i + 1, d))
  }

  /** The max loop never returns less than the best score it started with. */
  lemma {:induction false} MaxLoopAtLeast<T>(eval: T -> int, next: (T, bool) -> seq<T>, kids: seq<T>, i: nat, d: nat,
                                             alpha: int, beta: int, acc: Outcome<T>)
    requires i <= |kids|
    ensures MaxLoop(eval, next, kids, i, d, alpha, beta, acc).score >= acc.score
    decreases |kids| - i
  {
    if i < |kids| {
      var e := Minimax(eval, next, kids[i], d, alpha, beta, false).score;
      var acc' := if e >= acc.score then Outcome(e, Some(kids[i])) else acc;
      if beta > Max(alpha, e) {
        MaxLoopAtLeast(eval, next, kids, i + 1, d, Max(alpha, e), beta, acc');
      }
    }
  }

  /** The min loop never returns more than the best score it started with. */
  lemma {:induction false} MinLoopAtMost<T>(eval: T -> int, next: (T, bool) -> seq<T>, kids: seq<T>, i: nat, d: nat,
                                            alpha: int, beta: int, acc: Outcome<T>)
    requires i <= |kids|
    ensures MinLoop(eval, next, kids, i, d, alpha, beta, acc).score <= acc.score
    decreases |kids| - i
  {
    if i < |kids| {
      var e := Minimax(eval, next, kids[i], d, alpha, beta, true).score;
      var acc' := if e <= acc.score then Outcome(e, Some(kids[i])) else acc;
      if Min(beta, e) > alpha {
        MinLoopAtMost(eval, next, kids, i + 1, d, alpha, Min(beta, e), acc');
      }
    }
  }

  /** The correctness of the pruning: with a window inside [-10001, 10001] the pruned
      score equals the minimax value when that value lies strictly inside the window,
      is at most alpha when the value is at most alpha, and at least beta when the value
      is at least beta. */
  predicate WindowAgrees(s: int, v: int, alpha: int, beta: int) {
    (alpha < v < beta ==> s == v) && (v <= alpha ==> s <= alpha) && (v >= beta ==> s >= beta)
  }

  lemma {:induction false} MinimaxWindow<T>(eval: T -> int, next: (T, bool) -> seq<T>, p: T, depth: nat,
                                            alpha: int, beta: int, maxing: bool)
    requires -10001 <= alpha < beta <= 10001
    ensures WindowAgrees(Minimax(eval, next, p, depth, alpha, beta, maxing).score,
                         Value(eval, next, p, depth, maxing), alpha, beta)
    decreases depth, 1, 0
  {
    if !Terminal(eval, p, depth) {
      if maxing {
        MaxLoopWindow(eval, next, next(p, true), 0, depth - 1, alpha, beta, Outcome(-10001, None));
      } else {
        MinLoopWindow(eval, next, next(p, false), 0, depth - 1, alpha, beta, Outcome(10001, None));
      }
    }
  }

  lemma {:induction false} MaxLoopWindow<T>(eval: T -> int, next: (T, bool) -> seq<T>, kids: seq<T>, i: nat, d: nat,
                                            alpha: int, beta: int, acc: Outcome<T>)
    requires i <= |kids|
    requires -10001 <= alpha < beta <= 10001 && acc.score <= alpha
    ensures WindowAgrees(MaxLoop(eval, next, kids, i, d, alpha, beta, acc).score,
                         MaxValue(eval, next, kids, i, d), alpha, beta)
    decreases d + 1, 0, |kids| - i
  {
    if i < |kids| {
      var e := Minimax(eval, next, kids[i], d, alpha, beta, false).score;
      var v := Value(eval, next, kids[i], d, false);
      MinimaxWindow(eval, next, kids[i], d, alpha, beta, false);
      var acc' := if e >= acc.score then Outcome(e, Some(kids[i])) else acc;
      var alpha' := Max(alpha, e);
      if beta > alpha' {
        assert alpha' == Max(alpha, v);
        MaxLoopWindow(eval, next, kids, i + 1, d, alpha', beta, acc');
        MaxLoopAtLeast(eval, next, kids, i + 1, d, alpha', beta, acc');
      }
    }
  }

  lemma {:induction false} MinLoopWindow<T>(eval: T -> int, next: (T, bool) -> seq<T>, kids: seq<T>, i: nat, d: nat,
                                            alpha: int, beta: int, acc: Outcome<T>)
    requires i <= |kids|
    requires -10001 <= alpha < beta <= 10001 && acc.score >= beta
    ensures WindowAgrees(MinLoop(eval, next, kids, i, d, alpha, beta, acc).score,
                         MinValue(eval, next, kids, i, d), alpha, beta)
    decreases d + 1, 0, |kids| - i
  {
    if i < |kids| {
      var e := Minimax(eval, next, kids[i], d, alpha, beta, true).score;
      var v := Value(eval, next, kids[i], d, true);
      MinimaxWindow(eval, next, kids[i], d, alpha, beta, true);
      var acc' := if e <= acc.score then Outcome(e, Some(kids[i])) else acc;
      var beta' := Min(beta, e);
      if beta' > alpha {
        assert beta' == Min(beta, v);
        MinLoopWindow(eval, next, kids, i + 1, d, alpha, beta', acc');
        MinLoopAtMost(eval, next, kids, i + 1, d, alpha, beta', acc');
      }
    }
  }

  /** At the root window (-10001, 10001) pruning changes nothing whenever the minimax
      value lies strictly between the two bounds. */
  lemma MinimaxRoot<T>(eval: T -> int, next: (T, bool) -> seq<T>, p: T, depth: nat, maxing: bool)
    requires -10001 < Value(eval, next, p, depth, maxing) < 10001
    ensures Minimax(eval, next, p, depth, -10001, 10001, maxing).score == Value(eval, next, p, depth, maxing)
  {
    MinimaxWindow(eval, next, p, depth, -10001, 10001, maxing);
  }

  /** A terminal position is returned with its own evaluation. */
  lemma MinimaxTerminal<T>(eval: T -> int, next: (T, bool) -> seq<T>, p: T, depth: nat,
                           alpha: int, beta: int, maxing: bool)
    requires Terminal(eval, p, depth)
    ensures Minimax(eval, next, p, depth, alpha, beta, maxing) == Outcome(eval(p), Some(p))
    ensures Value(eval, next, p, depth, maxing) == eval(p)
  {
  }

  /** A non-terminal position without successors yields the starting bound and no board. */
  lemma MinimaxNoMoves<T>(eval: T -> int, next: (T, bool) -> seq<T>, p: T, depth: nat,
                          alpha: int, beta: int, maxing: bool)
    requires !Terminal(eval, p, depth) && next(p, maxing) == []
    ensures Minimax(eval, next, p, depth, alpha, beta, maxing) ==
      Outcome(if maxing then -10001 else 10001, None)
  {
  }

  /** The scores the max loop obtains from its children, from child i on, up to and
      including the child after which beta <= alpha stops it: one per child it examines. */
  function MaxSeen<T>(eval: T -> int, next: (T, bool) -> seq<T>, kids: seq<T>, i: nat, d: nat,
                      alpha: int, beta: int): (es: seq<int>)
    requires i <= |kids|
    ensures |es| <= |kids| - i
    decreases d + 1, 0, |kids| - i
  {
    if i == |kids| then []
    else
      var e := Minimax(eval, next, kids[i], d, alpha, beta, false).score;
      if beta <= Max(alpha, e) then [e] else [e] + MaxSeen(eval, next, kids, i + 1, d, Max(alpha, e), beta)
  }

  /** The min loop's counterpart of MaxSeen. */
  function MinSeen<T>(eval: T -> int, next: (T, bool) -> seq<T>, kids: seq<T>, i: nat, d: nat,
                      alpha: int, beta: int): (es: seq<int>)
    requires i <= |kids|
    ensures |es| <= |kids| - i
    decreases d + 1, 0, |kids| - i
  {
    if i == |kids| then []
    else
      var e := Minimax(eval, next, kids[i], d, alpha, beta, true).score;
      if Min(beta, e) <= alpha then [e] else [e] + MinSeen(eval, next, kids, i + 1, d, alpha, Min(beta, e))
  }

  /** r pairs the largest of the examined scores es with child i + j, the last examined
      child that obtains it. */
  ghost predicate LastMaximum<T>(r: Outcome<T>, es: seq<int>, kids: seq<T>, i: nat, j: int) {
    0 <= j < |es| && i + j < |kids| && r == Outcome(es[j], Some(kids[i + j])) &&
    (forall k :: 0 <= k < |es| ==> es[k] <= es[j]) &&
    (forall k :: j < k < |es| ==> es[k] < es[j])
  }

  /** r pairs the smallest of the examined scores es with child i + j, the last examined
      child that obtains it. */
  ghost predicate LastMinimum<T>(r: Outcome<T>, es: seq<int>, kids: seq<T>, i: nat, j: int) {
    0 <= j < |es| && i + j < |kids| && r == Outcome(es[j], Some(kids[i + j])) &&
    (forall k :: 0 <= k < |es| ==> es[k] >= es[j]) &&
    (forall k :: j < k < |es| ==> es[k] > es[j])
  }

  /** Putting a score no larger than the maximum in front keeps the same child as the
      last one attaining it. */
  lemma MaximumShift<T>(r: Outcome<T>, e: int, es: seq<int>, kids: seq<T>, i: nat, j: int)
    requires LastMaximum(r, es, kids, i + 1, j) && e <= es[j]
    ensures LastMaximum(r, [e] + es, kids, i, j + 1)
  {
    assert forall k :: 0 < k < |[e] + es| ==> ([e] + es)[k] == es[k - 1];
  }

  /** A score above all that follow it, put in front, is the last one attaining the
      maximum. */
  lemma MaximumFront<T>(r: Outcome<T>, e: int, es: seq<int>, kids: seq<T>, i: nat)
    requires i < |kids| && r == Outcome(e, Some(kids[i]))
    requires forall k :: 0 <= k < |es| ==> es[k] < e
    ensures LastMaximum(r, [e] + es, kids, i, 0)
  {
    assert forall k :: 0 < k < |[e] + es| ==> ([e] + es)[k] == es[k - 1];
  }

  /** The mirror of MaximumShift for the minimum. */
  lemma MinimumShift<T>(r: Outcome<T>, e: int, es: seq<int>, kids: seq<T>, i: nat, j: int)
    requires LastMinimum(r, es, kids, i + 1, j) && e >= es[j]
    ensures LastMinimum(r, [e] + es, kids, i, j + 1)
  {
    assert forall k :: 0 < k < |[e] + es| ==> ([e] + es)[k] == es[k - 1];
  }

  /** The mirror of MaximumFront for the minimum. */
  lemma MinimumFront<T>(r: Outcome<T>, e: int, es: seq<int>, kids: seq<T>, i: nat)
    requires i < |kids| && r == Outcome(e, Some(kids[i]))
    requires forall k :: 0 <= k < |es| ==> es[k] > e
    ensures LastMinimum(r, [e] + es, kids, i, 0)
  {
    assert forall k :: 0 < k < |[e] + es| ==> ([e] + es)[k] == es[k - 1];
  }

  /** The max loop hands back the running best it started with when no examined
      child reaches its score. */
  lemma {:induction false} MaxLoopKeeps<T>(eval: T -> int, next: (T, bool) -> seq<T>, kids: seq<T>, i: nat, d: nat,
                                          alpha: int, beta: int, acc: Outcome<T>)
    requires i <= |kids|
    requires forall k :: 0 <= k < |MaxSeen(eval, next, kids, i, d, alpha, beta)| ==>
               MaxSeen(eval, next, kids, i, d, alpha, beta)[k] < acc.score
    ensures MaxLoop(eval, next, kids, i, d, alpha, beta, acc) == acc
    decreases |kids| - i
  {
    if i < |kids| {
      var e := Minimax(eval, next, kids[i], d, alpha, beta, false).score;
      var alpha' := Max(alpha, e);
      var es := MaxSeen(eval, next, kids, i, d, alpha, beta);
      assert es[0] == e;
      if !(beta <= alpha') {
        var es' := MaxSeen(eval, next, kids, i + 1, d, alpha', beta);
        assert es == [e] + es';
        assert forall k :: 0 <= k < |es'| ==> es'[k] == es[k + 1];
        MaxLoopKeeps(eval, next, kids, i + 1, d, alpha', beta, acc);
      }
    }
  }

  /** When some examined child reaches the running best's score, the max loop returns
      the largest examined score with the last examined child obtaining it. */
  lemma {:induction false} MaxLoopLast<T>(eval: T -> int, next: (T, bool) -> seq<T>, kids: seq<T>, i: nat, d: nat,
                                          alpha: int, beta: int, acc: Outcome<T>) returns (j: int)
    requires i <= |kids|
    requires exists k :: 0 <= k < |MaxSeen(eval, next, kids, i, d, alpha, beta)| &&
               MaxSeen(eval, next, kids, i, d, alpha, beta)[k] >= acc.score
    ensures LastMaximum(MaxLoop(eval, next, kids, i, d, alpha, beta, acc),
                       MaxSeen(eval, next, kids, i, d, alpha, beta), kids, i, j)
    decreases |kids| - i
  {
    var e := Minimax(eval, next, kids[i], d, alpha, beta, false).score;
    var acc' := if e >= acc.score then Outcome(e, Some(kids[i])) else acc;
    var alpha' := Max(alpha, e);
    var es := MaxSeen(eval, next, kids, i, d, alpha, beta);
    var r := MaxLoop(eval, next, kids, i, d, alpha, beta, acc);
    var k0 :| 0 <= k0 < |es| && es[k0] >= acc.score;
    if beta <= alpha' {
      assert es == [e] && r == acc';
      j := 0;
    } else {
      var es' := MaxSeen(eval, next, kids, i + 1, d, alpha', beta);
      assert es == [e] + es';
      assert r == MaxLoop(eval, next, kids, i + 1, d, alpha', beta, acc');
      if exists k :: 0 <= k < |es'| && es'[k] >= acc'.score {
        var j' := MaxLoopLast(eval, next, kids, i + 1, d, alpha', beta, acc');
        var k1 :| 0 <= k1 < |es'| && es'[k1] >= acc'.score;
        assert e <= acc'.score <= es'[k1] <= es'[j'];
        MaximumShift(r, e, es', kids, i, j');
        j := j' + 1;
      } else {
        MaxLoopKeeps(eval, next, kids, i + 1, d, alpha', beta, acc');
        if k0 > 0 {
          assert es'[k0 - 1] == es[k0];
        }
        MaximumFront(r, e, es', kids, i);
        j := 0;
      }
    }
  }

  /** What the max loop returns, in terms of the scores of the children it examines: the
      running best it started with when none of them reaches its score, and otherwise the
      largest examined score with the last examined child obtaining it (the `>=` update). */
  lemma {:induction false} MaxLoopBest<T>(eval: T -> int, next: (T, bool) -> seq<T>, kids: seq<T>, i: nat, d: nat,
                                          alpha: int, beta: int, acc: Outcome<T>) returns (j: int)
    requires i <= |kids|
    ensures (forall k :: 0 <= k < |MaxSeen(eval, next, kids, i, d, alpha, beta)| ==>
               MaxSeen(eval, next, kids, i, d, alpha, beta)[k] < acc.score) ==>
              MaxLoop(eval, next, kids, i, d, alpha, beta, acc) == acc
    ensures (exists k :: 0 <= k < |MaxSeen(eval, next, kids, i, d, alpha, beta)| &&
               MaxSeen(eval, next, kids, i, d, alpha, beta)[k] >= acc.score) ==>
              LastMaximum(MaxLoop(eval, next, kids, i, d, alpha, beta, acc),
                         MaxSeen(eval, next, kids, i, d, alpha, beta), kids, i, j)
  {
    j := 0;
    if exists k :: 0 <= k < |MaxSeen(eval, next, kids, i, d, alpha, beta)| &&
                   MaxSeen(eval, next, kids, i, d, alpha, beta)[k] >= acc.score {
      var k0 :| 0 <= k0 < |MaxSeen(eval, next, kids, i, d, alpha, beta)| &&
                MaxSeen(eval, next, kids, i, d, alpha, beta)[k0] >= acc.score;
      j := MaxLoopLast(eval, next, kids, i, d, alpha, beta, acc);
    } else {
      MaxLoopKeeps(eval, next, kids, i, d, alpha, beta, acc);
    }
  }

  /** The min loop hands back the running best it started with when no examined
      child reaches its score. */
  lemma {:induction false} MinLoopKeeps<T>(eval: T -> int, next: (T, bool) -> seq<T>, kids: seq<T>, i: nat, d: nat,
                                          alpha: int, beta: int, acc: Outcome<T>)
    requires i <= |kids|
    requires forall k :: 0 <= k < |MinSeen(eval, next, kids, i, d, alpha, beta)| ==>
               MinSeen(eval, next, kids, i, d, alpha, beta)[k] > acc.score
    ensures MinLoop(eval, next, kids, i, d, alpha, beta, acc) == acc
    decreases |kids| - i
  {
    if i < |kids| {
      var e := Minimax(eval, next, kids[i], d, alpha, beta, true).score;
      var beta' := Min(beta, e);
      var es := MinSeen(eval, next, kids, i, d, alpha, beta);
      assert es[0] == e;
      if !(beta' <= alpha) {
        var es' := MinSeen(eval, next, kids, i + 1, d, alpha, beta');
        assert es == [e] + es';
        assert forall k :: 0 <= k < |es'| ==> es'[k] == es[k + 1];
        MinLoopKeeps(eval, next, kids, i + 1, d, alpha, beta', acc);
      }
    }
  }

  /** The min loop's counterpart of MaxLoopLast. */
  lemma {:induction false} MinLoopLast<T>(eval: T -> int, next: (T, bool) -> seq<T>, kids: seq<T>, i: nat, d: nat,
                                          alpha: int, beta: int, acc: Outcome<T>) returns (j: int)
    requires i <= |kids|
    requires exists k :: 0 <= k < |MinSeen(eval, next, kids, i, d, alpha, beta)| &&
               MinSeen(eval, next, kids, i, d, alpha, beta)[k] <= acc.score
    ensures LastMinimum(MinLoop(eval, next, kids, i, d, alpha, beta, acc),
                       MinSeen(eval, next, kids, i, d, alpha, beta), kids, i, j)
    decreases |kids| - i
  {
    var e := Minimax(eval, next, kids[i], d, alpha, beta, true).score;
    var acc' := if e <= acc.score then Outcome(e, Some(kids[i])) else acc;
    var beta' := Min(beta, e);
    var es := MinSeen(eval, next, kids, i, d, alpha, beta);
    var r := MinLoop(eval, next, kids, i, d, alpha, beta, acc);
    var k0 :| 0 <= k0 < |es| && es[k0] <= acc.score;
    if beta' <= alpha {
      assert es == [e] && r == acc';
      j := 0;
    } else {
      var es' := MinSeen(eval, next, kids, i + 1, d, alpha, beta');
      assert es == [e] + es';
      assert r == MinLoop(eval, next, kids, i + 1, d, alpha, beta', acc');
      if exists k :: 0 <= k < |es'| && es'[k] <= acc'.score {
        var j' := MinLoopLast(eval, next, kids, i + 1, d, alpha, beta', acc');
        var k1 :| 0 <= k1 < |es'| && es'[k1] <= acc'.score;
        assert e >= acc'.score >= es'[k1] >= es'[j'];
        MinimumShift(r, e, es', kids, i, j');
        j := j' + 1;
      } else {
        MinLoopKeeps(eval, next, kids, i + 1, d, alpha, beta', acc');
        if k0 > 0 {
          assert es'[k0 - 1] == es[k0];
        }
        MinimumFront(r, e, es', kids, i);
        j := 0;
      }
    }
  }

  /** The min loop's counterpart of MaxLoopBest, with the `<=` update. */
  lemma {:induction false} MinLoopBest<T>(eval: T -> int, next: (T, bool) -> seq<T>, kids: seq<T>, i: nat, d: nat,
                                          alpha: int, beta: int, acc: Outcome<T>) returns (j: int)
    requires i <= |kids|
    ensures (forall k :: 0 <= k < |MinSeen(eval, next, kids, i, d, alpha, beta)| ==>
               MinSeen(eval, next, kids, i, d, alpha, beta)[k] > acc.score) ==>
              MinLoop(eval, next, kids, i, d, alpha, beta, acc) == acc
    ensures (exists k :: 0 <= k < |MinSeen(eval, next, kids, i, d, alpha, beta)| &&
               MinSeen(eval, next, kids, i, d, alpha, beta)[k] <= acc.score) ==>
              LastMinimum(MinLoop(eval, next, kids, i, d, alpha, beta, acc),
                         MinSeen(eval, next, kids, i, d, alpha, beta), kids, i, j)
  {
    j := 0;
    if exists k :: 0 <= k < |MinSeen(eval, next, kids, i, d, alpha, beta)| &&
                   MinSeen(eval, next, kids, i, d, alpha, beta)[k] <= acc.score {
      var k0 :| 0 <= k0 < |MinSeen(eval, next, kids, i, d, alpha, beta)| &&
                MinSeen(eval, next, kids, i, d, alpha, beta)[k0] <= acc.score;
      j := MinLoopLast(eval, next, kids, i, d, alpha, beta, acc);
    } else {
      MinLoopKeeps(eval, next, kids, i, d, alpha, beta, acc);
    }
  }

  /** The board minimax returns is the position itself when it is terminal and otherwise,
      if there is one, a successor for the player to move. */
  lemma MinimaxBest<T>(eval: T -> int, next: (T, bool) -> seq<T>, p: T, depth: nat,
                       alpha: int, beta: int, maxing: bool)
    ensures var r := Minimax(eval, next, p, depth, alpha, beta, maxing);
      r.best.Some? ==> r.best.value == p || r.best.value in next(p, maxing)
    ensures var r := Minimax(eval, next, p, depth, alpha, beta, maxing);
      !Terminal(eval, p, depth) && r.best.Some? ==> r.best.value in next(p, maxing)
  {
    if !Terminal(eval, p, depth) {
      if maxing {
        var j := MaxLoopBest(eval, next, next(p, true), 0, depth - 1, alpha, beta, Outcome(-10001, None));
      } else {
        var j := MinLoopBest(eval, next, next(p, false), 0, depth - 1, alpha, beta, Outcome(10001, None));
      }
    }
  }

  /* The `>=` and `<=` updates let a child replace the best board when it only ties. After a
     cutoff a child's score is a bound rather than its value, so a pruned child that ties the
     best score displaces a child that really obtains it. The loops below replace only on a
     strict improvement. The scores are unchanged, and the board kept is then one whose
     unpruned value is the score. */

  /** The max loop keeping the first child that obtains the largest score. */
  function MaxLoopFirst<T>(eval: T -> int, next: (T, bool) -> seq<T>, kids: seq<T>, i: nat, d: nat,
                           alpha: int, beta: int, acc: Outcome<T>): Outcome<T>
    requires i <= |kids|
    decreases |kids| - i
  {
    if i == |kids| then acc
    else
      var e := Minimax(eval, next, kids[i], d, alpha, beta, false).score;
      var acc' := if e > acc.score then Outcome(e, Some(kids[i])) else acc;
      var alpha' := Max(alpha, e);
      if beta <= alpha' then acc' else MaxLoopFirst(eval, next, kids, i + 1, d, alpha', beta, acc')
  }

  /** The min loop keeping the first child that obtains the smallest score. */
  function MinLoopFirst<T>(eval: T -> int, next: (T, bool) -> seq<T>, kids: seq<T>, i: nat, d: nat,
                           alpha: int, beta: int, acc: Outcome<T>): Outcome<T>
    requires i <= |kids|
    decreases |kids| - i
  {
    if i == |kids| then acc
    else
      var e := Minimax(eval, next, kids[i], d, alpha, beta, true).score;
      var acc' := if e < acc.score then Outcome(e, Some(kids[i])) else acc;
      var beta' := Min(beta, e);
      if beta' <= alpha then acc' else MinLoopFirst(eval, next, kids, i + 1, d, alpha, beta', acc')
  }

  /** minimax with the strict updates at the node searched. */
  function MinimaxFirst<T>(eval: T -> int, next: (T, bool) -> seq<T>, p: T, depth: nat,
                           alpha: int, beta: int, maxing: bool): Outcome<T>
  {
    if Terminal(eval, p, depth) then Outcome(eval(p), Some(p))
    else if maxing then MaxLoopFirst(eval, next, next(p, true), 0, depth - 1, alpha, beta, Outcome(-10001, None))
    else MinLoopFirst(eval, next, next(p, false), 0, depth - 1, alpha, beta, Outcome(10001, None))
  }

  /** The strict max loop computes the same score as the `>=` loop, and the board it keeps
      obtains that score by its unpruned value whenever the score lies strictly between
      alpha0 and beta. Here alpha0 is the alpha of the node, and alpha has grown from it by
      the scores seen. */
  lemma {:induction false} MaxLoopFirstBest<T>(eval: T -> int, next: (T, bool) -> seq<T>, kids: seq<T>, i: nat, d: nat,
                                               alpha0: int, alpha: int, beta: int, acc: Outcome<T>, other: Outcome<T>)
    requires i <= |kids|
    requires -10001 <= alpha0 && alpha == Max(alpha0, acc.score) && alpha < beta <= 10001
    requires other.score == acc.score
    requires acc.best.Some? && alpha0 < acc.score < beta ==> Value(eval, next, acc.best.value, d, false) == acc.score
    ensures var r := MaxLoopFirst(eval, next, kids, i, d, alpha, beta, acc);
      r.score == MaxLoop(eval, next, kids, i, d, alpha, beta, other).score
    ensures var r := MaxLoopFirst(eval, next, kids, i, d, alpha, beta, acc);
      r.best.Some? && alpha0 < r.score < beta ==> Value(eval, next, r.best.value, d, false) == r.score
    ensures var r := MaxLoopFirst(eval, next, kids, i, d, alpha, beta, acc);
      r == acc || (r.best.Some? && r.best.value in kids[i..])
    decreases |kids| - i
  {
    if i < |kids| {
      var e := Minimax(eval, next, kids[i], d, alpha, beta, false).score;
      MinimaxWindow(eval, next, kids[i], d, alpha, beta, false);
      var acc' := if e > acc.score then Outcome(e, Some(kids[i])) else acc;
      var other' := if e >= other.score then Outcome(e, Some(kids[i])) else other;
      var alpha' := Max(alpha, e);
      if beta > alpha' {
        MaxLoopFirstBest(eval, next, kids, i + 1, d, alpha0, alpha', beta, acc', other');
        assert kids[i + 1..] <= kids[i..][1..];
      }
    }
  }

  /** The min loop's counterpart, with beta0 the beta of the node. */
  lemma {:induction false} MinLoopFirstBest<T>(eval: T -> int, next: (T, bool) -> seq<T>, kids: seq<T>, i: nat, d: nat,
                                               alpha: int, beta0: int, beta: int, acc: Outcome<T>, other: Outcome<T>)
    requires i <= |kids|
    requires beta0 <= 10001 && beta == Min(beta0, acc.score) && -10001 <= alpha < beta
    requires other.score == acc.score
    requires acc.best.Some? && alpha < acc.score < beta0 ==> Value(eval, next, acc.best.value, d, true) == acc.score
    ensures var r := MinLoopFirst(eval, next, kids, i, d, alpha, beta, acc);
      r.score == MinLoop(eval, next, kids, i, d, alpha, beta, other).score
    ensures var r := MinLoopFirst(eval, next, kids, i, d, alpha, beta, acc);
      r.best.Some? && alpha < r.score < beta0 ==> Value(eval, next, r.best.value, d, true) == r.score
    ensures var r := MinLoopFirst(eval, next, kids, i, d, alpha, beta, acc);
      r == acc || (r.best.Some? && r.best.value in kids[i..])
    decreases |kids| - i
  {
    if i < |kids| {
      var e := Minimax(eval, next, kids[i], d, alpha, beta, true).score;
      MinimaxWindow(eval, next, kids[i], d, alpha, beta, true);
      var acc' := if e < acc.score then Outcome(e, Some(kids[i])) else acc;
      var other' := if e <= other.score then Outcome(e, Some(kids[i])) else other;
      var beta' := Min(beta, e);
      if beta' > alpha {
        MinLoopFirstBest(eval, next, kids, i + 1, d, alpha, beta0, beta', acc', other');
        assert kids[i + 1..] <= kids[i..][1..];
      }
    }
  }

  /** With the strict updates the search reports the same score, and the board it returns
      below a non-terminal position is a successor whose unpruned value is that score
      whenever the score lies strictly inside the window. At the root window the returned
      move therefore attains the minimax value of the position (MinimaxRoot). */
  lemma MinimaxFirstBest<T>(eval: T -> int, next: (T, bool) -> seq<T>, p: T, depth: nat,
                            alpha: int, beta: int, maxing: bool)
    requires -10001 <= alpha < beta <= 10001
    ensures MinimaxFirst(eval, next, p, depth, alpha, beta, maxing).score ==
      Minimax(eval, next, p, depth, alpha, beta, maxing).score
    ensures var r := MinimaxFirst(eval, next, p, depth, alpha, beta, maxing);
      !Terminal(eval, p, depth) && r.best.Some? && alpha < r.score < beta ==>
        r.best.value in next(p, maxing) && Value(eval, next, r.best.value, depth - 1, !maxing) == r.score
  {
    if !Terminal(eval, p, depth) {
      if maxing {
        MaxLoopFirstBest(eval, next, next(p, true), 0, depth - 1, alpha, alpha, beta,
                         Outcome(-10001, None), Outcome(-10001, None));
        assert next(p, true)[0..] == next(p, true);
      } else {
        MinLoopFirstBest(eval, next, next(p, false), 0, depth - 1, alpha, beta, beta,
                         Outcome(10001, None), Outcome(10001, None));
        assert next(p, false)[0..] == next(p, false);
      }
    }
  }

  /** A game tree that shows the tie-break at work: position 0 has the successors 1 and 2,
      position 1 leads to 5, and position 2 to 3 and 4. Every position evaluates to 5
      except 4, which evaluates to 3. */
  function CutoffEval(p: int): int {
    if p == 4 then 3 else 5
  }

  function CutoffNext(p: int, maxing: bool): seq<int> {
    if p == 0 then [1, 2] else if p == 1 then [5] else if p == 2 then [3, 4] else []
  }

  /** On that tree, searched two plies deep from the root window, the `>=` search reports 5
      and returns position 2, whose unpruned value is 3. The search of position 2 stops at
      its first successor, with a bound that ties the 5 of position 1, and the tie replaces
      position 1. The root's minimax value is 5, and the strict search returns position 1,
      whose value is 5. */
  lemma TieBreakAfterCutoff()
    ensures Minimax(CutoffEval, CutoffNext, 0, 2, -10001, 10001, true) == Outcome(5, Some(2))
    ensures Value(CutoffEval, CutoffNext, 2, 1, false) == 3
    ensures Value(CutoffEval, CutoffNext, 0, 2, true) == 5
    ensures MinimaxFirst(CutoffEval, CutoffNext, 0, 2, -10001, 10001, true) == Outcome(5, Some(1))
    ensures Value(CutoffEval, CutoffNext, 1, 1, false) == 5
  {
    var E, N := CutoffEval, CutoffNext;
    assert Minimax(E, N, 5, 0, -10001, 10001, true).score == 5;
    assert MinLoop(E, N, [5], 0, 0, -10001, 10001, Outcome(10001, None)) == Outcome(5, Some(5));
    assert Minimax(E, N, 1, 1, -10001, 10001, false) == Outcome(5, Some(5));
    assert Minimax(E, N, 3, 0, 5, 10001, true).score == 5;
    assert MinLoop(E, N, [3, 4], 0, 0, 5, 10001, Outcome(10001, None)) == Outcome(5, Some(3));
    assert Minimax(E, N, 2, 1, 5, 10001, false).score == 5;
    assert MaxLoop(E, N, [1, 2], 1, 1, 5, 10001, Outcome(5, Some(1))) == Outcome(5, Some(2));
    assert MaxLoop(E, N, [1, 2], 0, 1, -10001, 10001, Outcome(-10001, None)) == Outcome(5, Some(2));
    assert MaxLoopFirst(E, N, [1, 2], 1, 1, 5, 10001, Outcome(5, Some(1))) == Outcome(5, Some(1));
    assert MaxLoopFirst(E, N, [1, 2], 0, 1, -10001, 10001, Outcome(-10001, None)) == Outcome(5, Some(1));
    assert Value(E, N, 3, 0, true) == 5 && Value(E, N, 4, 0, true) == 3;
    assert MinValue(E, N, [3, 4], 1, 0) == 3;
    assert MinValue(E, N, [3, 4], 0, 0) == 3;
    assert Value(E, N, 5, 0, true) == 5;
    assert MinValue(E, N, [5], 0, 0) == 5;
    assert Value(E, N, 1, 1, false) == 5;
    assert MaxValue(E, N, [1, 2], 0, 1) == 5;
  }
}
