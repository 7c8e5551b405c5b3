/**
  The position state machine of the carousel as values: the strip index `currentIndex` and the
  single-flight flag `isTransitioning`. The widget's handlers are proved against these functions.
 */
module Position {
  import opened Slides

  /** `index` is `currentIndex`, `moving` is `isTransitioning`. */
  datatype Pos = Pos(index: int, moving: bool)

  /** At rest: no move in flight and the index on a real slide. */
  predicate AtRest(n: nat, p: Pos)
  {
    !p.moving && 1 <= p.index <= n
  }

  /** The states the widget can reach: the index stays on the padded strip, and it may sit on
      a clone (0 or n + 1) only while a move is in flight. */
  predicate Bounded(n: nat, p: Pos)
  {
    0 <= p.index <= n + 1 && (p.moving || 1 <= p.index <= n)
  }

  /** `nextSlide`: ignored while a move is in flight, otherwise one step right and in flight. */
  function Next(p: Pos): (q: Pos)
  {
    if p.moving then p else Pos(p.index + 1, true)
  }

  /** `prevSlide`: ignored while a move is in flight, otherwise one step left and in flight. */
  function Prev(p: Pos): (q: Pos)
  {
    if p.moving then p else Pos(p.index - 1, true)
  }

  /** `handleDotsClick` on the dot with zero-based index `dot`: it targets position `dot + 1`,
      and is ignored while a move is in flight or when the target is the current index. */
  function DotJump(p: Pos, dot: int): (q: Pos)
  {
    if p.moving || dot + 1 == p.index then p else Pos(dot + 1, true)
  }

  /** `handleTransitionEnd`: a landing on the trailing clone snaps to 1, on the leading clone
      snaps to n; any other index is kept. The flag is cleared in every case. */
  function Settle(n: nat, p: Pos): (q: Pos)
  {
    if p.index == n + 1 then Pos(1, false)
    else if p.index == 0 then Pos(n, false)
    else Pos(p.index, false)
  }

  /** The single-flight guard: while a move is in flight no navigation command changes the state. */
  lemma SingleFlight(p: Pos, dot: int)
    requires p.moving
    ensures Next(p) == p && Prev(p) == p && DotJump(p, dot) == p
  {
  }

  /** Settling always ends the transition, lands on a real slide, and keeps the logical slide:
      the snap across the seam shows the same content as the clone it replaces. */
  lemma SettleRestores<T>(s: seq<T>, p: Pos)
    requires |s| >= 1 && Bounded(|s|, p)
    ensures AtRest(|s|, Settle(|s|, p))
    ensures Settle(|s|, p).index == Logical(|s|, p.index)
    ensures Padded(s)[Settle(|s|, p).index].item == Padded(s)[p.index].item
  {
    PaddedShowsLogical(s, p.index);
    PaddedShowsLogical(s, Settle(|s|, p).index);
  }

  /** Settling a state already on a real slide only clears the flag, and settling is idempotent. */
  lemma SettleOnRealSlide(n: nat, p: Pos)
    requires n >= 1 && 1 <= p.index <= n
    ensures Settle(n, p) == Pos(p.index, false)
    ensures Settle(n, Settle(n, p)) == Settle(n, p)
  {
  }

  /** A navigation command, as delivered by an arrow, the autoplay timer or a dot. */
  datatype Move = Forward | Backward | ToDot(dot: int)

  function Apply(p: Pos, m: Move): (q: Pos)
  {
    match m
    case Forward => Next(p)
    case Backward => Prev(p)
    case ToDot(d) => DotJump(p, d)
  }

  /** The dots are numbered 0..n-1. */
  predicate ValidMove(n: nat, m: Move)
  {
    m.ToDot? ==> 0 <= m.dot < n
  }

  /** From a rest state, a move keeps the index on the padded strip, and its transition end
      brings it back to rest on the neighbouring (or chosen) real slide. */
  lemma MoveThenSettle(n: nat, p: Pos, m: Move)
    requires n >= 1 && AtRest(n, p) && ValidMove(n, m)
    ensures Bounded(n, Apply(p, m))
    ensures AtRest(n, Settle(n, Apply(p, m)))
    ensures m == Forward ==> Settle(n, Apply(p, m)).index == p.index % n + 1
    ensures m == Backward ==> Settle(n, Apply(p, m)).index == (p.index - 2) % n + 1
    ensures m.ToDot? ==> Settle(n, Apply(p, m)).index == m.dot + 1
  {
    if p.index == n {
      ModUnique(p.index, n, 1, 0);
    } else {
      ModUnique(p.index, n, 0, p.index);
    }
    if p.index == 1 {
      ModUnique(p.index - 2, n, -1, n - 1);
    } else {
      ModUnique(p.index - 2, n, 0, p.index - 2);
    }
  }

  /** Something the environment delivers to the state machine. */
  datatype Event = Command(move: Move) | TransitionEnd

  function Step(n: nat, p: Pos, e: Event): (q: Pos)
  {
    match e
    case Command(m) => Apply(p, m)
    case TransitionEnd => Settle(n, p)
  }

  function Run(n: nat, p: Pos, es: seq<Event>): (q: Pos)
    decreases |es|
  {
    if es == [] then p else Run(n, Step(n, p, es[0]), es[1..])
  }

  predicate ValidEvents(n: nat, es: seq<Event>)
  {
    forall i :: 0 <= i < |es| ==> (es[i].Command? ==> ValidMove(n, es[i].move))
  }

  /** Any sequence of commands and transition ends, in any interleaving, keeps the state bounded:
      the guard stops a second move before the first is reconciled. */
  lemma {:induction false} RunBounded(n: nat, p: Pos, es: seq<Event>)
    requires n >= 1 && Bounded(n, p) && ValidEvents(n, es)
    ensures Bounded(n, Run(n, p, es))
    decreases |es|
  {
    if es != [] {
      assert ValidEvents(n, es[1..]) by {
        forall i | 0 <= i < |es[1..]| ensures es[1..][i].Command? ==> ValidMove(n, es[1..][i].move) {
          assert es[1..][i] == es[i + 1];
        }
      }
      RunBounded(n, Step(n, p, es[0]), es[1..]);
    }
  }

  /** One autoplay round: advance, then the transition end. */
  function ForwardRounds(n: nat, k: nat, p: Pos): (q: Pos)
  {
    if k == 0 then p else Settle(n, Next(ForwardRounds(n, k - 1, p)))
  }

  /** One round backwards: retreat, then the transition end. */
  function BackwardRounds(n: nat, k: nat, p: Pos): (q: Pos)
  {
    if k == 0 then p else Settle(n, Prev(BackwardRounds(n, k - 1, p)))
  }

  lemma MulAtLeast(k: int, n: int)
    requires k >= 1 && n >= 1
    ensures k * n >= n
  {
  }

  /** Division with remainder is unique: the remainder in 0..n-1 determines `%`. */
  lemma ModUnique(a: int, n: int, q: int, r: int)
    requires n >= 1 && 0 <= r < n && a == q * n + r
    ensures a % n == r
  {
    var q0, r0 := a / n, a % n;
    assert a == q0 * n + r0;
    if q0 > q {
      assert (q0 - q) * n == r - r0;
      MulAtLeast(q0 - q, n);
    } else if q0 < q {
      assert (q - q0) * n == r0 - r;
      MulAtLeast(q - q0, n);
    }
  }

  lemma ModSucc(m: int, n: nat)
    requires n >= 1
    ensures (m + 1) % n == if m % n == n - 1 then 0 else m % n + 1
  {
    var q := m / n;
    assert m == q * n + m % n;
    if m % n == n - 1 {
      ModUnique(m + 1, n, q + 1, 0);
    } else {
      ModUnique(m + 1, n, q, m % n + 1);
    }
  }

  lemma ModPred(m: int, n: nat)
    requires n >= 1
    ensures (m - 1) % n == if m % n == 0 then n - 1 else m % n - 1
  {
    var q := m / n;
    assert m == q * n + m % n;
    if m % n == 0 {
      ModUnique(m - 1, n, q - 1, n - 1);
    } else {
      ModUnique(m - 1, n, q, m % n - 1);
    }
  }

  /** k forward rounds from slide i land on slide ((i - 1 + k) mod n) + 1. */
  lemma {:induction false} ForwardRoundsAdvance(n: nat, k: nat, p: Pos)
    requires n >= 1 && AtRest(n, p)
    ensures ForwardRounds(n, k, p) == Pos((p.index - 1 + k) % n + 1, false)
  {
    if k > 0 {
      ForwardRoundsAdvance(n, k - 1, p);
      ModSucc(p.index - 1 + k - 1, n);
    }
  }

  /** k backward rounds from slide i land on slide ((i - 1 - k) mod n) + 1. */
  lemma {:induction false} BackwardRoundsRetreat(n: nat, k: nat, p: Pos)
    requires n >= 1 && AtRest(n, p)
    ensures BackwardRounds(n, k, p) == Pos((p.index - 1 - k) % n + 1, false)
  {
    if k > 0 {
      BackwardRoundsRetreat(n, k - 1, p);
      ModPred(p.index - 1 - (k - 1), n);
    }
  }

  /** The loop illusion closes: n rounds in either direction from slide 1 return to slide 1. */
  lemma FullLoop(n: nat)
    requires n >= 1
    ensures ForwardRounds(n, n, Pos(1, false)) == Pos(1, false)
    ensures BackwardRounds(n, n, Pos(1, false)) == Pos(1, false)
  {
    ForwardRoundsAdvance(n, n, Pos(1, false));
    BackwardRoundsRetreat(n, n, Pos(1, false));
  }
}
