/** `Hand.__gt__`: whether one hand beats another. The source answers with a
    boolean or by raising; here every outcome is a `Verdict` value. */
module Showdown {
  import opened Sequences
  import opened Cards
  import opened Hands

  /** The exception a comparison raises instead of answering. */
  datatype Failure =
    | IndexError   // `[...][0]` on an empty list
    | ValueError   // `max` or `min` of an empty list
    | TypeError    // subscripting a `reversed` iterator
    | UnknownRank  // `UnknownRankError`: no branch matched the category

  /** The outcome of evaluating `a > b`: `True`, `False`, an
      `AmbiguousWinnerError`, or another exception. */
  datatype Verdict = Stronger | NotStronger | Ambiguous | Crash(failure: Failure)

  /** A boolean the comparison returns. */
  function FromBool(b: bool): (v: Verdict)
    ensures v == Stronger <==> b
    ensures v == NotStronger <==> !b
  {
    if b then Stronger else NotStronger
  }

  /** A `for x, y in zip(xs, ys)` loop that returns on the first strict
      difference and raises `AmbiguousWinnerError` when either side runs out. */
  function ZipCompare(xs: seq<int>, ys: seq<int>): (v: Verdict)
    ensures !v.Crash?
  {
    if xs == [] || ys == [] then Ambiguous
    else if xs[0] > ys[0] then Stronger
    else if xs[0] < ys[0] then NotStronger
    else ZipCompare(xs[1..], ys[1..])
  }

  /** `xs` and `ys` agree up to position `i`, where `xs` is higher. */
  predicate WinsAt(xs: seq<int>, ys: seq<int>, i: nat) {
    i < |xs| && i < |ys| && xs[..i] == ys[..i] && xs[i] > ys[i]
  }

  /** `xs` and `ys` agree on every position both have. */
  predicate Agree(xs: seq<int>, ys: seq<int>) {
    forall i :: 0 <= i < |xs| && i < |ys| ==> xs[i] == ys[i]
  }

  /** The zip loop is the lexicographic order: it says `Stronger` exactly when
      `xs` wins at the first difference, `NotStronger` exactly when `ys` does,
      and `Ambiguous` exactly when there is no difference. */
  lemma {:induction false} ZipCompareLex(xs: seq<int>, ys: seq<int>)
    ensures ZipCompare(xs, ys) == Stronger <==> exists i: nat :: WinsAt(xs, ys, i)
    ensures ZipCompare(xs, ys) == NotStronger <==> exists i: nat :: WinsAt(ys, xs, i)
    ensures ZipCompare(xs, ys) == Ambiguous <==> Agree(xs, ys)
  {
    if xs == [] || ys == [] {
    } else if xs[0] != ys[0] {
      assert WinsAt(xs, ys, 0) || WinsAt(ys, xs, 0);
      assert !Agree(xs, ys);
      forall i: nat | WinsAt(xs, ys, i) || WinsAt(ys, xs, i) ensures i == 0 {
        if i > 0 {
          assert false;
        }
      }
    } else {
      ZipCompareLex(xs[1..], ys[1..]);
      forall i: nat ensures WinsAt(xs, ys, i + 1) <==> WinsAt(xs[1..], ys[1..], i) {
        WinsAtShift(xs, ys, i);
      }
      forall i: nat ensures WinsAt(ys, xs, i + 1) <==> WinsAt(ys[1..], xs[1..], i) {
        WinsAtShift(ys, xs, i);
      }
      assert !WinsAt(xs, ys, 0) && !WinsAt(ys, xs, 0);
      if exists i: nat :: WinsAt(xs, ys, i) {
        var i: nat :| WinsAt(xs, ys, i);
        assert WinsAt(xs[1..], ys[1..], i - 1);
      }
      if exists i: nat :: WinsAt(xs[1..], ys[1..], i) {
        var i: nat :| WinsAt(xs[1..], ys[1..], i);
        assert WinsAt(xs, ys, i + 1);
      }
      if exists i: nat :: WinsAt(ys, xs, i) {
        var i: nat :| WinsAt(ys, xs, i);
        assert WinsAt(ys[1..], xs[1..], i - 1);
      }
      if exists i: nat :: WinsAt(ys[1..], xs[1..], i) {
        var i: nat :| WinsAt(ys[1..], xs[1..], i);
        assert WinsAt(ys, xs, i + 1);
      }
      AgreeShift(xs, ys);
    }
  }

  lemma WinsAtShift(xs: seq<int>, ys: seq<int>, i: nat)
    requires xs != [] && ys != [] && xs[0] == ys[0]
    ensures WinsAt(xs, ys, i + 1) <==> WinsAt(xs[1..], ys[1..], i)
  {
    if i + 1 < |xs| && i + 1 < |ys| {
      assert xs[..i + 1] == [xs[0]] + xs[1..][..i];
      assert ys[..i + 1] == [ys[0]] + ys[1..][..i];
    }
  }

  lemma AgreeShift(xs: seq<int>, ys: seq<int>)
    requires xs != [] && ys != [] && xs[0] == ys[0]
    ensures Agree(xs, ys) <==> Agree(xs[1..], ys[1..])
  {
    if Agree(xs[1..], ys[1..]) {
      forall i | 0 <= i < |xs| && i < |ys| ensures xs[i] == ys[i] {
        if i > 0 {
          assert xs[1..][i - 1] == ys[1..][i - 1];
        }
      }
    }
  }

  /** For sequences of one length, the loop is ambiguous exactly when they are equal. */
  lemma ZipCompareEqualLength(xs: seq<int>, ys: seq<int>)
    requires |xs| == |ys|
    ensures ZipCompare(xs, ys) == Ambiguous <==> xs == ys
  {
    ZipCompareLex(xs, ys);
  }

  /** Swapping the sides swaps `Stronger` and `NotStronger`. */
  lemma {:induction false} ZipCompareConverse(xs: seq<int>, ys: seq<int>)
    ensures ZipCompare(xs, ys) == Stronger <==> ZipCompare(ys, xs) == NotStronger
    ensures ZipCompare(xs, ys) == Ambiguous <==> ZipCompare(ys, xs) == Ambiguous
  {
    if xs != [] && ys != [] && xs[0] == ys[0] {
      ZipCompareConverse(xs[1..], ys[1..]);
    }
  }

  /** One step of the loop: the heads decide unless they are equal. */
  lemma ZipCompareCons(x: int, xs: seq<int>, y: int, ys: seq<int>)
    ensures ZipCompare([x] + xs, [y] + ys) ==
      if x > y then Stronger else if x < y then NotStronger else ZipCompare(xs, ys)
  {
    assert ([x] + xs)[1..] == xs && ([y] + ys)[1..] == ys;
  }

  /** The loop over three ranks a side. */
  lemma ZipCompareThree(x0: int, x1: int, x2: int, y0: int, y1: int, y2: int)
    ensures ZipCompare([x0, x1, x2], [y0, y1, y2]) ==
      if x0 != y0 then FromBool(x0 > y0)
      else if x1 != y1 then FromBool(x1 > y1)
      else if x2 != y2 then FromBool(x2 > y2)
      else Ambiguous
  {
    ZipCompareCons(x0, [x1, x2], y0, [y1, y2]);
    ZipCompareCons(x1, [x2], y1, [y2]);
    ZipCompareCons(x2, [], y2, []);
    assert [x0, x1, x2] == [x0] + [x1, x2] && [y0, y1, y2] == [y0] + [y1, y2];
    assert [x1, x2] == [x1] + [x2] && [y1, y2] == [y1] + [y2];
    assert [x2] == [x2] + [] && [y2] == [y2] + [];
  }

  // ---------------------------------------------------------------------
  // The branches of `__gt__` for two hands of one category

  /** `reversed(sorted(cards))`, read rank by rank. */
  function DescendingRanks(cards: seq<Card>): (rs: seq<int>)
    ensures |rs| == |cards|
  {
    Reverse(RanksOf(SortCards(cards)))
  }

  /** `[g[t][0] for t in Value.ordering if len(g[t]) != n]` as ranks; `None`
      when the comprehension meets an empty bucket and raises `IndexError`. */
  function HeadsUnsizedFrom(g: seq<seq<Card>>, n: nat, t: nat): (r: Option<seq<int>>)
    requires |g| == 13 && t <= 13
    decreases 13 - t
  {
    if t == 13 then Some([])
    else if |g[t]| == n then HeadsUnsizedFrom(g, n, t + 1)
    else if g[t] == [] then None
    else
      match HeadsUnsizedFrom(g, n, t + 1)
      case None => None
      case Some(rest) => Some([t] + rest)
  }

  datatype Option<T> = None | Some(value: T)

  /** Straight flush: compare the highest cards; equal ones answer `False`. */
  function StraightFlushTie(mine: FiveCards, theirs: FiveCards): Verdict {
    FromBool(MaxOf(RanksOf(mine)) > MaxOf(RanksOf(theirs)))
  }

  /** Flush: both sides of the zip iterate `self.cards`, so `theirs` is never read. */
  function FlushTie(mine: FiveCards, theirs: FiveCards): Verdict {
    ZipCompare(DescendingRanks(mine), DescendingRanks(mine))
  }

  /** High card: zip both hands sorted from the highest card down. */
  function HighCardTie(mine: FiveCards, theirs: FiveCards): Verdict {
    ZipCompare(DescendingRanks(mine), DescendingRanks(theirs))
  }

  /** Four of a kind: compare the ranks of the two quads; equal quads answer `False`. */
  function FourOfKindTie(g: seq<seq<Card>>, h: seq<seq<Card>>): Verdict
    requires |g| == 13 && |h| == 13
  {
    var m, t := Sized(g, 4), Sized(h, 4);
    if m == [] || t == [] then Crash(IndexError)
    else FromBool(m[0] > t[0])
  }

  /** Full house: compare the triples, then the pairs; equal pairs answer `False`. */
  function FullHouseTie(g: seq<seq<Card>>, h: seq<seq<Card>>): Verdict
    requires |g| == 13 && |h| == 13
  {
    var m, t := Sized(g, 3), Sized(h, 3);
    if m == [] || t == [] then Crash(IndexError)
    else if m[0] > t[0] then Stronger
    else if m[0] < t[0] then NotStronger
    else
      var m2, t2 := Sized(g, 2), Sized(h, 2);
      if m2 == [] || t2 == [] then Crash(IndexError)
      else FromBool(m2[0] > t2[0])
  }

  /** Three of a kind: compare the triples; on equal triples, build the kicker
      lists from every bucket not of size three, then compare their maxima and minima. */
  function ThreeOfKindTie(g: seq<seq<Card>>, h: seq<seq<Card>>): Verdict
    requires |g| == 13 && |h| == 13
  {
    var m, t := Sized(g, 3), Sized(h, 3);
    if m == [] || t == [] then Crash(IndexError)
    else if m[0] > t[0] then Stronger
    else if m[0] < t[0] then NotStronger
    else
      match (HeadsUnsizedFrom(g, 3, 0), HeadsUnsizedFrom(h, 3, 0))
      case (None, _) => Crash(IndexError)
      case (_, None) => Crash(IndexError)
      case (Some(mo), Some(to)) =>
        if mo == [] || to == [] then Crash(ValueError)
        else if MaxOf(mo) > MaxOf(to) then Stronger
        else if MaxOf(mo) < MaxOf(to) then NotStronger
        else if MinOf(mo) > MinOf(to) then Stronger
        else if MinOf(mo) < MinOf(to) then NotStronger
        else Ambiguous
  }

  /** Two pairs: compare the higher pairs, the lower pairs, then the fifth cards. */
  function TwoPairsTie(g: seq<seq<Card>>, h: seq<seq<Card>>): Verdict
    requires |g| == 13 && |h| == 13
  {
    var m, t := Sized(g, 2), Sized(h, 2);
    if m == [] || t == [] then Crash(ValueError)
    else if MaxOf(m) > MaxOf(t) then Stronger
    else if MaxOf(m) < MaxOf(t) then NotStronger
    else if MinOf(m) > MinOf(t) then Stronger
    else if MinOf(m) < MinOf(t) then NotStronger
    else FifthCardTie(g, h)
  }

  /** The last step for two pairs: the first singleton of each hand. */
  function FifthCardTie(g: seq<seq<Card>>, h: seq<seq<Card>>): Verdict
    requires |g| == 13 && |h| == 13
  {
    var m, t := Sized(g, 1), Sized(h, 1);
    if m == [] || t == [] then Crash(IndexError)
    else if m[0] > t[0] then Stronger
    else if m[0] < t[0] then NotStronger
    else Ambiguous
  }

  /** One pair: compare the pairs, then zip the singletons from the highest down. */
  function OnePairTie(g: seq<seq<Card>>, h: seq<seq<Card>>): Verdict
    requires |g| == 13 && |h| == 13
  {
    var m, t := Sized(g, 2), Sized(h, 2);
    if m == [] || t == [] then Crash(IndexError)
    else if m[0] > t[0] then Stronger
    else if m[0] < t[0] then NotStronger
    else ZipCompare(SortDesc(Sized(g, 1)), SortDesc(Sized(h, 1)))
  }

  /** The kicker rules for two hands of the category `rank`, whose cards are
      `mine` and `theirs` and whose buckets are `g` and `h`. */
  function Tie(rank: int, mine: FiveCards, theirs: FiveCards, g: seq<seq<Card>>, h: seq<seq<Card>>): Verdict
    requires |g| == 13 && |h| == 13
  {
    if rank == ROYAL_FLUSH then Ambiguous
    else if rank == STRAIGHT_FLUSH then StraightFlushTie(mine, theirs)
    else if rank == FOUR_OF_KIND then FourOfKindTie(g, h)
    else if rank == FULL_HOUSE then FullHouseTie(g, h)
    else if rank == FLUSH then FlushTie(mine, theirs)
    else if rank == STRAIGHT then Crash(TypeError)
    else if rank == THREE_OF_KIND then ThreeOfKindTie(g, h)
    else if rank == TWO_PAIRS then TwoPairsTie(g, h)
    else if rank == ONE_PAIR then OnePairTie(g, h)
    else if rank == HIGH_CARD then HighCardTie(mine, theirs)
    else Crash(UnknownRank)
  }

  /** `Hand.__gt__`: the category decides; equal categories group both hands
      by rank and go to the kicker rules. */
  function Gt(a: Hand, b: Hand): Verdict {
    var ra, rb := a.Category(), b.Category();
    if ra > rb then Stronger
    else if ra < rb then NotStronger
    else Tie(ra, a.cards, b.cards, GroupByType(a.cards), GroupByType(b.cards))
  }

  // ---------------------------------------------------------------------
  // What `__gt__` decides

  /** A higher category always wins and a lower one always loses, whatever the cards. */
  lemma CategoryPrecedence(a: Hand, b: Hand)
    requires a.Category() != b.Category()
    ensures Gt(a, b) == FromBool(a.Category() > b.Category())
    ensures Gt(a, b) == Stronger <==> Gt(b, a) == NotStronger
  {
  }

  /** Any four of a kind beats any full house, whatever the ranks. */
  lemma FourOfKindBeatsFullHouse(a: Hand, b: Hand, q: int, t: int, p: int)
    requires Count(RanksOf(a.cards), q) == 4
    requires Count(RanksOf(b.cards), t) == 3 && Count(RanksOf(b.cards), p) == 2
    ensures Gt(a, b) == Stronger && Gt(b, a) == NotStronger
  {
    FourOfKindByCount(a.cards, q);
    FullHouseByCounts(b.cards, t, p);
  }

  /** Royal flushes never separate, and a flush is only ever compared with
      itself, so both are ambiguous; two straights always raise `TypeError`. */
  lemma FixedOutcomes(a: Hand, b: Hand)
    requires a.Category() == b.Category()
    ensures a.Category() == ROYAL_FLUSH ==> Gt(a, b) == Ambiguous
    ensures a.Category() == FLUSH ==> Gt(a, b) == Ambiguous
    ensures a.Category() == STRAIGHT ==> Gt(a, b) == Crash(TypeError)
  {
    if a.Category() == ROYAL_FLUSH {
      GtAtRoyalFlush(a, b);
    } else if a.Category() == FLUSH {
      GtAtFlush(a, b);
      ZipCompareEqualLength(DescendingRanks(a.cards), DescendingRanks(a.cards));
    } else if a.Category() == STRAIGHT {
      GtAtStraight(a, b);
    }
  }

  /** Two straight flushes are ordered by their lowest (equivalently highest)
      rank; equal ones answer `False` rather than raising. */
  lemma StraightFlushOrder(a: Hand, b: Hand, la: int, lb: int)
    requires a.Category() == STRAIGHT_FLUSH && b.Category() == STRAIGHT_FLUSH
    requires multiset(RanksOf(a.cards)) == Run(la) && multiset(RanksOf(b.cards)) == Run(lb)
    ensures Gt(a, b) == FromBool(la > lb)
  {
    GtAtStraightFlush(a, b);
    RunTop(a.cards, la);
    RunTop(b.cards, lb);
  }

  /** Two fours of a kind are ordered by the rank of the four; equal fours
      answer `False`, the fifth card is never looked at. */
  lemma FourOfKindOrder(a: Hand, b: Hand, qa: int, qb: int)
    requires Count(RanksOf(a.cards), qa) == 4 && Count(RanksOf(b.cards), qb) == 4
    ensures Gt(a, b) == FromBool(qa > qb)
  {
    FourOfKindByCount(a.cards, qa);
    FourOfKindByCount(b.cards, qb);
    GtAtFourOfKind(a, b);
    FourOfKindTieKeys(a.cards, b.cards, qa, qb);
  }

  lemma FourOfKindTieKeys(mine: FiveCards, theirs: FiveCards, qa: int, qb: int)
    requires Count(RanksOf(mine), qa) == 4 && Count(RanksOf(theirs), qb) == 4
    ensures FourOfKindTie(GroupByType(mine), GroupByType(theirs)) == FromBool(qa > qb)
  {
    SizedUnique(mine, 4, qa);
    SizedUnique(theirs, 4, qb);
  }

  /** Two full houses are ordered by the triple, then by the pair; equal
      pairs answer `False`. */
  lemma FullHouseOrder(a: Hand, b: Hand, ta: int, pa: int, tb: int, pb: int)
    requires Count(RanksOf(a.cards), ta) == 3 && Count(RanksOf(a.cards), pa) == 2
    requires Count(RanksOf(b.cards), tb) == 3 && Count(RanksOf(b.cards), pb) == 2
    ensures Gt(a, b) == FromBool(ta > tb || (ta == tb && pa > pb))
  {
    FullHouseByCounts(a.cards, ta, pa);
    FullHouseByCounts(b.cards, tb, pb);
    GtAtFullHouse(a, b);
    SizedUnique(a.cards, 3, ta);
    SizedUnique(b.cards, 3, tb);
    FullHousePairUnique(a.cards, ta, pa);
    FullHousePairUnique(b.cards, tb, pb);
    FullHouseTieKeys(GroupByType(a.cards), GroupByType(b.cards), ta, pa, tb, pb);
  }

  lemma FullHouseTieKeys(g: seq<seq<Card>>, h: seq<seq<Card>>, ta: int, pa: int, tb: int, pb: int)
    requires |g| == 13 && |h| == 13
    requires Sized(g, 3) == [ta] && Sized(g, 2) == [pa]
    requires Sized(h, 3) == [tb] && Sized(h, 2) == [pb]
    ensures FullHouseTie(g, h) == FromBool(ta > tb || (ta == tb && pa > pb))
  {
  }

  /** Two threes of a kind are ordered by the triple; equal triples raise
      `IndexError`, because the kicker comprehension reaches an empty bucket. */
  lemma ThreeOfKindOrder(a: Hand, b: Hand, ta: int, tb: int)
    requires a.Category() == THREE_OF_KIND && b.Category() == THREE_OF_KIND
    requires Count(RanksOf(a.cards), ta) == 3 && Count(RanksOf(b.cards), tb) == 3
    ensures Gt(a, b) == if ta > tb then Stronger else if ta < tb then NotStronger else Crash(IndexError)
  {
    GtAtThreeOfKind(a, b);
    ThreeOfKindTieKeys(a.cards, b.cards, ta, tb);
  }

  lemma ThreeOfKindTieKeys(mine: FiveCards, theirs: FiveCards, ta: int, tb: int)
    requires Count(RanksOf(mine), ta) == 3 && Count(RanksOf(theirs), tb) == 3
    ensures ThreeOfKindTie(GroupByType(mine), GroupByType(theirs)) ==
      if ta > tb then Stronger else if ta < tb then NotStronger else Crash(IndexError)
  {
    SizedUnique(mine, 3, ta);
    SizedUnique(theirs, 3, tb);
    KickersCrash(mine);
  }

  /** Some bucket of every hand is empty, so the comprehension over buckets
      not of size three always raises. */
  lemma KickersCrash(cards: FiveCards)
    ensures HeadsUnsizedFrom(GroupByType(cards), 3, 0) == None
  {
    SomeRankAbsent(RanksOf(cards));
    var t :| 0 <= t < 6 && Count(RanksOf(cards), t) == 0;
    HeadsUnsizedNone(GroupByType(cards), 3, 0, t);
  }

  /** The comprehension raises once it passes an empty bucket. */
  lemma {:induction false} HeadsUnsizedNone(g: seq<seq<Card>>, n: nat, s: nat, t: nat)
    requires |g| == 13 && s <= t < 13 && g[t] == [] && n != 0
    ensures HeadsUnsizedFrom(g, n, s) == None
    decreases t - s
  {
    if s < t {
      HeadsUnsizedNone(g, n, s + 1, t);
    }
  }

  /** Two two pairs hands are ordered lexicographically by (higher pair,
      lower pair, fifth card), and are ambiguous exactly when all three agree. */
  lemma TwoPairsOrder(a: Hand, b: Hand, qa: int, pa: int, ka: int, qb: int, pb: int, kb: int)
    requires a.Category() == TWO_PAIRS && b.Category() == TWO_PAIRS
    requires pa < qa && ka != pa && ka != qa
    requires Count(RanksOf(a.cards), qa) == 2 && Count(RanksOf(a.cards), pa) == 2
    requires Count(RanksOf(a.cards), ka) == 1
    requires pb < qb && kb != pb && kb != qb
    requires Count(RanksOf(b.cards), qb) == 2 && Count(RanksOf(b.cards), pb) == 2
    requires Count(RanksOf(b.cards), kb) == 1
    ensures Gt(a, b) == ZipCompare([qa, pa, ka], [qb, pb, kb])
    ensures Gt(a, b) == Ambiguous <==> qa == qb && pa == pb && ka == kb
  {
    GtAtTwoPairs(a, b);
    TwoPairsGroups(a.cards, qa, pa, ka);
    TwoPairsGroups(b.cards, qb, pb, kb);
    TwoPairsTieKeys(GroupByType(a.cards), GroupByType(b.cards), qa, pa, ka, qb, pb, kb);
    ZipCompareThree(qa, pa, ka, qb, pb, kb);
  }

  lemma TwoPairsTieKeys(g: seq<seq<Card>>, h: seq<seq<Card>>,
                        qa: int, pa: int, ka: int, qb: int, pb: int, kb: int)
    requires |g| == 13 && |h| == 13 && pa < qa && pb < qb
    requires Sized(g, 2) == [pa, qa] && Sized(g, 1) == [ka]
    requires Sized(h, 2) == [pb, qb] && Sized(h, 1) == [kb]
    ensures TwoPairsTie(g, h) ==
      if qa != qb then FromBool(qa > qb)
      else if pa != pb then FromBool(pa > pb)
      else if ka != kb then FromBool(ka > kb)
      else Ambiguous
  {
    PairBounds(pa, qa);
    PairBounds(pb, qb);
  }

  lemma PairBounds(p: int, q: int)
    requires p < q
    ensures MaxOf([p, q]) == q && MinOf([p, q]) == p
  {
    assert [p, q][0] == p && [p, q][1] == q;
  }

  /** Two one pair hands are ordered lexicographically by the pair and then
      the other three ranks from the highest down. */
  lemma OnePairOrder(a: Hand, b: Hand, pa: int, pb: int)
    requires a.Category() == ONE_PAIR && b.Category() == ONE_PAIR
    requires Count(RanksOf(a.cards), pa) == 2 && Count(RanksOf(b.cards), pb) == 2
    ensures Gt(a, b) == ZipCompare([pa] + SortDesc(Without(RanksOf(a.cards), pa)),
                                   [pb] + SortDesc(Without(RanksOf(b.cards), pb)))
  {
    GtAtOnePair(a, b);
    OnePairGroups(a.cards, pa);
    OnePairGroups(b.cards, pb);
    OnePairTieKeys(GroupByType(a.cards), GroupByType(b.cards), pa, Without(RanksOf(a.cards), pa),
                   pb, Without(RanksOf(b.cards), pb));
  }

  lemma OnePairTieKeys(g: seq<seq<Card>>, h: seq<seq<Card>>, pa: int, wa: seq<int>, pb: int, wb: seq<int>)
    requires |g| == 13 && |h| == 13
    requires Sized(g, 2) == [pa] && Sized(h, 2) == [pb]
    requires multiset(Sized(g, 1)) == multiset(wa) && multiset(Sized(h, 1)) == multiset(wb)
    ensures OnePairTie(g, h) == ZipCompare([pa] + SortDesc(wa), [pb] + SortDesc(wb))
  {
    SortDescIffSameMultiset(Sized(g, 1), wa);
    SortDescIffSameMultiset(Sized(h, 1), wb);
    ZipCompareCons(pa, SortDesc(wa), pb, SortDesc(wb));
  }

  /** `reversed(sorted(cards))` and `sorted(cards, reverse=True)` both read,
      rank by rank, as the ranks sorted from the highest down. */
  lemma DescendingRanksSorted(cards: seq<Card>)
    ensures DescendingRanks(cards) == SortDesc(RanksOf(cards))
  {
    SortCardsRanks(cards);
  }

  /** Two high card hands are ordered lexicographically by their ranks from
      the highest down: ambiguous exactly when they hold the same ranks, and
      stronger exactly when the first differing rank is higher. */
  lemma HighCardOrder(a: Hand, b: Hand)
    requires a.Category() == HIGH_CARD && b.Category() == HIGH_CARD
    ensures Gt(a, b) == ZipCompare(SortDesc(RanksOf(a.cards)), SortDesc(RanksOf(b.cards)))
    ensures Gt(a, b) == Ambiguous <==> multiset(RanksOf(a.cards)) == multiset(RanksOf(b.cards))
    ensures Gt(a, b) == Stronger <==> exists i: nat :: WinsAt(SortDesc(RanksOf(a.cards)), SortDesc(RanksOf(b.cards)), i)
    ensures Gt(a, b) == Stronger <==> Gt(b, a) == NotStronger
  {
    var da, db := SortDesc(RanksOf(a.cards)), SortDesc(RanksOf(b.cards));
    GtAtHighCard(a, b);
    GtAtHighCard(b, a);
    DescendingRanksSorted(a.cards);
    DescendingRanksSorted(b.cards);
    ZipCompareLex(da, db);
    ZipCompareEqualLength(da, db);
    SortDescIffSameMultiset(RanksOf(a.cards), RanksOf(b.cards));
    ZipCompareConverse(da, db);
  }

  // For two hands of one category, `__gt__` is the kicker rule of that category.
  // `GtIsTie` reduces `Gt` to the `elif` chain `Tie`; each `GtAt...` lemma
  // then picks one branch through its `TieAt...` partner. The `TieAt...`
  // lemmas take the buckets as parameters and rule out the earlier branches
  // one by one, so no single proof has to unfold all ten branches together
  // with `group_by_type`, which the verifier finds too costly.

  lemma GtIsTie(a: Hand, b: Hand)
    requires a.Category() == b.Category()
    ensures Gt(a, b) == Tie(a.Category(), a.cards, b.cards, GroupByType(a.cards), GroupByType(b.cards))
  {
  }

  lemma GtAtRoyalFlush(a: Hand, b: Hand)
    requires a.Category() == ROYAL_FLUSH && b.Category() == ROYAL_FLUSH
    ensures Gt(a, b) == Ambiguous
  {
    GtIsTie(a, b);
    TieAtRoyalFlush(a.Category(), a.cards, b.cards, GroupByType(a.cards), GroupByType(b.cards));
  }

  lemma TieAtRoyalFlush(rank: int, mine: FiveCards, theirs: FiveCards, g: seq<seq<Card>>, h: seq<seq<Card>>)
    requires |g| == 13 && |h| == 13 && rank == ROYAL_FLUSH
    ensures Tie(rank, mine, theirs, g, h) == Ambiguous
  {
  }

  lemma GtAtStraightFlush(a: Hand, b: Hand)
    requires a.Category() == STRAIGHT_FLUSH && b.Category() == STRAIGHT_FLUSH
    ensures Gt(a, b) == StraightFlushTie(a.cards, b.cards)
  {
    GtIsTie(a, b);
    TieAtStraightFlush(a.Category(), a.cards, b.cards, GroupByType(a.cards), GroupByType(b.cards));
  }

  lemma TieAtStraightFlush(rank: int, mine: FiveCards, theirs: FiveCards, g: seq<seq<Card>>, h: seq<seq<Card>>)
    requires |g| == 13 && |h| == 13 && rank == STRAIGHT_FLUSH
    ensures Tie(rank, mine, theirs, g, h) == StraightFlushTie(mine, theirs)
  {
    assert rank != ROYAL_FLUSH;
  }

  lemma GtAtFourOfKind(a: Hand, b: Hand)
    requires a.Category() == FOUR_OF_KIND && b.Category() == FOUR_OF_KIND
    ensures Gt(a, b) == FourOfKindTie(GroupByType(a.cards), GroupByType(b.cards))
  {
    GtIsTie(a, b);
    TieAtFourOfKind(a.Category(), a.cards, b.cards, GroupByType(a.cards), GroupByType(b.cards));
  }

  lemma TieAtFourOfKind(rank: int, mine: FiveCards, theirs: FiveCards, g: seq<seq<Card>>, h: seq<seq<Card>>)
    requires |g| == 13 && |h| == 13 && rank == FOUR_OF_KIND
    ensures Tie(rank, mine, theirs, g, h) == FourOfKindTie(g, h)
  {
    assert rank != ROYAL_FLUSH && rank != STRAIGHT_FLUSH;
  }

  lemma GtAtFullHouse(a: Hand, b: Hand)
    requires a.Category() == FULL_HOUSE && b.Category() == FULL_HOUSE
    ensures Gt(a, b) == FullHouseTie(GroupByType(a.cards), GroupByType(b.cards))
  {
    GtIsTie(a, b);
    TieAtFullHouse(a.Category(), a.cards, b.cards, GroupByType(a.cards), GroupByType(b.cards));
  }

  lemma TieAtFullHouse(rank: int, mine: FiveCards, theirs: FiveCards, g: seq<seq<Card>>, h: seq<seq<Card>>)
    requires |g| == 13 && |h| == 13 && rank == FULL_HOUSE
    ensures Tie(rank, mine, theirs, g, h) == FullHouseTie(g, h)
  {
    assert rank != ROYAL_FLUSH && rank != STRAIGHT_FLUSH && rank != FOUR_OF_KIND;
  }

  lemma GtAtFlush(a: Hand, b: Hand)
    requires a.Category() == FLUSH && b.Category() == FLUSH
    ensures Gt(a, b) == FlushTie(a.cards, b.cards)
  {
    GtIsTie(a, b);
    TieAtFlush(a.Category(), a.cards, b.cards, GroupByType(a.cards), GroupByType(b.cards));
  }

  lemma TieAtFlush(rank: int, mine: FiveCards, theirs: FiveCards, g: seq<seq<Card>>, h: seq<seq<Card>>)
    requires |g| == 13 && |h| == 13 && rank == FLUSH
    ensures Tie(rank, mine, theirs, g, h) == FlushTie(mine, theirs)
  {
    assert rank != ROYAL_FLUSH && rank != STRAIGHT_FLUSH && rank != FOUR_OF_KIND && rank != FULL_HOUSE;
  }

  lemma GtAtStraight(a: Hand, b: Hand)
    requires a.Category() == STRAIGHT && b.Category() == STRAIGHT
    ensures Gt(a, b) == Crash(TypeError)
  {
    GtIsTie(a, b);
    TieAtStraight(a.Category(), a.cards, b.cards, GroupByType(a.cards), GroupByType(b.cards));
  }

  lemma TieAtStraight(rank: int, mine: FiveCards, theirs: FiveCards, g: seq<seq<Card>>, h: seq<seq<Card>>)
    requires |g| == 13 && |h| == 13 && rank == STRAIGHT
    ensures Tie(rank, mine, theirs, g, h) == Crash(TypeError)
  {
    assert rank != ROYAL_FLUSH && rank != STRAIGHT_FLUSH && rank != FOUR_OF_KIND && rank != FULL_HOUSE && rank != FLUSH;
  }

  lemma GtAtThreeOfKind(a: Hand, b: Hand)
    requires a.Category() == THREE_OF_KIND && b.Category() == THREE_OF_KIND
    ensures Gt(a, b) == ThreeOfKindTie(GroupByType(a.cards), GroupByType(b.cards))
  {
    GtIsTie(a, b);
    TieAtThreeOfKind(a.Category(), a.cards, b.cards, GroupByType(a.cards), GroupByType(b.cards));
  }

  lemma TieAtThreeOfKind(rank: int, mine: FiveCards, theirs: FiveCards, g: seq<seq<Card>>, h: seq<seq<Card>>)
    requires |g| == 13 && |h| == 13 && rank == THREE_OF_KIND
    ensures Tie(rank, mine, theirs, g, h) == ThreeOfKindTie(g, h)
  {
    assert rank != ROYAL_FLUSH && rank != STRAIGHT_FLUSH && rank != FOUR_OF_KIND && rank != FULL_HOUSE && rank != FLUSH && rank != STRAIGHT;
  }

  lemma GtAtTwoPairs(a: Hand, b: Hand)
    requires a.Category() == TWO_PAIRS && b.Category() == TWO_PAIRS
    ensures Gt(a, b) == TwoPairsTie(GroupByType(a.cards), GroupByType(b.cards))
  {
    GtIsTie(a, b);
    TieAtTwoPairs(a.Category(), a.cards, b.cards, GroupByType(a.cards), GroupByType(b.cards));
  }

  lemma TieAtTwoPairs(rank: int, mine: FiveCards, theirs: FiveCards, g: seq<seq<Card>>, h: seq<seq<Card>>)
    requires |g| == 13 && |h| == 13 && rank == TWO_PAIRS
    ensures Tie(rank, mine, theirs, g, h) == TwoPairsTie(g, h)
  {
    assert rank != ROYAL_FLUSH && rank != STRAIGHT_FLUSH && rank != FOUR_OF_KIND && rank != FULL_HOUSE && rank != FLUSH && rank != STRAIGHT && rank != THREE_OF_KIND;
  }

  lemma GtAtOnePair(a: Hand, b: Hand)
    requires a.Category() == ONE_PAIR && b.Category() == ONE_PAIR
    ensures Gt(a, b) == OnePairTie(GroupByType(a.cards), GroupByType(b.cards))
  {
    GtIsTie(a, b);
    TieAtOnePair(a.Category(), a.cards, b.cards, GroupByType(a.cards), GroupByType(b.cards));
  }

  lemma TieAtOnePair(rank: int, mine: FiveCards, theirs: FiveCards, g: seq<seq<Card>>, h: seq<seq<Card>>)
    requires |g| == 13 && |h| == 13 && rank == ONE_PAIR
    ensures Tie(rank, mine, theirs, g, h) == OnePairTie(g, h)
  {
    assert rank != ROYAL_FLUSH && rank != STRAIGHT_FLUSH && rank != FOUR_OF_KIND && rank != FULL_HOUSE && rank != FLUSH && rank != STRAIGHT && rank != THREE_OF_KIND && rank != TWO_PAIRS;
  }

  lemma GtAtHighCard(a: Hand, b: Hand)
    requires a.Category() == HIGH_CARD && b.Category() == HIGH_CARD
    ensures Gt(a, b) == HighCardTie(a.cards, b.cards)
  {
    GtIsTie(a, b);
    TieAtHighCard(a.Category(), a.cards, b.cards, GroupByType(a.cards), GroupByType(b.cards));
  }

  lemma TieAtHighCard(rank: int, mine: FiveCards, theirs: FiveCards, g: seq<seq<Card>>, h: seq<seq<Card>>)
    requires |g| == 13 && |h| == 13 && rank == HIGH_CARD
    ensures Tie(rank, mine, theirs, g, h) == HighCardTie(mine, theirs)
  {
    assert rank != ROYAL_FLUSH && rank != STRAIGHT_FLUSH && rank != FOUR_OF_KIND && rank != FULL_HOUSE && rank != FLUSH && rank != STRAIGHT && rank != THREE_OF_KIND && rank != TWO_PAIRS && rank != ONE_PAIR;
  }

  /** Only two straights, or two threes of a kind with equal triples, make
      the comparison raise, and what it raises is `TypeError` or `IndexError`:
      `ValueError` and `UnknownRankError` are never reached. */
  lemma CrashesOnlyOnStraightsAndTriples(a: Hand, b: Hand)
    ensures Gt(a, b).Crash? ==>
      a.Category() == b.Category() && (a.Category() == STRAIGHT || a.Category() == THREE_OF_KIND)
    ensures Gt(a, b).Crash? ==> Gt(a, b) == Crash(TypeError) || Gt(a, b) == Crash(IndexError)
  {
    if a.Category() == b.Category() {
      SameCategoryAnswers(a, b);
      if a.Category() == STRAIGHT {
        GtAtStraight(a, b);
      } else if a.Category() == THREE_OF_KIND {
        ThreeOfKindCrash(a, b);
      }
    }
  }

  /** Two threes of a kind either compare or raise `IndexError`. */
  lemma ThreeOfKindCrash(a: Hand, b: Hand)
    requires a.Category() == THREE_OF_KIND && b.Category() == THREE_OF_KIND
    ensures Gt(a, b).Crash? ==> Gt(a, b) == Crash(IndexError)
  {
    var ta := ThreeOfKindKey(a.cards);
    var tb := ThreeOfKindKey(b.cards);
    ThreeOfKindOrder(a, b, ta, tb);
  }

  lemma SameCategoryAnswers(a: Hand, b: Hand)
    requires a.Category() == b.Category()
    ensures a.Category() != STRAIGHT && a.Category() != THREE_OF_KIND ==> !Gt(a, b).Crash?
  {
    if a.Category() >= FLUSH {
      UpperCategoryAnswers(a, b);
    } else if a.Category() != STRAIGHT && a.Category() != THREE_OF_KIND {
      LowerCategoryAnswers(a, b);
    }
  }

  lemma UpperCategoryAnswers(a: Hand, b: Hand)
    requires a.Category() == b.Category() && a.Category() >= FLUSH
    ensures !Gt(a, b).Crash?
  {
    var r := a.Category();
    if r == ROYAL_FLUSH {
      RoyalFlushAnswers(a, b);
    } else if r == STRAIGHT_FLUSH {
      StraightFlushAnswers(a, b);
    } else if r == FOUR_OF_KIND {
      FourOfKindAnswers(a, b);
    } else if r == FULL_HOUSE {
      FullHouseAnswers(a, b);
    } else {
      FlushAnswers(a, b);
    }
  }

  lemma RoyalFlushAnswers(a: Hand, b: Hand)
    requires a.Category() == ROYAL_FLUSH && b.Category() == ROYAL_FLUSH
    ensures !Gt(a, b).Crash?
  {
    GtAtRoyalFlush(a, b);
  }

  lemma StraightFlushAnswers(a: Hand, b: Hand)
    requires a.Category() == STRAIGHT_FLUSH && b.Category() == STRAIGHT_FLUSH
    ensures !Gt(a, b).Crash?
  {
    GtAtStraightFlush(a, b);
  }

  lemma FlushAnswers(a: Hand, b: Hand)
    requires a.Category() == FLUSH && b.Category() == FLUSH
    ensures !Gt(a, b).Crash?
  {
    GtAtFlush(a, b);
  }

  lemma LowerCategoryAnswers(a: Hand, b: Hand)
    requires a.Category() == b.Category()
    requires a.Category() == TWO_PAIRS || a.Category() == ONE_PAIR || a.Category() == HIGH_CARD
    ensures !Gt(a, b).Crash?
  {
    var r := a.Category();
    if r == TWO_PAIRS {
      TwoPairsAnswers(a, b);
    } else if r == ONE_PAIR {
      OnePairAnswers(a, b);
    } else {
      GtAtHighCard(a, b);
    }
  }

  lemma FourOfKindAnswers(a: Hand, b: Hand)
    requires a.Category() == FOUR_OF_KIND && b.Category() == FOUR_OF_KIND
    ensures !Gt(a, b).Crash?
  {
    FourOfKindIff(a.cards);
    FourOfKindIff(b.cards);
    var qa :| Count(RanksOf(a.cards), qa) == 4;
    var qb :| Count(RanksOf(b.cards), qb) == 4;
    FourOfKindOrder(a, b, qa, qb);
  }

  lemma FullHouseAnswers(a: Hand, b: Hand)
    requires a.Category() == FULL_HOUSE && b.Category() == FULL_HOUSE
    ensures !Gt(a, b).Crash?
  {
    FullHouseIff(a.cards);
    FullHouseIff(b.cards);
    var ta, pa :| Count(RanksOf(a.cards), ta) == 3 && Count(RanksOf(a.cards), pa) == 2;
    var tb, pb :| Count(RanksOf(b.cards), tb) == 3 && Count(RanksOf(b.cards), pb) == 2;
    FullHouseOrder(a, b, ta, pa, tb, pb);
  }

  lemma TwoPairsAnswers(a: Hand, b: Hand)
    requires a.Category() == TWO_PAIRS && b.Category() == TWO_PAIRS
    ensures !Gt(a, b).Crash?
  {
    var qa, pa, ka := TwoPairsKeys(a.cards);
    var qb, pb, kb := TwoPairsKeys(b.cards);
    TwoPairsOrder(a, b, qa, pa, ka, qb, pb, kb);
  }

  lemma OnePairAnswers(a: Hand, b: Hand)
    requires a.Category() == ONE_PAIR && b.Category() == ONE_PAIR
    ensures !Gt(a, b).Crash?
  {
    var pa := OnePairKey(a.cards);
    var pb := OnePairKey(b.cards);
    OnePairOrder(a, b, pa, pb);
  }

  /** `Hand.__eq__`: no two hands are ever equal, not even a hand and itself. */
  predicate HandEq(a: Hand, b: Hand) {
    false
  }
}
