/** Worked hands, classified and compared. Each is stated for every hand
    showing the given symbols, whatever its suits beyond the ones named. */
module Scenarios {
  import Values
  import opened Sequences
  import opened Cards
  import opened Hands
  import opened Showdown

  /** The cards show `symbols`, one symbol per card, in hand order. */
  predicate Shows(cards: seq<Card>, symbols: string) {
    |cards| == |symbols| && forall i :: 0 <= i < |cards| ==> cards[i].value.symbol == symbols[i]
  }

  /** Cards showing `symbols` have the ranks `rs` when each symbol stands at
      that position of `Values.Ordering`. */
  lemma RanksShown(cards: seq<Card>, symbols: string, rs: seq<int>)
    requires Shows(cards, symbols) && |rs| == |symbols|
    requires forall i :: 0 <= i < |rs| ==> 0 <= rs[i] < 13 && Values.Ordering[rs[i]] == symbols[i]
    ensures RanksOf(cards) == rs
  {
    forall i | 0 <= i < |rs| ensures Rank(cards[i]) == rs[i] {
      Values.StrengthOfPosition(rs[i]);
      assert cards[i].value == Values.Value(Values.Ordering[rs[i]]);
    }
  }

  // ---------------------------------------------------------------------
  // Classification

  /** The wheel `A 2 3 4 5` not all of one suit is only a high card: an ace
      never counts low. */
  lemma WheelIsHighCard(cards: FiveCards)
    requires Shows(cards, "A2345") && !AllSameSuit(cards)
    ensures CalcRank(cards) == HIGH_CARD
  {
    RanksShown(cards, "A2345", [12, 0, 1, 2, 3]);
    WheelRankFacts(cards);
    WheelNotConsecutive(cards);
    DistinctRanksHighCard(cards);
  }

  lemma WheelRankFacts(cards: FiveCards)
    requires RanksOf(cards) == [12, 0, 1, 2, 3]
    ensures multiset(RanksOf(cards)) == multiset{12, 0, 1, 2, 3}
    ensures Distinct(RanksOf(cards))
  {
    DistinctFive(RanksOf(cards));
  }

  lemma DistinctFive(rs: seq<int>)
    requires |rs| == 5
    requires rs[0] != rs[1] && rs[0] != rs[2] && rs[0] != rs[3] && rs[0] != rs[4]
    requires rs[1] != rs[2] && rs[1] != rs[3] && rs[1] != rs[4]
    requires rs[2] != rs[3] && rs[2] != rs[4] && rs[3] != rs[4]
    ensures Distinct(rs)
  {
  }

  lemma DistinctRanksHighCard(cards: FiveCards)
    requires Distinct(RanksOf(cards)) && !CardsConsecutive(cards) && !AllSameSuit(cards)
    ensures CalcRank(cards) == HIGH_CARD
  {
    HighCardIff(cards);
  }

  /** `T J Q K A` of one suit is a royal flush. */
  lemma RoyalExample(cards: FiveCards)
    requires Shows(cards, "TJQKA")
    requires forall i :: 0 <= i < 5 ==> cards[i].suit == cards[0].suit
    ensures CalcRank(cards) == ROYAL_FLUSH
  {
    RanksShown(cards, "TJQKA", [8, 9, 10, 11, 12]);
    FacesRun(cards);
    AllSameSuitIff(cards);
    RoyalFlushIff(cards);
  }

  lemma FacesRun(cards: FiveCards)
    requires RanksOf(cards) == [8, 9, 10, 11, 12]
    ensures multiset(RanksOf(cards)) == Run(8)
  {
  }

  // ---------------------------------------------------------------------
  // Comparison

  /** Four twos beat three aces with two kings. */
  lemma QuadsBeatFullHouseExample(a: Hand, b: Hand)
    requires Shows(a.cards, "22223") && Shows(b.cards, "AAAKK")
    ensures Gt(a, b) == Stronger
  {
    RanksShown(a.cards, "22223", [0, 0, 0, 0, 1]);
    RanksShown(b.cards, "AAAKK", [12, 12, 12, 11, 11]);
    CountFive(RanksOf(a.cards), 0);
    CountFive(RanksOf(b.cards), 12);
    CountFive(RanksOf(b.cards), 11);
    FourOfKindBeatsFullHouse(a, b, 0, 12, 11);
  }

  /** `Count` of a five-element list, position by position. */
  lemma CountFive(rs: seq<int>, x: int)
    requires |rs| == 5
    ensures Count(rs, x) == (if rs[0] == x then 1 else 0) + (if rs[1] == x then 1 else 0)
      + (if rs[2] == x then 1 else 0) + (if rs[3] == x then 1 else 0) + (if rs[4] == x then 1 else 0)
  {
    CountStep(rs, x, 0);
    CountStep(rs, x, 1);
    CountStep(rs, x, 2);
    CountStep(rs, x, 3);
    CountStep(rs, x, 4);
  }

  lemma CountStep(rs: seq<int>, x: int, i: nat)
    requires i < |rs|
    ensures Count(rs[i..], x) == (if rs[i] == x then 1 else 0) + Count(rs[i + 1..], x)
  {
    assert rs[i..][1..] == rs[i + 1..];
  }

  /** A pair of nines with ace, king, two beats a pair of nines with ace,
      queen, three: the kickers decide at the second of them. */
  lemma OnePairKickerExample(a: Hand, b: Hand)
    requires Shows(a.cards, "99AK2") && a.cards[0].suit != a.cards[1].suit
    requires Shows(b.cards, "99AQ3") && b.cards[0].suit != b.cards[1].suit
    ensures Gt(a, b) == Stronger
  {
    RanksShown(a.cards, "99AK2", [7, 7, 12, 11, 0]);
    RanksShown(b.cards, "99AQ3", [7, 7, 12, 10, 1]);
    NinesCategory(a.cards, 12, 11, 0);
    NinesCategory(b.cards, 12, 10, 1);
    OnePairOrder(a, b, 7, 7);
    KickersCompare(RanksOf(a.cards), RanksOf(b.cards));
  }

  lemma NinesCategory(cards: FiveCards, x: int, y: int, z: int)
    requires 7 < y < x && z < 7
    requires RanksOf(cards) == [7, 7, x, y, z] && cards[0].suit != cards[1].suit
    ensures CalcRank(cards) == ONE_PAIR && Count(RanksOf(cards), 7) == 2
  {
    CountFive(RanksOf(cards), 7);
    PairMultiset(RanksOf(cards), 7, x, y, z);
    AllSameSuitIff(cards);
    OnePairPattern(cards, 7, x, y, z);
  }

  lemma PairMultiset(rs: seq<int>, p: int, x: int, y: int, z: int)
    requires rs == [p, p, x, y, z]
    ensures multiset(rs) == multiset{p, p, x, y, z}
  {
  }

  /** The kickers `A K 2` against `A Q 3`, each list sorted from the highest down. */
  lemma KickersCompare(ra: seq<int>, rb: seq<int>)
    requires ra == [7, 7, 12, 11, 0] && rb == [7, 7, 12, 10, 1]
    ensures ZipCompare([7] + SortDesc(Without(ra, 7)), [7] + SortDesc(Without(rb, 7))) == Stronger
  {
    var wa, wb := Without(ra, 7), Without(rb, 7);
    PairRemoved(ra, 7, 12, 11, 0);
    PairRemoved(rb, 7, 12, 10, 1);
    DescendingUnique(SortDesc(wa), wa);
    DescendingUnique(SortDesc(wb), wb);
    ZipCompareThree(12, 11, 0, 12, 10, 1);
    ZipCompareCons(7, wa, 7, wb);
  }

  /** Removing the pair leaves the other three ranks, in order. */
  lemma PairRemoved(rs: seq<int>, p: int, x: int, y: int, z: int)
    requires rs == [p, p, x, y, z] && x != p && y != p && z != p && x >= y >= z
    ensures Without(rs, p) == [x, y, z] && Descending([x, y, z])
  {
    assert rs[1..] == [p, x, y, z] && rs[1..][1..] == [x, y, z];
    assert Without([z], p) == [z];
    assert Without([y, z], p) == [y] + Without([z], p);
    assert Without([x, y, z], p) == [x] + Without([y, z], p);
  }

  /** Two fours of sevens: the comparison answers `False` in both directions
      rather than reporting that no winner can be told apart. */
  lemma EqualQuadsExample(a: Hand, b: Hand)
    requires Shows(a.cards, "77772") && Shows(b.cards, "77773")
    ensures Gt(a, b) == NotStronger && Gt(b, a) == NotStronger
  {
    RanksShown(a.cards, "77772", [5, 5, 5, 5, 0]);
    RanksShown(b.cards, "77773", [5, 5, 5, 5, 1]);
    CountFive(RanksOf(a.cards), 5);
    CountFive(RanksOf(b.cards), 5);
    FourOfKindOrder(a, b, 5, 5);
    FourOfKindOrder(b, a, 5, 5);
  }
}
