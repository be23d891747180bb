/** Five-card hands and their classification into ten categories, checked
    in a fixed priority order (royal flush first, high card last). */
module Hands {
  import Values
  import opened Sequences
  import opened Cards

  // The category tags, weakest to strongest.
  const HIGH_CARD := 1
  const ONE_PAIR := 2
  const TWO_PAIRS := 3
  const THREE_OF_KIND := 4
  const STRAIGHT := 5
  const FLUSH := 6
  const FULL_HOUSE := 7
  const FOUR_OF_KIND := 8
  const STRAIGHT_FLUSH := 9
  const ROYAL_FLUSH := 10

  /** Exactly five cards. */
  type FiveCards = s: seq<Card> | |s| == 5
    witness [Card(Values.Value('2'), 'H'), Card(Values.Value('3'), 'H'), Card(Values.Value('4'), 'H'),
             Card(Values.Value('5'), 'H'), Card(Values.Value('7'), 'S')]

  /** A hand; its category is a function of its cards, computed by `CalcRank`. */
  datatype Hand = Hand(cards: FiveCards) {
    function Category(): int {
      CalcRank(cards)
    }
  }

  /** The five ranks of a straight starting at `lo`. */
  function Run(lo: int): multiset<int> {
    multiset{lo, lo + 1, lo + 2, lo + 3, lo + 4}
  }

  /** The five ranks of a straight starting at `lo`, ascending. */
  function RunSeq(lo: int): seq<int> {
    [lo, lo + 1, lo + 2, lo + 3, lo + 4]
  }

  /** Each of the five ranks occurs once in a run, and nothing else does. */
  lemma RunMultiplicity(lo: int, x: int)
    ensures Run(lo)[x] == if lo <= x < lo + 5 then 1 else 0
  {
  }

  lemma RunSeqFacts(lo: int)
    ensures |RunSeq(lo)| == 5
    ensures forall k :: 0 <= k < 5 ==> RunSeq(lo)[k] == lo + k
    ensures Distinct(RunSeq(lo)) && Ascending(RunSeq(lo))
    ensures multiset(RunSeq(lo)) == Run(lo)
  {
  }

  // ---------------------------------------------------------------------
  // The helpers of the classifier

  /** `_all_same_suit`: some suit is the suit of every card. */
  predicate AllSameSuit(cards: seq<Card>) {
    exists k :: 0 <= k < |Suits| && forall i :: 0 <= i < |cards| ==> cards[i].suit == Suits[k]
  }

  /** `_cards_consecutive`: after sorting, each rank is one above the previous. */
  predicate CardsConsecutive(cards: seq<Card>) {
    var types := RanksOf(SortCards(cards));
    forall i :: 1 <= i < |types| ==> types[i - 1] + 1 == types[i]
  }

  /** `_have_n_of_same_type`: some rank occurs exactly `n` times. */
  predicate HaveNOfSameType(cards: seq<Card>, n: nat) {
    exists t :: 0 <= t < 13 && Count(RanksOf(cards), t) == n
  }

  /** The cards of rank `t`, in hand order. */
  function Bucket(cards: seq<Card>, t: int): (b: seq<Card>)
    ensures |b| == Count(RanksOf(cards), t)
    ensures forall i :: 0 <= i < |b| ==> Rank(b[i]) == t
    ensures multiset(b) <= multiset(cards)
  {
    if cards == [] then []
    else
      assert cards == [cards[0]] + cards[1..];
      assert RanksOf(cards)[1..] == RanksOf(cards[1..]);
      (if Rank(cards[0]) == t then [cards[0]] else []) + Bucket(cards[1..], t)
  }

  /** `group_by_type`: one bucket per rank, in the order of `Values.Ordering`. */
  function GroupByType(cards: seq<Card>): (g: seq<seq<Card>>)
    ensures |g| == 13
    ensures forall t :: 0 <= t < 13 ==> |g[t]| == Count(RanksOf(cards), t)
    ensures forall t, i :: 0 <= t < 13 && 0 <= i < |g[t]| ==> Rank(g[t][i]) == t
    ensures forall t :: 0 <= t < 13 ==> multiset(g[t]) <= multiset(cards)
  {
    seq(13, t requires 0 <= t < 13 => Bucket(cards, t))
  }

  /** `[t for t in Value.ordering if len(g[t]) == n]` from position `t` on. */
  function SizedFrom(g: seq<seq<Card>>, n: nat, t: nat): (rs: seq<int>)
    requires |g| == 13 && t <= 13
    ensures forall x :: x in rs <==> t <= x < 13 && |g[x]| == n
    ensures forall i :: 0 <= i < |rs| ==> t <= rs[i]
    ensures StrictlyAscending(rs)
    decreases 13 - t
  {
    if t == 13 then []
    else if |g[t]| == n then [t] + SizedFrom(g, n, t + 1)
    else SizedFrom(g, n, t + 1)
  }

  /** The ranks whose bucket holds exactly `n` cards, ascending. Since every
      card of bucket `t` has rank `t`, the rank `t` stands for the source's
      `g[t][0].value`. */
  function Sized(g: seq<seq<Card>>, n: nat): (rs: seq<int>)
    requires |g| == 13
    ensures forall x :: x in rs <==> 0 <= x < 13 && |g[x]| == n
    ensures StrictlyAscending(rs)
  {
    SizedFrom(g, n, 0)
  }

  /** `_have_two_pairs`: exactly two buckets hold two cards. */
  predicate HaveTwoPairs(cards: seq<Card>) {
    |Sized(GroupByType(cards), 2)| == 2
  }

  /** `all(Value(face) in card_values for face in Value.faces)`. */
  predicate HasAllFaces(cards: seq<Card>) {
    forall k :: 0 <= k < |Values.Faces| ==>
      exists i :: 0 <= i < |cards| && Values.Eq(cards[i].value, Values.Value(Values.Faces[k]))
  }

  /** The answers of the helpers that `calc_rank` consults, for one hand. */
  datatype Signals = Signals(sameSuit: bool, allFaces: bool, consecutive: bool,
                             four: bool, three: bool, pair: bool, twoPairs: bool)

  function SignalsOf(cards: FiveCards): Signals {
    Signals(AllSameSuit(cards), HasAllFaces(cards), CardsConsecutive(cards),
            HaveNOfSameType(cards, 4), HaveNOfSameType(cards, 3), HaveNOfSameType(cards, 2),
            HaveTwoPairs(cards))
  }

  /** The priority chain of `calc_rank`: the first category whose condition holds. */
  function Classify(f: Signals): (r: int)
    ensures HIGH_CARD <= r <= ROYAL_FLUSH
  {
    if f.sameSuit && f.allFaces then ROYAL_FLUSH
    else if f.sameSuit && f.consecutive then STRAIGHT_FLUSH
    else if f.four then FOUR_OF_KIND
    else if f.three && f.pair then FULL_HOUSE
    else if f.sameSuit then FLUSH
    else if f.consecutive then STRAIGHT
    else if f.three then THREE_OF_KIND
    else if f.twoPairs then TWO_PAIRS
    else if f.pair then ONE_PAIR
    else HIGH_CARD
  }

  /** `Hand.calc_rank`. */
  function CalcRank(cards: FiveCards): (r: int)
    ensures HIGH_CARD <= r <= ROYAL_FLUSH
  {
    Classify(SignalsOf(cards))
  }

  // ---------------------------------------------------------------------
  // What the helpers decide, stated without them

  /** All cards share a suit exactly when they share the first card's suit. */
  lemma AllSameSuitIff(cards: FiveCards)
    ensures AllSameSuit(cards) <==> forall i :: 0 <= i < |cards| ==> cards[i].suit == cards[0].suit
  {
    if forall i :: 0 <= i < |cards| ==> cards[i].suit == cards[0].suit {
      var k := Values.IndexIn(Suits, cards[0].suit);
      assert forall i :: 0 <= i < |cards| ==> cards[i].suit == Suits[k];
    }
  }

  /** The rank index of the symbol `Values.Faces[k]` is 8 + k. */
  lemma FaceStrength(k: nat)
    requires k < |Values.Faces|
    ensures Values.Strength(Values.Value(Values.Faces[k])) == 8 + k
  {
    Values.FacesAreTopRanks(k);
    Values.StrengthOfPosition(8 + k);
  }

  /** All five faces are present exactly when the ranks are T, J, Q, K, A. */
  lemma HasAllFacesIffRun(cards: FiveCards)
    ensures HasAllFaces(cards) <==> multiset(RanksOf(cards)) == Run(8)
  {
    if HasAllFaces(cards) {
      AllFacesGiveRun(cards);
    }
    if multiset(RanksOf(cards)) == Run(8) {
      RunGivesAllFaces(cards);
    }
  }

  /** The face `Values.Faces[k]` is among the cards exactly when rank 8 + k is. */
  lemma FacePresent(cards: seq<Card>, k: nat)
    requires k < |Values.Faces|
    ensures (exists i :: 0 <= i < |cards| && Values.Eq(cards[i].value, Values.Value(Values.Faces[k])))
        <==> Count(RanksOf(cards), 8 + k) >= 1
  {
    FaceStrength(k);
    CountPositive(RanksOf(cards), 8 + k);
  }

  lemma AllFacesGiveRun(cards: FiveCards)
    requires HasAllFaces(cards)
    ensures multiset(RanksOf(cards)) == Run(8)
  {
    var ps := RunSeq(8);
    RunSeqFacts(8);
    forall k | 0 <= k < |ps| ensures Count(RanksOf(cards), ps[k]) >= 1 {
      FacePresent(cards, k);
    }
    PresentPointsFill(RanksOf(cards), ps);
  }

  lemma RunGivesAllFaces(cards: FiveCards)
    requires multiset(RanksOf(cards)) == Run(8)
    ensures HasAllFaces(cards)
  {
    var rs := RanksOf(cards);
    forall k | 0 <= k < |Values.Faces|
      ensures exists i :: 0 <= i < |cards| && Values.Eq(cards[i].value, Values.Value(Values.Faces[k]))
    {
      CountIsMultiplicity(rs, 8 + k);
      RunMultiplicity(8, 8 + k);
      FacePresent(cards, k);
    }
  }

  /** A hand is consecutive exactly when its ranks are five successive
      ranks, lowest `lo` between `2` (0) and `T` (8). */
  lemma ConsecutiveIffRun(cards: FiveCards)
    ensures CardsConsecutive(cards) <==> exists lo :: 0 <= lo <= 8 && multiset(RanksOf(cards)) == Run(lo)
  {
    if CardsConsecutive(cards) {
      var lo := ConsecutiveGivesRun(cards);
    }
    if exists lo :: 0 <= lo <= 8 && multiset(RanksOf(cards)) == Run(lo) {
      var lo :| 0 <= lo <= 8 && multiset(RanksOf(cards)) == Run(lo);
      RunGivesConsecutive(cards, lo);
    }
  }

  lemma ConsecutiveGivesRun(cards: FiveCards) returns (lo: int)
    requires CardsConsecutive(cards)
    ensures 0 <= lo <= 8 && multiset(RanksOf(cards)) == Run(lo)
  {
    var ts := RanksOf(SortCards(cards));
    lo := ts[0];
    StepsGiveRun(ts);
    RunSeqFacts(lo);
    SortedRanksInRange(cards);
    SortCardsRanks(cards);
  }

  /** Five values each one above the previous are a run. */
  lemma StepsGiveRun(ts: seq<int>)
    requires |ts| == 5
    requires forall i :: 1 <= i < |ts| ==> ts[i - 1] + 1 == ts[i]
    ensures ts == RunSeq(ts[0])
  {
    assert ts[1] == ts[0] + 1;
    assert ts[2] == ts[1] + 1;
    assert ts[3] == ts[2] + 1;
    assert ts[4] == ts[3] + 1;
  }

  /** The sorted ranks of a hand lie in 0..12. */
  lemma SortedRanksInRange(cards: seq<Card>)
    ensures forall i :: 0 <= i < |cards| ==> 0 <= RanksOf(SortCards(cards))[i] < 13
  {
  }

  lemma RunGivesConsecutive(cards: FiveCards, lo: int)
    requires multiset(RanksOf(cards)) == Run(lo)
    ensures CardsConsecutive(cards)
  {
    var ts := RanksOf(SortCards(cards));
    SortCardsRanks(cards);
    RunSeqFacts(lo);
    AscendingUnique(ts, RunSeq(lo));
  }

  /** A hand with a repeated rank is never consecutive. */
  lemma RepeatedRankNotConsecutive(cards: FiveCards, i: nat, j: nat)
    requires i < j < 5 && Rank(cards[i]) == Rank(cards[j])
    ensures !CardsConsecutive(cards)
  {
    var rs := RanksOf(cards);
    CountTwo(rs, i, j);
    RepeatNotConsecutive(cards, rs[i]);
  }

  /** The ace never plays low: A 2 3 4 5 is not consecutive. */
  lemma WheelNotConsecutive(cards: FiveCards)
    requires multiset(RanksOf(cards)) == multiset{12, 0, 1, 2, 3}
    ensures !CardsConsecutive(cards)
  {
    if CardsConsecutive(cards) {
      var lo := ConsecutiveGivesRun(cards);
      RunMultiplicity(lo, 12);
      RunMultiplicity(lo, 0);
      assert false;
    }
  }

  /** A rank occurring twice rules out a straight. */
  lemma RepeatNotConsecutive(cards: FiveCards, x: int)
    requires Count(RanksOf(cards), x) >= 2
    ensures !CardsConsecutive(cards)
  {
    CountIsMultiplicity(RanksOf(cards), x);
    if CardsConsecutive(cards) {
      var lo := ConsecutiveGivesRun(cards);
      RunMultiplicity(lo, x);
    }
  }

  /** A rank occurring twice rules out holding all five faces. */
  lemma RepeatNoFaces(cards: FiveCards, x: int)
    requires Count(RanksOf(cards), x) >= 2
    ensures !HasAllFaces(cards)
  {
    CountIsMultiplicity(RanksOf(cards), x);
    if HasAllFaces(cards) {
      AllFacesGiveRun(cards);
      RunMultiplicity(8, x);
    }
  }

  /** A rank that occurs at all is a rank index in 0..12. */
  lemma OccurringRankInRange(cards: seq<Card>, x: int)
    requires Count(RanksOf(cards), x) >= 1
    ensures 0 <= x < 13
  {
    CountPositive(RanksOf(cards), x);
  }

  /** No rank occurs exactly `n` times when every count is given by `m`
      and `m` never says `n`. */
  lemma NoneOfSize(cards: FiveCards, m: multiset<int>, n: nat)
    requires multiset(RanksOf(cards)) == m
    requires forall x :: m[x] != n
    ensures !HaveNOfSameType(cards, n)
  {
    CountsAreMultiplicities(RanksOf(cards));
  }

  // ---------------------------------------------------------------------
  // The categories by their rank patterns: what each tag means in poker terms

  /** Four cards of one rank make four of a kind, whatever the suits. */
  lemma FourOfKindByCount(cards: FiveCards, q: int)
    requires Count(RanksOf(cards), q) == 4
    ensures CalcRank(cards) == FOUR_OF_KIND
  {
    OccurringRankInRange(cards, q);
    RepeatNotConsecutive(cards, q);
    RepeatNoFaces(cards, q);
  }

  /** A hand is four of a kind exactly when some rank occurs four times. */
  lemma FourOfKindIff(cards: FiveCards)
    ensures CalcRank(cards) == FOUR_OF_KIND <==> exists q :: Count(RanksOf(cards), q) == 4
  {
    if exists q :: Count(RanksOf(cards), q) == 4 {
      var q :| Count(RanksOf(cards), q) == 4;
      FourOfKindByCount(cards, q);
    }
  }

  /** Three cards of one rank and two of another make a full house, whatever the suits. */
  lemma FullHouseByCounts(cards: FiveCards, t: int, p: int)
    requires Count(RanksOf(cards), t) == 3 && Count(RanksOf(cards), p) == 2
    ensures CalcRank(cards) == FULL_HOUSE
  {
    var rs := RanksOf(cards);
    OccurringRankInRange(cards, t);
    OccurringRankInRange(cards, p);
    RepeatNotConsecutive(cards, t);
    RepeatNoFaces(cards, t);
    NoFourBeside(rs, t, p);
  }

  /** Beside a rank occurring three times and one occurring twice, no rank of
      five occurs four times. */
  lemma NoFourBeside(rs: seq<int>, t: int, p: int)
    requires |rs| == 5 && Count(rs, t) == 3 && Count(rs, p) == 2
    ensures forall x :: Count(rs, x) != 4
  {
    forall x ensures Count(rs, x) != 4 {
      if x != t && x != p {
        CountsBound3(rs, t, p, x);
      }
    }
  }

  /** A hand is a full house exactly when one rank occurs three times and another twice. */
  lemma FullHouseIff(cards: FiveCards)
    ensures CalcRank(cards) == FULL_HOUSE <==>
      exists t, p :: Count(RanksOf(cards), t) == 3 && Count(RanksOf(cards), p) == 2
  {
    if exists t, p :: Count(RanksOf(cards), t) == 3 && Count(RanksOf(cards), p) == 2 {
      var t, p :| Count(RanksOf(cards), t) == 3 && Count(RanksOf(cards), p) == 2;
      FullHouseByCounts(cards, t, p);
    }
  }

  /** Three of one rank and two different singletons, not all of one suit,
      make three of a kind. */
  lemma ThreeOfKindPattern(cards: FiveCards, t: int, x: int, y: int)
    requires t != x && t != y && x != y
    requires multiset(RanksOf(cards)) == multiset{t, t, t, x, y}
    requires !AllSameSuit(cards)
    ensures CalcRank(cards) == THREE_OF_KIND
  {
    ThreeOfKindShape(t, x, y);
    MultiplicityIn(cards, t);
    RepeatNotConsecutive(cards, t);
    NoneOfSize(cards, multiset{t, t, t, x, y}, 4);
    NoneOfSize(cards, multiset{t, t, t, x, y}, 2);
  }

  lemma ThreeOfKindShape(t: int, x: int, y: int)
    requires t != x && t != y && x != y
    ensures multiset{t, t, t, x, y}[t] == 3
    ensures forall z :: multiset{t, t, t, x, y}[z] != 2 && multiset{t, t, t, x, y}[z] != 4
  {
  }

  /** Two pairs of different ranks and a singleton of a third, not all of one
      suit, make two pairs. */
  lemma TwoPairsPattern(cards: FiveCards, q: int, p: int, k: int)
    requires p < q && k != p && k != q
    requires multiset(RanksOf(cards)) == multiset{q, q, p, p, k}
    requires !AllSameSuit(cards)
    ensures CalcRank(cards) == TWO_PAIRS
  {
    var m := multiset{q, q, p, p, k};
    TwoPairsShape(q, p, k);
    MultiplicityIn(cards, q);
    RepeatNotConsecutive(cards, q);
    NoneOfSize(cards, m, 4);
    NoneOfSize(cards, m, 3);
    SizedCounts(cards, 2);
    CountsAreMultiplicities(RanksOf(cards));
    StrictlyAscendingPair(Sized(GroupByType(cards), 2), p, q);
    assert HaveTwoPairs(cards);
  }

  lemma TwoPairsShape(q: int, p: int, k: int)
    requires p < q && k != p && k != q
    ensures forall x :: multiset{q, q, p, p, k}[x] == 2 <==> x == p || x == q
    ensures forall x :: multiset{q, q, p, p, k}[x] < 3
    ensures multiset{q, q, p, p, k}[q] == 2
  {
  }

  /** A rank's count is its multiplicity, and a rank that occurs lies in 0..12. */
  lemma MultiplicityIn(cards: seq<Card>, x: int)
    ensures Count(RanksOf(cards), x) == multiset(RanksOf(cards))[x]
    ensures multiset(RanksOf(cards))[x] > 0 ==> 0 <= x < 13
  {
    CountIsMultiplicity(RanksOf(cards), x);
    CountPositive(RanksOf(cards), x);
  }

  /** One pair and three different singletons, not all of one suit, make one pair. */
  lemma OnePairPattern(cards: FiveCards, p: int, x: int, y: int, z: int)
    requires p != x && p != y && p != z && x != y && x != z && y != z
    requires multiset(RanksOf(cards)) == multiset{p, p, x, y, z}
    requires !AllSameSuit(cards)
    ensures CalcRank(cards) == ONE_PAIR
  {
    OnePairShape(p, x, y, z);
    MultiplicityIn(cards, p);
    RepeatNotConsecutive(cards, p);
    NoneOfSize(cards, multiset{p, p, x, y, z}, 4);
    NoneOfSize(cards, multiset{p, p, x, y, z}, 3);
    SizedCounts(cards, 2);
    CountsAreMultiplicities(RanksOf(cards));
    StrictlyAscendingSingle(Sized(GroupByType(cards), 2), p);
  }

  lemma OnePairShape(p: int, x: int, y: int, z: int)
    requires p != x && p != y && p != z && x != y && x != z && y != z
    ensures multiset{p, p, x, y, z}[p] == 2
    ensures forall w :: multiset{p, p, x, y, z}[w] == 2 <==> w == p
    ensures forall w :: multiset{p, p, x, y, z}[w] < 3
  {
  }

  /** Five successive ranks, not all of one suit, make a straight. */
  lemma StraightPattern(cards: FiveCards, lo: int)
    requires 0 <= lo <= 8 && multiset(RanksOf(cards)) == Run(lo)
    requires !AllSameSuit(cards)
    ensures CalcRank(cards) == STRAIGHT
  {
    RunGivesConsecutive(cards, lo);
    forall x ensures Run(lo)[x] <= 1 {
      RunMultiplicity(lo, x);
    }
    NoneOfSize(cards, Run(lo), 4);
    NoneOfSize(cards, Run(lo), 3);
  }

  /** Five successive ranks of one suit, below the royal run, make a straight flush. */
  lemma StraightFlushPattern(cards: FiveCards, lo: int)
    requires 0 <= lo < 8 && multiset(RanksOf(cards)) == Run(lo)
    requires AllSameSuit(cards)
    ensures CalcRank(cards) == STRAIGHT_FLUSH
  {
    RunGivesConsecutive(cards, lo);
    RunMultiplicity(lo, lo);
    RunMultiplicity(8, lo);
    HasAllFacesIffRun(cards);
  }

  /** The ranks are five successive indices lo … lo+4 starting below T, so
      the run stops below the ace. */
  ghost predicate RanksFormLowRun(cards: FiveCards) {
    exists lo :: 0 <= lo < 8 && multiset(RanksOf(cards)) == Run(lo)
  }

  /** A hand is a straight flush exactly when it is of one suit and its ranks
      are five successive indices starting below T. */
  lemma StraightFlushIff(cards: FiveCards)
    ensures CalcRank(cards) == STRAIGHT_FLUSH <==> AllSameSuit(cards) && RanksFormLowRun(cards)
  {
    StraightFlushNecessary(cards);
    StraightFlushSufficient(cards);
  }

  lemma StraightFlushNecessary(cards: FiveCards)
    ensures CalcRank(cards) == STRAIGHT_FLUSH ==> AllSameSuit(cards) && RanksFormLowRun(cards)
  {
    if CalcRank(cards) == STRAIGHT_FLUSH {
      var lo := StraightFlushRun(cards);
    }
  }

  lemma StraightFlushSufficient(cards: FiveCards)
    ensures AllSameSuit(cards) && RanksFormLowRun(cards) ==> CalcRank(cards) == STRAIGHT_FLUSH
  {
    if AllSameSuit(cards) && RanksFormLowRun(cards) {
      var lo :| 0 <= lo < 8 && multiset(RanksOf(cards)) == Run(lo);
      StraightFlushPattern(cards, lo);
    }
  }

  /** T J Q K A of one suit is a royal flush, and nothing else is. */
  lemma RoyalFlushIff(cards: FiveCards)
    ensures CalcRank(cards) == ROYAL_FLUSH <==> AllSameSuit(cards) && multiset(RanksOf(cards)) == Run(8)
  {
    HasAllFacesIffRun(cards);
  }

  /** No rank occurs four times, and no triple stands beside a pair. */
  ghost predicate NoQuadNorFullHouse(cards: FiveCards) {
    (forall q :: Count(RanksOf(cards), q) != 4)
    && !exists t, p :: Count(RanksOf(cards), t) == 3 && Count(RanksOf(cards), p) == 2
  }

  /** A hand is a flush exactly when it is of one suit, not consecutive, and
      holds neither four of a rank nor a triple beside a pair. Other repeated
      ranks do not stop a flush. */
  lemma FlushIff(cards: FiveCards)
    ensures CalcRank(cards) == FLUSH <==>
      AllSameSuit(cards) && !CardsConsecutive(cards) && NoQuadNorFullHouse(cards)
  {
    FlushNecessary(cards);
    FlushSufficient(cards);
  }

  lemma FlushNecessary(cards: FiveCards)
    ensures CalcRank(cards) == FLUSH ==>
      AllSameSuit(cards) && !CardsConsecutive(cards) && NoQuadNorFullHouse(cards)
  {
    FourOfKindIff(cards);
    FullHouseIff(cards);
  }

  lemma FlushSufficient(cards: FiveCards)
    ensures AllSameSuit(cards) && !CardsConsecutive(cards) && NoQuadNorFullHouse(cards) ==>
      CalcRank(cards) == FLUSH
  {
    FourOfKindIff(cards);
    FullHouseIff(cards);
    HasAllFacesIffRun(cards);
    if HasAllFaces(cards) {
      RunGivesConsecutive(cards, 8);
    }
  }

  /** The ranks are five successive indices lo … lo+4, the highest run included. */
  ghost predicate RanksFormRun(cards: FiveCards) {
    exists lo :: 0 <= lo <= 8 && multiset(RanksOf(cards)) == Run(lo)
  }

  /** A hand is a straight exactly when it is not of one suit and its ranks
      are five successive indices, the highest run included. */
  lemma StraightIff(cards: FiveCards)
    ensures CalcRank(cards) == STRAIGHT <==> !AllSameSuit(cards) && RanksFormRun(cards)
  {
    StraightNecessary(cards);
    StraightSufficient(cards);
  }

  lemma StraightNecessary(cards: FiveCards)
    ensures CalcRank(cards) == STRAIGHT ==> !AllSameSuit(cards) && RanksFormRun(cards)
  {
    ConsecutiveIffRun(cards);
  }

  lemma StraightSufficient(cards: FiveCards)
    ensures !AllSameSuit(cards) && RanksFormRun(cards) ==> CalcRank(cards) == STRAIGHT
  {
    if !AllSameSuit(cards) && RanksFormRun(cards) {
      var lo :| 0 <= lo <= 8 && multiset(RanksOf(cards)) == Run(lo);
      StraightPattern(cards, lo);
    }
  }

  /** Some rank occurs three times and no rank occurs twice. */
  ghost predicate TripleWithoutPair(cards: FiveCards) {
    (exists t :: Count(RanksOf(cards), t) == 3) && forall p :: Count(RanksOf(cards), p) != 2
  }

  /** A hand is three of a kind exactly when it is not of one suit, some rank
      occurs three times, and no rank occurs twice. */
  lemma ThreeOfKindIff(cards: FiveCards)
    ensures CalcRank(cards) == THREE_OF_KIND <==> !AllSameSuit(cards) && TripleWithoutPair(cards)
  {
    ThreeOfKindNecessary(cards);
    ThreeOfKindSufficient(cards);
  }

  lemma ThreeOfKindNecessary(cards: FiveCards)
    ensures CalcRank(cards) == THREE_OF_KIND ==> !AllSameSuit(cards) && TripleWithoutPair(cards)
  {
    if CalcRank(cards) == THREE_OF_KIND {
      var t := ThreeOfKindKey(cards);
      ThreeOfKindNoPair(cards);
    }
  }

  lemma ThreeOfKindSufficient(cards: FiveCards)
    ensures !AllSameSuit(cards) && TripleWithoutPair(cards) ==> CalcRank(cards) == THREE_OF_KIND
  {
    var rs := RanksOf(cards);
    if !AllSameSuit(cards) && TripleWithoutPair(cards) {
      var t :| Count(rs, t) == 3;
      ThreeOfKindSignals(cards, t);
    }
  }

  /** No rank occurs twice in a three of a kind hand. */
  lemma ThreeOfKindNoPair(cards: FiveCards)
    requires CalcRank(cards) == THREE_OF_KIND
    ensures forall p :: Count(RanksOf(cards), p) != 2
  {
    assert !HaveNOfSameType(cards, 2);
    forall p ensures Count(RanksOf(cards), p) != 2 {
      if Count(RanksOf(cards), p) >= 1 {
        OccurringRankInRange(cards, p);
      }
    }
  }

  /** A triple with no pair beside it: only the triple helper answers yes. */
  lemma ThreeOfKindSignals(cards: FiveCards, t: int)
    requires Count(RanksOf(cards), t) == 3
    requires forall p :: Count(RanksOf(cards), p) != 2
    ensures HaveNOfSameType(cards, 3) && !HaveNOfSameType(cards, 2) && !HaveNOfSameType(cards, 4)
    ensures !CardsConsecutive(cards) && !HasAllFaces(cards)
  {
    var rs := RanksOf(cards);
    OccurringRankInRange(cards, t);
    forall q | 0 <= q < 13 ensures Count(rs, q) != 4 {
      if q != t {
        CountsBound2(rs, t, q);
      }
    }
    RepeatNotConsecutive(cards, t);
    RepeatNoFaces(cards, t);
  }

  /** Some rank occurs twice and every other rank at most once. */
  ghost predicate PairAmongSingles(cards: FiveCards) {
    exists p :: Count(RanksOf(cards), p) == 2 && forall y :: y != p ==> Count(RanksOf(cards), y) <= 1
  }

  /** A hand is one pair exactly when it is not of one suit, some rank occurs
      twice, and every other rank at most once. */
  lemma OnePairIff(cards: FiveCards)
    ensures CalcRank(cards) == ONE_PAIR <==> !AllSameSuit(cards) && PairAmongSingles(cards)
  {
    OnePairNecessary(cards);
    OnePairSufficient(cards);
  }

  lemma OnePairNecessary(cards: FiveCards)
    ensures CalcRank(cards) == ONE_PAIR ==> !AllSameSuit(cards) && PairAmongSingles(cards)
  {
    if CalcRank(cards) == ONE_PAIR {
      var p := OnePairKey(cards);
      OnePairOthersAtMostOnce(cards, p);
    }
  }

  lemma OnePairSufficient(cards: FiveCards)
    ensures !AllSameSuit(cards) && PairAmongSingles(cards) ==> CalcRank(cards) == ONE_PAIR
  {
    var rs := RanksOf(cards);
    if !AllSameSuit(cards) && PairAmongSingles(cards) {
      var p :| Count(rs, p) == 2 && forall y :: y != p ==> Count(rs, y) <= 1;
      OnePairSignals(cards, p);
    }
  }

  /** Beside the pair of a one pair hand, every rank occurs at most once. */
  lemma OnePairOthersAtMostOnce(cards: FiveCards, p: int)
    requires CalcRank(cards) == ONE_PAIR && Count(RanksOf(cards), p) == 2
    ensures forall y :: y != p ==> Count(RanksOf(cards), y) <= 1
  {
    forall y | y != p ensures Count(RanksOf(cards), y) <= 1 {
      OnePairOthersSingle(cards, p, y);
    }
  }

  /** One pair beside singletons: only the pair helper answers yes. */
  lemma OnePairSignals(cards: FiveCards, p: int)
    requires Count(RanksOf(cards), p) == 2
    requires forall y :: y != p ==> Count(RanksOf(cards), y) <= 1
    ensures HaveNOfSameType(cards, 2) && !HaveNOfSameType(cards, 3) && !HaveNOfSameType(cards, 4)
    ensures !HaveTwoPairs(cards) && !CardsConsecutive(cards) && !HasAllFaces(cards)
  {
    OccurringRankInRange(cards, p);
    PairAndSingles(cards, p);
    RepeatNotConsecutive(cards, p);
    RepeatNoFaces(cards, p);
  }

  /** A hand is a high card hand exactly when it is not of one suit, not
      consecutive, and its ranks are all different or all the same. */
  lemma HighCardIff(cards: FiveCards)
    ensures CalcRank(cards) == HIGH_CARD <==>
      !AllSameSuit(cards) && !CardsConsecutive(cards) &&
      (Distinct(RanksOf(cards)) || forall i :: 0 <= i < 5 ==> Rank(cards[i]) == Rank(cards[0]))
  {
    if CalcRank(cards) == HIGH_CARD {
      HighCardShape(cards);
    }
    if !AllSameSuit(cards) && !CardsConsecutive(cards) {
      if Distinct(RanksOf(cards)) {
        DistinctNoGroups(cards);
      } else if forall i :: 0 <= i < 5 ==> Rank(cards[i]) == Rank(cards[0]) {
        AllOneRank(cards);
        NoGroupSignals(cards);
      }
    }
  }

  lemma DistinctNoGroups(cards: FiveCards)
    requires Distinct(RanksOf(cards))
    ensures !HaveNOfSameType(cards, 2) && !HaveNOfSameType(cards, 3) && !HaveNOfSameType(cards, 4)
    ensures !HaveTwoPairs(cards)
  {
    var rs := RanksOf(cards);
    forall t ensures Count(rs, t) <= 1 {
      CountDistinct(rs, t);
    }
    NoGroupSignals(cards);
  }

  /** When no rank occurs two, three or four times, none of the grouping
      helpers answers yes. */
  lemma NoGroupSignals(cards: FiveCards)
    requires forall t :: Count(RanksOf(cards), t) != 2 && Count(RanksOf(cards), t) != 3 && Count(RanksOf(cards), t) != 4
    ensures !HaveNOfSameType(cards, 2) && !HaveNOfSameType(cards, 3) && !HaveNOfSameType(cards, 4)
    ensures !HaveTwoPairs(cards)
  {
    SizedCounts(cards, 2);
    CountsAreMultiplicities(RanksOf(cards));
    LeadingMembers(Sized(GroupByType(cards), 2));
  }

  /** Five cards of one rank: that rank occurs five times and no other occurs. */
  lemma AllOneRank(cards: FiveCards)
    requires forall i :: 0 <= i < 5 ==> Rank(cards[i]) == Rank(cards[0])
    ensures forall t :: Count(RanksOf(cards), t) == if t == Rank(cards[0]) then 5 else 0
  {
    var rs := RanksOf(cards);
    forall t ensures Count(rs, t) == if t == Rank(cards[0]) then 5 else 0 {
      CountsComplete2(rs, Rank(cards[0]), Rank(cards[0]) + 1);
      CountPositive(rs, Rank(cards[0]) + 1);
      if t != Rank(cards[0]) {
        CountPositive(rs, t);
      }
    }
  }

  /** Without two, three or four of a rank, the ranks are all different or all equal. */
  lemma HighCardShape(cards: FiveCards)
    requires !HaveNOfSameType(cards, 2) && !HaveNOfSameType(cards, 3) && !HaveNOfSameType(cards, 4)
    ensures Distinct(RanksOf(cards)) || forall i :: 0 <= i < 5 ==> Rank(cards[i]) == Rank(cards[0])
  {
    var rs := RanksOf(cards);
    if !Distinct(rs) {
      var i, j :| 0 <= i < j < 5 && rs[i] == rs[j];
      CountTwo(rs, i, j);
      CountBound(rs, rs[i]);
      OccurringRankInRange(cards, rs[i]);
      CountFull(rs, rs[i]);
    }
  }

  // ---------------------------------------------------------------------
  // The ranks the group comprehensions pick out

  /** The ranks whose bucket holds `n > 0` cards are those occurring `n` times. */
  lemma SizedCounts(cards: seq<Card>, n: nat)
    requires n > 0
    ensures forall x :: x in Sized(GroupByType(cards), n) <==> Count(RanksOf(cards), x) == n
  {
    forall x ensures x in Sized(GroupByType(cards), n) <==> Count(RanksOf(cards), x) == n {
      CountPositive(RanksOf(cards), x);
    }
  }

  /** A rank held three or more times is the only rank held that often, so the
      comprehension over buckets of that size yields it alone. */
  lemma SizedUnique(cards: FiveCards, n: nat, x: int)
    requires n >= 3 && Count(RanksOf(cards), x) == n
    ensures Sized(GroupByType(cards), n) == [x]
  {
    var rs := RanksOf(cards);
    SizedCounts(cards, n);
    forall y | y != x ensures Count(rs, y) != n {
      CountsBound2(rs, x, y);
    }
    StrictlyAscendingSingle(Sized(GroupByType(cards), n), x);
  }

  /** The pair of a full house is the only rank held twice. */
  lemma FullHousePairUnique(cards: FiveCards, t: int, p: int)
    requires Count(RanksOf(cards), t) == 3 && Count(RanksOf(cards), p) == 2
    ensures Sized(GroupByType(cards), 2) == [p]
  {
    var rs := RanksOf(cards);
    SizedCounts(cards, 2);
    forall y | y != p ensures Count(rs, y) != 2 {
      if y != t {
        CountsBound3(rs, t, p, y);
      }
    }
    StrictlyAscendingSingle(Sized(GroupByType(cards), 2), p);
  }

  /** Two ranks occur twice each and a third rank once. */
  ghost predicate TwoPairsAndSingle(cards: FiveCards) {
    exists q, p, k :: p < q && k != p && k != q
      && Count(RanksOf(cards), q) == 2 && Count(RanksOf(cards), p) == 2 && Count(RanksOf(cards), k) == 1
  }

  /** A hand is two pairs exactly when it is not of one suit and holds two
      pairs of different ranks beside a single fifth rank. */
  lemma TwoPairsIff(cards: FiveCards)
    ensures CalcRank(cards) == TWO_PAIRS <==> !AllSameSuit(cards) && TwoPairsAndSingle(cards)
  {
    TwoPairsNecessary(cards);
    TwoPairsSufficient(cards);
  }

  lemma TwoPairsNecessary(cards: FiveCards)
    ensures CalcRank(cards) == TWO_PAIRS ==> !AllSameSuit(cards) && TwoPairsAndSingle(cards)
  {
    if CalcRank(cards) == TWO_PAIRS {
      var q, p, k := TwoPairsKeys(cards);
    }
  }

  lemma TwoPairsSufficient(cards: FiveCards)
    ensures !AllSameSuit(cards) && TwoPairsAndSingle(cards) ==> CalcRank(cards) == TWO_PAIRS
  {
    if !AllSameSuit(cards) && TwoPairsAndSingle(cards) {
      var rs := RanksOf(cards);
      var q, p, k :| p < q && k != p && k != q && Count(rs, q) == 2 && Count(rs, p) == 2 && Count(rs, k) == 1;
      TwoPairsMultiset(rs, q, p, k);
      TwoPairsPattern(cards, q, p, k);
    }
  }

  /** Counts 2, 2 and 1 of three ranks fill five slots, so they fix the multiset. */
  lemma TwoPairsMultiset(rs: seq<int>, q: int, p: int, k: int)
    requires |rs| == 5 && p < q && k != p && k != q
    requires Count(rs, q) == 2 && Count(rs, p) == 2 && Count(rs, k) == 1
    ensures multiset(rs) == multiset{q, q, p, p, k}
  {
    CountsAreMultiplicities(rs);
    forall x ensures multiset(rs)[x] == multiset{q, q, p, p, k}[x] {
      if x != q && x != p && x != k {
        CountsBound4(rs, q, p, k, x);
      }
    }
  }

  /** A two pairs hand has a higher pair `q`, a lower pair `p` and a fifth rank `k`. */
  lemma TwoPairsKeys(cards: FiveCards) returns (q: int, p: int, k: int)
    requires CalcRank(cards) == TWO_PAIRS
    ensures !AllSameSuit(cards)
    ensures p < q && k != p && k != q
    ensures Count(RanksOf(cards), q) == 2 && Count(RanksOf(cards), p) == 2
    ensures Count(RanksOf(cards), k) == 1
  {
    var rs := RanksOf(cards);
    var l := Sized(GroupByType(cards), 2);
    assert |l| == 2;
    p, q := l[0], l[1];
    SizedCounts(cards, 2);
    assert p in l && q in l;
    var w := Without(Without(rs, q), p);
    k := w[0];
    CountPositive(w, k);
    CountsBound3(rs, p, q, k);
  }

  /** Given its keys, a two pairs hand's pair comprehension yields `[p, q]` and
      its singleton comprehension yields `[k]`. */
  lemma TwoPairsGroups(cards: FiveCards, q: int, p: int, k: int)
    requires p < q && k != p && k != q
    requires Count(RanksOf(cards), q) == 2 && Count(RanksOf(cards), p) == 2
    requires Count(RanksOf(cards), k) == 1
    ensures Sized(GroupByType(cards), 2) == [p, q]
    ensures Sized(GroupByType(cards), 1) == [k]
  {
    var rs := RanksOf(cards);
    SizedCounts(cards, 2);
    SizedCounts(cards, 1);
    forall y | y != p && y != q ensures Count(rs, y) != 2 {
      CountsBound3(rs, p, q, y);
    }
    forall y | y != k ensures Count(rs, y) != 1 {
      if y != p && y != q {
        CountsBound4(rs, p, q, k, y);
      }
    }
    StrictlyAscendingPair(Sized(GroupByType(cards), 2), p, q);
    StrictlyAscendingSingle(Sized(GroupByType(cards), 1), k);
  }

  /** In a one pair hand, every rank other than the pair occurs at most once. */
  lemma OnePairOthersSingle(cards: FiveCards, p: int, x: int)
    requires !HaveNOfSameType(cards, 3) && !HaveTwoPairs(cards)
    requires Count(RanksOf(cards), p) == 2 && x != p
    ensures Count(RanksOf(cards), x) <= 1
  {
    var rs := RanksOf(cards);
    CountPositive(rs, x);
    CountsBound2(rs, p, x);
    if Count(rs, x) == 2 {
      SizedCounts(cards, 2);
      var l := Sized(GroupByType(cards), 2);
      forall y ensures y in l <==> y == p || y == x {
        if y != p && y != x {
          CountsBound3(rs, p, x, y);
        }
      }
      if p < x {
        StrictlyAscendingPair(l, p, x);
      } else {
        StrictlyAscendingPair(l, x, p);
      }
    }
  }

  /** A one pair hand's pair comprehension yields `[p]`, and its singleton
      comprehension yields the other ranks, each once. */
  lemma OnePairGroups(cards: FiveCards, p: int)
    requires CalcRank(cards) == ONE_PAIR && Count(RanksOf(cards), p) == 2
    ensures Sized(GroupByType(cards), 2) == [p]
    ensures multiset(Sized(GroupByType(cards), 1)) == multiset(Without(RanksOf(cards), p))
  {
    assert !HaveNOfSameType(cards, 3) && !HaveTwoPairs(cards);
    forall y | y != p ensures Count(RanksOf(cards), y) <= 1 {
      OnePairOthersSingle(cards, p, y);
    }
    PairAndSingles(cards, p);
  }

  lemma PairAndSingles(cards: seq<Card>, p: int)
    requires Count(RanksOf(cards), p) == 2
    requires forall y :: y != p ==> Count(RanksOf(cards), y) <= 1
    ensures Sized(GroupByType(cards), 2) == [p]
    ensures multiset(Sized(GroupByType(cards), 1)) == multiset(Without(RanksOf(cards), p))
  {
    var w := Without(RanksOf(cards), p);
    var singles := Sized(GroupByType(cards), 1);
    SizedCounts(cards, 2);
    StrictlyAscendingSingle(Sized(GroupByType(cards), 2), p);
    SinglesAreTheRest(cards, p);
    forall y ensures Count(singles, y) <= 1 {
      CountDistinct(singles, y);
    }
    SameMembersNoRepeats(singles, w);
  }

  /** The singleton ranks are the members of the hand once the pair is removed. */
  lemma SinglesAreTheRest(cards: seq<Card>, p: int)
    requires Count(RanksOf(cards), p) == 2
    requires forall y :: y != p ==> Count(RanksOf(cards), y) <= 1
    ensures forall y :: y in Sized(GroupByType(cards), 1) <==> y in Without(RanksOf(cards), p)
    ensures forall y :: Count(Without(RanksOf(cards), p), y) <= 1
  {
    var w := Without(RanksOf(cards), p);
    SizedCounts(cards, 1);
    forall y ensures y in Sized(GroupByType(cards), 1) <==> y in w {
      CountPositive(w, y);
    }
  }

  /** The highest rank of a run starting at `lo` is `lo + 4`. */
  lemma RunTop(cards: FiveCards, lo: int)
    requires multiset(RanksOf(cards)) == Run(lo)
    ensures MaxOf(RanksOf(cards)) == lo + 4
  {
    var rs := RanksOf(cards);
    var m := MaxOf(rs);
    RunMultiplicity(lo, m);
    RunMultiplicity(lo, lo + 4);
    assert m in multiset(rs);
    assert lo + 4 in multiset(rs);
  }

  /** A straight flush is a run of one suit that stops below the ace, so its
      lowest rank is at most `9` (7). */
  lemma StraightFlushRun(cards: FiveCards) returns (lo: int)
    requires CalcRank(cards) == STRAIGHT_FLUSH
    ensures AllSameSuit(cards)
    ensures 0 <= lo < 8 && multiset(RanksOf(cards)) == Run(lo)
  {
    lo := ConsecutiveGivesRun(cards);
    HasAllFacesIffRun(cards);
    if lo == 8 {
      assert false;
    }
  }

  /** A three of a kind hand holds some rank exactly three times. */
  lemma ThreeOfKindKey(cards: FiveCards) returns (t: int)
    requires CalcRank(cards) == THREE_OF_KIND
    ensures Count(RanksOf(cards), t) == 3
  {
    assert HaveNOfSameType(cards, 3);
    t :| 0 <= t < 13 && Count(RanksOf(cards), t) == 3;
  }

  /** A one pair hand holds some rank exactly twice. */
  lemma OnePairKey(cards: FiveCards) returns (p: int)
    requires CalcRank(cards) == ONE_PAIR
    ensures Count(RanksOf(cards), p) == 2
  {
    assert HaveNOfSameType(cards, 2);
    p :| 0 <= p < 13 && Count(RanksOf(cards), p) == 2;
  }
}
