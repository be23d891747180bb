/** Playing cards. A card carries a value and a suit, but compares by its
    value alone: two cards of equal rank and different suits are equal. */
module Cards {
  import Values
  import opened Sequences

  /** The four suit symbols. */
  const Suits: string := "HSCD"

  /** A well-formed suit symbol. */
  type Suit = c: char | c in Suits witness 'H'

  datatype Card = Card(value: Values.Value, suit: Suit)

  /** The rank index of a card: the strength of its value, 0 for `2` up to 12 for `A`. */
  function Rank(c: Card): (r: nat)
    ensures r < 13
  {
    Values.Strength(c.value)
  }

  /** `Card.__eq__`: delegates to the values. */
  predicate Eq(a: Card, b: Card)
    ensures Eq(a, b) <==> Rank(a) == Rank(b)
  {
    Values.Eq(a.value, b.value)
  }

  /** `Card.__lt__`: delegates to the values. */
  predicate Less(a: Card, b: Card) {
    Values.Less(a.value, b.value)
  }

  /** `>` as `functools.total_ordering` derives it for cards. */
  predicate Greater(a: Card, b: Card) {
    !Less(a, b) && !Eq(a, b)
  }

  /** The suit never takes part in a comparison: cards of one value are
      equal, and neither is below or above the other. */
  lemma SuitBlind(a: Card, b: Card)
    requires a.value == b.value
    ensures Eq(a, b) && !Less(a, b) && !Less(b, a) && !Greater(a, b)
  {
  }

  /** Each card comparison is the matching comparison of rank indices. */
  lemma ComparisonsByRank(a: Card, b: Card)
    ensures Less(a, b) <==> Rank(a) < Rank(b)
    ensures Greater(a, b) <==> Rank(a) > Rank(b)
    ensures Eq(a, b) <==> a.value == b.value
  {
    if Rank(a) == Rank(b) {
      assert Values.Ordering[Rank(a)] == a.value.symbol;
    }
  }

  /** The rank indices of a sequence of cards, position by position. */
  function RanksOf(cs: seq<Card>): (rs: seq<int>)
    ensures |rs| == |cs|
    ensures forall i :: 0 <= i < |cs| ==> rs[i] == Rank(cs[i])
  {
    if cs == [] then [] else [Rank(cs[0])] + RanksOf(cs[1..])
  }

  lemma RanksOfCons(c: Card, s: seq<Card>)
    ensures RanksOf([c] + s) == [Rank(c)] + RanksOf(s)
  {
    assert ([c] + s)[1..] == s;
  }

  /** Inserts `c` before the first card that is not below it. */
  function InsertCard(c: Card, s: seq<Card>): (r: seq<Card>)
    ensures multiset(r) == multiset(s) + multiset{c}
    ensures |r| == |s| + 1
  {
    if s == [] || !Less(s[0], c) then [c] + s
    else
      var rest := InsertCard(c, s[1..]);
      ConsMultiset(s[0], s[1..]);
      ConsMultiset(s[0], rest);
      assert s[0..1] + s[1..] == s;
      [s[0]] + rest
  }

  lemma ConsMultiset(c: Card, s: seq<Card>)
    ensures multiset([c] + s) == multiset{c} + multiset(s)
  {
  }

  /** Python's stable `sorted` on cards, which compares with `Less`. */
  function SortCards(cs: seq<Card>): (r: seq<Card>)
    ensures multiset(r) == multiset(cs)
    ensures |r| == |cs|
  {
    if cs == [] then []
    else
      assert cs == [cs[0]] + cs[1..];
      InsertCard(cs[0], SortCards(cs[1..]))
  }

  /** Inserting a card moves its rank exactly as inserting the rank would. */
  lemma {:induction false} InsertCardRanks(c: Card, s: seq<Card>)
    ensures RanksOf(InsertCard(c, s)) == Insert(Rank(c), RanksOf(s))
  {
    if s == [] {
      RanksOfCons(c, s);
    } else {
      ComparisonsByRank(s[0], c);
      if !Less(s[0], c) {
        RanksOfCons(c, s);
      } else {
        InsertCardRanks(c, s[1..]);
        InsertCardRanksStep(c, s);
      }
    }
  }

  lemma InsertCardRanksStep(c: Card, s: seq<Card>)
    requires s != [] && Rank(s[0]) < Rank(c) && Less(s[0], c)
    requires RanksOf(InsertCard(c, s[1..])) == Insert(Rank(c), RanksOf(s[1..]))
    ensures RanksOf(InsertCard(c, s)) == Insert(Rank(c), RanksOf(s))
  {
    var tail := InsertCard(c, s[1..]);
    assert InsertCard(c, s) == [s[0]] + tail;
    RanksOfCons(s[0], tail);
    RanksOfTail(s);
    InsertStep(Rank(c), RanksOf(s));
  }

  lemma InsertStep(x: int, rs: seq<int>)
    requires rs != [] && rs[0] < x
    ensures Insert(x, rs) == [rs[0]] + Insert(x, rs[1..])
  {
  }

  lemma RanksOfTail(s: seq<Card>)
    requires s != []
    ensures RanksOf(s)[1..] == RanksOf(s[1..])
  {
  }

  /** Sorting the cards sorts their ranks: `sorted(cards)` read rank by
      rank is the ascending permutation of the hand's ranks. */
  lemma {:induction false} SortCardsRanks(cs: seq<Card>)
    ensures RanksOf(SortCards(cs)) == SortAsc(RanksOf(cs))
  {
    if cs != [] {
      assert cs == [cs[0]] + cs[1..];
      RanksOfCons(cs[0], cs[1..]);
      SortCardsRanks(cs[1..]);
      InsertCardRanks(cs[0], SortCards(cs[1..]));
    }
  }
}
