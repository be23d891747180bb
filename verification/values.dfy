/** Card ranks ("values" in the source) and their poker order: a rank is
    stronger than another exactly when it stands later in the fixed
    sequence `2 3 4 5 6 7 8 9 T J Q K A`. */
module Values {
  import Sequences

  /** The rank symbols from weakest to strongest. */
  const Ordering: string := "23456789TJQKA"


  /** A well-formed rank symbol. */
  type Symbol = c: char | c in Ordering witness '2'

  /** The five ranks a royal flush must show. */
  const Faces: seq<Symbol> := "TJQKA"

  /** A card value; `symbol` is the source's `type` attribute. */
  datatype Value = Value(symbol: Symbol)

  /** Python's `list.index`: the position of the first occurrence of `c`. */
  function IndexIn(s: string, c: char): (i: nat)
    requires c in s
    ensures i < |s| && s[i] == c
    ensures forall j :: 0 <= j < i ==> s[j] != c
  {
    if s[0] == c then 0 else 1 + IndexIn(s[1..], c)
  }

  /** The strength of a value: its position in `Ordering`. */
  function Strength(v: Value): (i: nat)
    ensures i < |Ordering| && Ordering[i] == v.symbol
  {
    IndexIn(Ordering, v.symbol)
  }

  /** `Value.__eq__`: values are equal when their symbols are. */
  predicate Eq(a: Value, b: Value)
    ensures Eq(a, b) <==> Strength(a) == Strength(b)
  {
    a.symbol == b.symbol
  }

  /** `Value.__lt__`: comparison by position in `Ordering`. */
  predicate Less(a: Value, b: Value) {
    Strength(a) < Strength(b)
  }

  /** `>` as `functools.total_ordering` derives it from `__lt__` and `__eq__`. */
  predicate Greater(a: Value, b: Value) {
    !Less(a, b) && !Eq(a, b)
  }

  lemma OrderingIsDistinct()
    ensures Sequences.Distinct(Ordering)
  {
  }

  /** The value at position `i` of `Ordering` has strength `i`. */
  lemma {:induction false} StrengthOfPosition(i: nat)
    requires i < |Ordering|
    ensures Strength(Value(Ordering[i])) == i
  {
    OrderingIsDistinct();
  }

  /** `Less` is a strict total order on values. */
  lemma LessIsStrictTotalOrder()
    ensures forall a: Value :: !Less(a, a)
    ensures forall a: Value, b: Value, c: Value :: Less(a, b) && Less(b, c) ==> Less(a, c)
    ensures forall a: Value, b: Value :: a != b ==> Less(a, b) || Less(b, a)
    ensures forall a: Value, b: Value :: Less(a, b) ==> !Less(b, a)
  {
    forall a: Value, b: Value | a != b
      ensures Less(a, b) || Less(b, a)
    {
      assert Ordering[Strength(a)] != Ordering[Strength(b)];
    }
  }

  /** The order is exactly the order of positions in `Ordering`. */
  lemma {:induction false} LessMatchesOrdering(i: nat, j: nat)
    requires i < |Ordering| && j < |Ordering|
    ensures Less(Value(Ordering[i]), Value(Ordering[j])) <==> i < j
  {
    StrengthOfPosition(i);
    StrengthOfPosition(j);
  }

  /** The derived `>` is the converse of `<`. */
  lemma GreaterIsConverse(a: Value, b: Value)
    ensures Greater(a, b) <==> Less(b, a)
  {
  }

  /** The face cards are ordered as in poker, not as characters:
      T < J < Q < K < A and 2 < A. */
  lemma FacesAscend()
    ensures Less(Value('T'), Value('J')) && Less(Value('J'), Value('Q'))
    ensures Less(Value('Q'), Value('K')) && Less(Value('K'), Value('A'))
    ensures Less(Value('2'), Value('A'))
    ensures Strength(Value('2')) == 0 && Strength(Value('T')) == 8 && Strength(Value('A')) == 12
  {
    StrengthOfPosition(0);
    StrengthOfPosition(8);
    StrengthOfPosition(9);
    StrengthOfPosition(10);
    StrengthOfPosition(11);
    StrengthOfPosition(12);
  }

  /** Every face symbol is a rank symbol, at position 8 + its index in `Faces`. */
  lemma FacesAreTopRanks(k: nat)
    requires k < |Faces|
    ensures Ordering[8 + k] == Faces[k]
  {
  }
}
