# Poker hand evaluator, in Dafny

A model of the five-card poker evaluator in `054.py`. It covers:

- card values and their order;
- cards that compare by value and ignore the suit;
- a hand's category (`Hand.calc_rank` and its helper predicates);
- the grouping of a hand's cards by value (`group_by_type`);
- the comparison `Hand.__gt__` with its per-category tie-break rules.

The modules follow the program's classes:

| module | models |
|---|---|
| `Values` | `Value`: the 13 symbols `2`…`A`, and `==`/`<` by position in `Value.ordering` |
| `Cards` | `Card`: a value and a suit, compared by value; Python's `sorted` on cards |
| `Hands` | `Hand`'s categories and `calc_rank` with its helpers, `group_by_type`, and the bucket filters `[... for t in Value.ordering if len(grouped[t]) == n]` |
| `Showdown` | `Hand.__gt__` and `Hand.__eq__` |
| `Scenarios` | worked hands: the wheel, a royal flush, quads against a full house, a one-pair kicker battle, equal quads |
| `Sequences` | list helpers: counting, removing, sorting, maximum and minimum, with their properties |

Representation:

- A value is its symbol. Its rank index (`Values.Strength`) is its position in the ordering list, from 0 for `2` to 12 for `A`.
- A hand is a sequence of exactly five cards.
- The category is an integer 1 (`HIGH_CARD`) … 10 (`ROYAL_FLUSH`), with the source's constants.
- `calc_rank` is split into two parts. `SignalsOf` computes all seven helper answers up front. `Classify` is the `if`/`elif` chain over them. The source evaluates some helpers lazily, through the `and` and `elif` short-circuits. The helpers are pure, so computing them all first gives the same category.
- `group_by_type` returns 13 buckets, one per rank index, each holding the hand's cards of that value in hand order.

`__gt__` answers with a `Verdict`:

| `Verdict` | source outcome |
|---|---|
| `Stronger` | `True` |
| `NotStronger` | `False` |
| `Ambiguous` | `AmbiguousWinnerError` is raised |
| `Crash(f)` | another exception is raised: `IndexError`, `ValueError`, `TypeError` or `UnknownRankError` |

`Hand.__eq__` is `false` for every pair of hands.

## Where the code departs from the usual poker rules

The model follows the code in every case below.

- **Straight flushes:** two straight flushes with the same top card give `False` (`NotStronger`), not an ambiguous-winner signal (054.py:138-139).
- **Four of a kind:** two hands with equal quads give `False` both ways, not `AmbiguousWinnerError` (054.py:140-143).
- **Full house:** two hands with equal triples and equal pairs give `False` (054.py:144-154).
- **Flush:** both sides of the zip iterate `self.cards`, so a flush never beats another flush. It always ends in `AmbiguousWinnerError` (054.py:155-163).
- **Straight:** subscripting a `reversed` iterator raises `TypeError`, so every straight against straight raises (054.py:164-167).
- **Three of a kind:** with equal triples, the kicker filter `!= 3` also keeps the empty buckets. `[0]` of an empty bucket then raises `IndexError` (054.py:175-176).
- **The wheel:** `A 2 3 4 5` is not a straight, because the ace only counts high (054.py:238-243).

## Model

| member | source | states |
|---|---|---|
| Values.Strength | 054.py:15-16 | a value's rank index is the position of its symbol in the 13-symbol ordering list |
| Values.Eq | 054.py:12-13 | two values are equal exactly when their rank indices are equal |
| Values.LessIsStrictTotalOrder | 054.py:15-16 | `<` on values is irreflexive, transitive, asymmetric and total on distinct values |
| Values.LessMatchesOrdering | 054.py:6-16 | the value at position i is below the value at position j exactly when i < j |
| Values.GreaterIsConverse | 054.py:4-16 | the `>` that `total_ordering` derives holds exactly when the converse `<` holds |
| Values.FacesAscend | 054.py:6-7 | T < J < Q < K < A, the ace is above the two, and `2`, `T`, `A` have rank indices 0, 8 and 12 |
| Values.FacesAreTopRanks | 054.py:6-7 | the k-th face symbol sits at position 8 + k of the ordering, so the faces are the five highest values |
| Cards.Eq | 054.py:30-31 | two cards are equal exactly when their ranks are equal, whatever their suits |
| Cards.SuitBlind | 054.py:30-34 | cards of one value are equal, and neither is below or above the other, whatever their suits |
| Cards.ComparisonsByRank | 054.py:30-34 | card `<`, derived `>` and `==` are exactly `<`, `>` and `==` on rank indices |
| Cards.SortCardsRanks | 054.py:239 | `sorted(cards)`, read rank by rank, is the ascending sort of the hand's ranks |
| Hands.GroupByType | 054.py:115-122 | 13 buckets; bucket t holds as many cards as the hand has of rank t, every one of rank t, all drawn from the hand |
| Hands.Sized | 054.py:141 | the ranks whose bucket holds exactly n cards, each listed once, in ascending order |
| Hands.SizedCounts | 054.py:245-248 | a rank is among the size-n buckets exactly when the hand holds n cards of it |
| Hands.AllSameSuitIff | 054.py:235-236 | `_all_same_suit` holds exactly when every card has the suit of the first |
| Hands.ConsecutiveIffRun | 054.py:238-243 | `_cards_consecutive` holds exactly when the ranks are five consecutive indices lo … lo+4 with lo ≤ 8 |
| Hands.RepeatedRankNotConsecutive | 054.py:238-243 | a hand with two cards of one rank is never consecutive |
| Hands.WheelNotConsecutive | 054.py:238-243 | ranks A 2 3 4 5 are not consecutive: the ace never counts low |
| Hands.HasAllFacesIffRun | 054.py:94 | all five faces appear exactly when the ranks are T J Q K A |
| Hands.RoyalFlushIff | 054.py:94-95 | the category is royal flush exactly when the hand is suited and its ranks are T J Q K A |
| Hands.StraightFlushPattern | 054.py:96-97 | a suited run starting below T is a straight flush |
| Hands.StraightFlushRun | 054.py:96-97 | every straight flush is of one suit and a run of five ranks starting below T |
| Hands.StraightFlushIff | 054.py:96-97 | the category is straight flush exactly when the hand is suited and its ranks are five consecutive indices starting below T |
| Hands.FourOfKindIff | 054.py:98-99 | the category is four of a kind exactly when some rank occurs four times |
| Hands.FullHouseIff | 054.py:100-101 | the category is full house exactly when one rank occurs three times and another twice |
| Hands.FlushIff | 054.py:102-103 | the category is flush exactly when the hand is suited and not consecutive, and has neither four of a rank nor a triple beside a pair; a suited pair, two pairs or triple is still a flush |
| Hands.StraightPattern | 054.py:104-105 | an unsuited run of five ranks is a straight, whatever its top card |
| Hands.StraightIff | 054.py:104-105 | the category is straight exactly when the hand is unsuited and its ranks are five consecutive indices lo … lo+4 with lo ≤ 8 |
| Hands.ThreeOfKindPattern | 054.py:106-107 | an unsuited hand with a triple and two different other ranks is three of a kind |
| Hands.ThreeOfKindIff | 054.py:106-107 | the category is three of a kind exactly when the hand is unsuited, some rank occurs three times and no rank occurs twice |
| Hands.TwoPairsPattern | 054.py:108-109 | an unsuited hand with two pairs and a fifth card of a third rank is two pairs |
| Hands.TwoPairsKeys | 054.py:250-256 | every two-pairs hand is unsuited and has two distinct pair ranks and a single fifth rank |
| Hands.TwoPairsIff | 054.py:108-109 | the category is two pairs exactly when the hand is unsuited and two ranks occur twice each beside a third rank occurring once |
| Hands.OnePairPattern | 054.py:110-111 | an unsuited hand with one pair and three other distinct ranks is one pair |
| Hands.OnePairIff | 054.py:110-111 | the category is one pair exactly when the hand is unsuited, some rank occurs twice and every other rank at most once |
| Hands.OnePairGroups | 054.py:206-213 | in a one-pair hand the size-2 buckets are that pair alone, and the singletons are the other three ranks |
| Hands.HighCardIff | 054.py:112-113 | the category is high card exactly when the hand is unsuited, not consecutive, and has no repeated rank (or all five cards share one rank) |
| Showdown.ZipCompareLex | 054.py:158-163 | the zip loop answers `True` exactly when the first side wins at the first difference, `False` exactly when the other side does, and raises exactly when the lists agree on their common length |
| Showdown.ZipCompareConverse | 054.py:214-219 | swapping the two lists swaps `True` and `False` and keeps the ambiguous outcome |
| Showdown.ZipCompareEqualLength | 054.py:223-228 | for lists of equal length the loop raises exactly when the lists are equal |
| Showdown.CategoryPrecedence | 054.py:128-131 | between different categories the higher one wins and the lower one loses, in both directions |
| Showdown.FourOfKindBeatsFullHouse | 054.py:98-131 | four of a kind beats a full house, and the full house loses to it |
| Showdown.FixedOutcomes | 054.py:136-167 | two royal flushes and two flushes always raise `AmbiguousWinnerError`; two straights always raise `TypeError` |
| Showdown.StraightFlushOrder | 054.py:138-139 | straight flushes compare by their top ranks; equal tops give `False` |
| Showdown.FourOfKindOrder | 054.py:140-143 | quads compare by the quad rank; equal quads give `False` |
| Showdown.FullHouseOrder | 054.py:144-154 | full houses compare by triple rank, then pair rank; equal triple and pair give `False` |
| Showdown.ThreeOfKindOrder | 054.py:168-185 | three of a kind compares by the triple rank; equal triples raise `IndexError` |
| Showdown.KickersCrash | 054.py:175-176 | the kicker list over buckets not of size three always reaches an empty bucket |
| Showdown.TwoPairsOrder | 054.py:186-204 | two pairs compare lexicographically by higher pair, lower pair, fifth card; all equal raises `AmbiguousWinnerError` |
| Showdown.OnePairOrder | 054.py:205-219 | one pair compares lexicographically by the pair rank, then the other three ranks from the highest down |
| Showdown.DescendingRanksSorted | 054.py:221-222 | `sorted(cards, reverse=True)`, read rank by rank, is the descending sort of the ranks |
| Showdown.HighCardOrder | 054.py:220-228 | high cards compare lexicographically by descending ranks; the result is ambiguous exactly when the rank multisets agree, and `True` one way exactly when `False` the other way |
| Showdown.CrashesOnlyOnStraightsAndTriples | 054.py:127-230 | `__gt__` raises something other than `AmbiguousWinnerError` only between two straights or two three-of-a-kinds, and what it raises is `TypeError` or `IndexError`; `ValueError` and `UnknownRankError` are never reached |
| Scenarios.WheelIsHighCard | 054.py:89-113 | A 2 3 4 5 not all of one suit is a high card, whichever of its cards share a suit |
| Scenarios.RoyalExample | 054.py:94-95 | T J Q K A of one suit is a royal flush |
| Scenarios.QuadsBeatFullHouseExample | 054.py:128-131 | four twos beat three aces with two kings |
| Scenarios.OnePairKickerExample | 054.py:205-219 | nines with A K 2 beat nines with A Q 3 at the second kicker |
| Scenarios.EqualQuadsExample | 054.py:140-143 | four sevens with a two and four sevens with a three: `False` in both directions |

## Left out

- The driver loop (054.py:259-270) is left out. It reads `054_poker.txt`, builds the two hands of each line and counts player 1's wins; that is file I/O.
- Parsing a card from its two-character string (054.py:26-28) is left out. Cards are built directly from a value and a suit.
- `Cards.Card`: the suit is restricted to `H`, `S`, `C`, `D`. The source stores any character, which could only make `_all_same_suit` false; the value symbol is likewise restricted to the ordering list, where an unknown symbol would make `ordering.index` raise.
- `__str__` and `rank_name` (054.py:18-19, 36-37, 65-87, 232-233) are left out. They produce text only and take no part in ranking or comparison.
- The `<`, `<=` and `>=` that `functools.total_ordering` derives for `Hand` are left out. The source never uses them; only `__gt__` and `__eq__` are modelled.
- Exceptions are not raised. Each one becomes a `Verdict` value, and a hand that is not five cards is outside the model.
- `Showdown.Gt` (054.py:127-230) has no contract of its own. Its behaviour is stated by `CategoryPrecedence`, the per-category `*Order` lemmas, `FixedOutcomes` and `CrashesOnlyOnStraightsAndTriples` above.
- `Showdown.HandEq` (054.py:124-125) is the constant `false`, with no contract: there is nothing to state beyond the body.
- `Hands.CalcRank`: its own contract states only the range 1…10. What each category means is stated by the `*Iff` and `*Pattern` lemmas above.
