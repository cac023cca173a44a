/**
 * Cards, the 52-card deck, the shuffle and the blackjack hand value
 * (`createDeck`, `shuffleDeck` and `calculateHandValue` of the blackjack engine).
 */
module Cards {

  datatype Suit = Hearts | Diamonds | Clubs | Spades

  datatype Rank = Ace | Two | Three | Four | Five | Six | Seven | Eight | Nine | Ten | Jack | Queen | King

  /** A playing card, or the `{ hidden: true }` placeholder a masked view shows in place of the hole card. */
  datatype Card = Card(suit: Suit, rank: Rank) | Hidden

  /** The suits and ranks in the order the deck is built. */
  const Suits: seq<Suit> := [Hearts, Diamonds, Clubs, Spades]
  const Ranks: seq<Rank> := [Ace, Two, Three, Four, Five, Six, Seven, Eight, Nine, Ten, Jack, Queen, King]

  predicate Distinct<T(==)>(s: seq<T>) {
    forall i, j :: 0 <= i < j < |s| ==> s[i] != s[j]
  }

  /** No card of `x` occurs in `y`. */
  predicate Disjoint(x: seq<Card>, y: seq<Card>) {
    forall c :: c in x ==> c !in y
  }

  /** Every card is a real card (no hidden placeholder). */
  predicate RealCards(cards: seq<Card>) {
    forall c :: c in cards ==> c.Card?
  }

  // ---------------------------------------------------------------- the deck

  /** The cards of one suit, one per rank, in the order of `ranks`. */
  function SuitRow(suit: Suit, ranks: seq<Rank>): (row: seq<Card>)
    ensures |row| == |ranks|
  {
    if ranks == [] then [] else SuitRow(suit, ranks[..|ranks| - 1]) + [Card(suit, ranks[|ranks| - 1])]
  }

  /** One row per suit, suit after suit, as the nested loops of `createDeck` push them. */
  function DeckOf(suits: seq<Suit>, ranks: seq<Rank>): seq<Card> {
    if suits == [] then [] else DeckOf(suits[..|suits| - 1], ranks) + SuitRow(suits[|suits| - 1], ranks)
  }

  lemma {:induction false} SuitRowMembers(suit: Suit, ranks: seq<Rank>)
    ensures forall c :: c in SuitRow(suit, ranks) <==> c.Card? && c.suit == suit && c.rank in ranks
  {
    if ranks != [] {
      var n := |ranks| - 1;
      SuitRowMembers(suit, ranks[..n]);
      assert ranks == ranks[..n] + [ranks[n]];
    }
  }

  /** The deck holds exactly the cards whose suit and rank are listed. */
  lemma {:induction false} DeckOfMembers(suits: seq<Suit>, ranks: seq<Rank>)
    ensures forall c :: c in DeckOf(suits, ranks) <==> c.Card? && c.suit in suits && c.rank in ranks
  {
    if suits != [] {
      var n := |suits| - 1;
      DeckOfMembers(suits[..n], ranks);
      SuitRowMembers(suits[n], ranks);
      assert suits == suits[..n] + [suits[n]];
    }
  }


  lemma {:induction false} DeckOfLength(suits: seq<Suit>)
    ensures |DeckOf(suits, Ranks)| == 13 * |suits|
  {
    if suits != [] {
      DeckOfLength(suits[..|suits| - 1]);
    }
  }

  lemma DistinctConcat(a: seq<Card>, b: seq<Card>)
    requires Distinct(a) && Distinct(b) && Disjoint(a, b)
    ensures Distinct(a + b)
  {
    forall i, j | 0 <= i < j < |a + b| ensures (a + b)[i] != (a + b)[j] {
      if j < |a| {
      } else if i >= |a| {
        assert (a + b)[i] == b[i - |a|] && (a + b)[j] == b[j - |a|];
      } else {
        assert (a + b)[i] == a[i] && a[i] in a;
        assert (a + b)[j] == b[j - |a|] && b[j - |a|] in b;
      }
    }
  }

  lemma {:induction false} SuitRowDistinct(suit: Suit, ranks: seq<Rank>)
    requires Distinct(ranks)
    ensures Distinct(SuitRow(suit, ranks))
  {
    if ranks != [] {
      var n := |ranks| - 1;
      assert Distinct(ranks[..n]);
      SuitRowDistinct(suit, ranks[..n]);
      SuitRowMembers(suit, ranks[..n]);
      assert ranks[n] !in ranks[..n];
      DistinctConcat(SuitRow(suit, ranks[..n]), [Card(suit, ranks[n])]);
    }
  }

  lemma {:induction false} DeckOfDistinct(suits: seq<Suit>, ranks: seq<Rank>)
    requires Distinct(suits) && Distinct(ranks)
    ensures Distinct(DeckOf(suits, ranks))
  {
    if suits != [] {
      var n := |suits| - 1;
      assert Distinct(suits[..n]);
      DeckOfDistinct(suits[..n], ranks);
      SuitRowDistinct(suits[n], ranks);
      DeckOfMembers(suits[..n], ranks);
      SuitRowMembers(suits[n], ranks);
      assert suits[n] !in suits[..n];
      DistinctConcat(DeckOf(suits[..n], ranks), SuitRow(suits[n], ranks));
    }
  }

  /** The position of a rank in `Ranks`. */
  function RankIndex(r: Rank): nat {
    match r
    case Ace => 0 case Two => 1 case Three => 2 case Four => 3 case Five => 4 case Six => 5
    case Seven => 6 case Eight => 7 case Nine => 8 case Ten => 9 case Jack => 10 case Queen => 11
    case King => 12
  }

  function SuitIndex(s: Suit): nat {
    match s
    case Hearts => 0 case Diamonds => 1 case Clubs => 2 case Spades => 3
  }

  lemma SuitsAndRanksDistinct()
    ensures Distinct(Suits) && Distinct(Ranks)
  {
    assert forall i :: 0 <= i < |Ranks| ==> RankIndex(Ranks[i]) == i;
    assert forall i :: 0 <= i < |Suits| ==> SuitIndex(Suits[i]) == i;
  }

  lemma EverySuitAndRankListed(c: Card)
    requires c.Card?
    ensures c.suit in Suits && c.rank in Ranks
  {
    match c.suit {
      case Hearts => case Diamonds => case Clubs => case Spades =>
    }
    match c.rank {
      case Ace => case Two => case Three => case Four => case Five => case Six => case Seven =>
      case Eight => case Nine => case Ten => case Jack => case Queen => case King =>
    }
  }

  /** The standard deck: exactly the 52 suit-by-rank cards, pairwise distinct, with no placeholder. */
  function FullDeck(): (deck: seq<Card>)
    ensures |deck| == 52 && Distinct(deck) && RealCards(deck)
    ensures forall c :: c in deck <==> c.Card?
  {
    DeckOfLength(Suits);
    SuitsAndRanksDistinct();
    DeckOfDistinct(Suits, Ranks);
    DeckOfMembers(Suits, Ranks);
    forall c: Card | c.Card? ensures c.suit in Suits && c.rank in Ranks {
      EverySuitAndRankListed(c);
    }
    DeckOf(Suits, Ranks)
  }

  /** `createDeck`: for each suit, for each rank, push the card. */
  method CreateDeck() returns (deck: seq<Card>)
    ensures deck == FullDeck()
  {
    deck := PushSuits(Suits);
  }

  /** The outer loop of `createDeck`: one row per suit, suit after suit. */
  method PushSuits(suits: seq<Suit>) returns (deck: seq<Card>)
    ensures deck == DeckOf(suits, Ranks)
  {
    deck := [];
    for s := 0 to |suits|
      invariant deck == DeckOf(suits[..s], Ranks)
    {
      assert suits[..s + 1][..s] == suits[..s];
      deck := PushRanks(deck, suits[s]);
    }
    assert suits[..|suits|] == suits;
  }

  /** The inner loop of `createDeck`: one card per rank of the suit, pushed in rank order. */
  method PushRanks(deck: seq<Card>, suit: Suit) returns (pushed: seq<Card>)
    ensures pushed == deck + SuitRow(suit, Ranks)
  {
    pushed := deck;
    for r := 0 to |Ranks|
      invariant pushed == deck + SuitRow(suit, Ranks[..r])
    {
      assert Ranks[..r + 1][..r] == Ranks[..r];
      pushed := pushed + [Card(suit, Ranks[r])];
    }
    assert Ranks[..|Ranks|] == Ranks;
  }

  // ---------------------------------------------------------------- the shuffle

  function Swap(s: seq<Card>, i: nat, j: nat): (r: seq<Card>)
    requires i < |s| && j < |s|
    ensures |r| == |s|
    ensures r[i] == s[j] && r[j] == s[i]
    ensures forall k :: 0 <= k < |s| && k != i && k != j ==> r[k] == s[k]
  {
    s[i := s[j]][j := s[i]]
  }

  /** A swap moves cards and neither adds nor loses any. */
  lemma SwapPermutes(s: seq<Card>, i: nat, j: nat)
    requires i < |s| && j < |s|
    ensures multiset(Swap(s, i, j)) == multiset(s)
  {
  }

  /**
   * The Fisher-Yates passes of `shuffleDeck` for positions `i` down to 1: position `i` is swapped
   * with position `picks[i] % (i + 1)`.  `picks` stands for the values `Math.random` produced;
   * reducing them modulo `i + 1` reaches every index `0..i`, as `Math.floor(Math.random() * (i + 1))` does.
   */
  function ShuffleFrom(s: seq<Card>, picks: seq<nat>, i: int): (r: seq<Card>)
    requires i < |s| && |picks| == |s|
    ensures |r| == |s|
    decreases i
  {
    if i <= 0 then s
    else ShuffleFrom(Swap(s, i, picks[i] % (i + 1)), picks, i - 1)
  }

  function Shuffle(deck: seq<Card>, picks: seq<nat>): (r: seq<Card>)
    requires |picks| == |deck|
    ensures |r| == |deck| && multiset(r) == multiset(deck)
  {
    ShufflePermutes(deck, picks, |deck| - 1);
    ShuffleFrom(deck, picks, |deck| - 1)
  }

  /** Whatever the picks, the passes only rearrange the cards. */
  lemma {:induction false} ShufflePermutes(s: seq<Card>, picks: seq<nat>, i: int)
    requires i < |s| && |picks| == |s|
    ensures multiset(ShuffleFrom(s, picks, i)) == multiset(s)
    decreases i
  {
    if i > 0 {
      var j := picks[i] % (i + 1);
      SwapPermutes(s, i, j);
      ShufflePermutes(Swap(s, i, j), picks, i - 1);
    }
  }

  /** The spread copy `[...deck]` that `shuffleDeck` works on. */
  method CopyToArray(deck: seq<Card>) returns (a: array<Card>)
    ensures fresh(a) && a[..] == deck
  {
    a := new Card[|deck|];
    for k := 0 to |deck|
      invariant a[..k] == deck[..k]
    {
      a[k] := deck[k];
    }
  }

  /** `shuffleDeck`: copy the deck into an array and swap in place from the top down. */
  method ShuffleDeck(deck: seq<Card>, picks: seq<nat>) returns (shuffled: seq<Card>)
    requires |picks| == |deck|
    ensures shuffled == Shuffle(deck, picks)
  {
    var a := CopyToArray(deck);
    var i := |deck| - 1;
    while i > 0
      invariant -1 <= i < a.Length == |deck|
      invariant ShuffleFrom(a[..], picks, i) == Shuffle(deck, picks)
    {
      var j := picks[i] % (i + 1);
      ghost var before := a[..];
      a[i], a[j] := a[j], a[i];
      assert a[..] == Swap(before, i, j);
      i := i - 1;
    }
    shuffled := a[..];
  }

  lemma {:induction false} DistinctCount(s: seq<Card>, x: Card)
    requires Distinct(s)
    ensures multiset(s)[x] <= 1
  {
    if s != [] {
      var n := |s| - 1;
      assert s == s[..n] + [s[n]];
      assert Distinct(s[..n]);
      DistinctCount(s[..n], x);
      assert s[n] !in s[..n];
    }
  }

  lemma RepeatCount(s: seq<Card>, i: nat, j: nat)
    requires i < j < |s| && s[i] == s[j]
    ensures multiset(s)[s[i]] >= 2
  {
    assert s == s[..j] + [s[j]] + s[j + 1..];
    assert s[i] in s[..j];
  }

  /** A permutation of a deck without repeats has no repeats. */
  lemma PermutationKeepsDistinct(a: seq<Card>, b: seq<Card>)
    requires multiset(a) == multiset(b) && Distinct(a)
    ensures Distinct(b)
  {
    forall i, j | 0 <= i < j < |b| ensures b[i] != b[j] {
      if b[i] == b[j] {
        RepeatCount(b, i, j);
        DistinctCount(a, b[i]);
        assert false;
      }
    }
  }

  lemma PermutationKeepsReal(a: seq<Card>, b: seq<Card>)
    requires multiset(a) == multiset(b) && RealCards(a)
    ensures RealCards(b)
  {
    forall c | c in b ensures c.Card? {
      assert c in multiset(b);
    }
  }

  /** A shuffled full deck still holds 52 distinct real cards. */
  lemma ShuffledDeckFacts(picks: seq<nat>)
    requires |picks| == 52
    ensures |Shuffle(FullDeck(), picks)| == 52
    ensures Distinct(Shuffle(FullDeck(), picks))
    ensures RealCards(Shuffle(FullDeck(), picks))
    ensures multiset(Shuffle(FullDeck(), picks)) == multiset(FullDeck())
  {
    ShufflePermutes(FullDeck(), picks, 51);
    PermutationKeepsDistinct(FullDeck(), Shuffle(FullDeck(), picks));
    PermutationKeepsReal(FullDeck(), Shuffle(FullDeck(), picks));
  }

  // ---------------------------------------------------------------- hand value

  /** The face value `parseInt` reads from a numeral rank. */
  function PipValue(r: Rank): nat
    requires r !in {Ace, Jack, Queen, King}
  {
    match r
    case Two => 2 case Three => 3 case Four => 4 case Five => 5 case Six => 6
    case Seven => 7 case Eight => 8 case Nine => 9 case Ten => 10
  }

  /** Points with an ace counted as 11; the hidden placeholder counts nothing. */
  function SoftPoints(c: Card): nat {
    if c.Hidden? then 0
    else if c.rank == Ace then 11
    else if c.rank in {King, Queen, Jack} then 10
    else PipValue(c.rank)
  }

  /** Points with an ace counted as 1. */
  function HardPoints(c: Card): nat {
    if c.Card? && c.rank == Ace then 1 else SoftPoints(c)
  }

  function SoftTotal(cards: seq<Card>): nat {
    if cards == [] then 0 else SoftTotal(cards[..|cards| - 1]) + SoftPoints(cards[|cards| - 1])
  }

  function HardTotal(cards: seq<Card>): nat {
    if cards == [] then 0 else HardTotal(cards[..|cards| - 1]) + HardPoints(cards[|cards| - 1])
  }

  function AceCount(cards: seq<Card>): nat {
    if cards == [] then 0
    else AceCount(cards[..|cards| - 1]) + (if cards[|cards| - 1] == Hidden || cards[|cards| - 1].rank != Ace then 0 else 1)
  }

  lemma {:induction false} SoftIsHardPlusAces(cards: seq<Card>)
    ensures SoftTotal(cards) == HardTotal(cards) + 10 * AceCount(cards)
  {
    if cards != [] {
      SoftIsHardPlusAces(cards[..|cards| - 1]);
    }
  }

  function Min(a: int, b: int): int {
    if a <= b then a else b
  }

  /**
   * The blackjack value of a hand: every ace counts 1, and then as many aces as keep the total at
   * or under 21 count 10 more each.  When even the all-low total exceeds 21 that total is the value.
   */
  function HandValue(cards: seq<Card>): (v: nat)
    ensures HardTotal(cards) <= v <= HardTotal(cards) + 10 * AceCount(cards)
    ensures v <= 21 || v == HardTotal(cards)
  {
    var hard := HardTotal(cards);
    if hard > 21 then hard else hard + 10 * Min(AceCount(cards), (21 - hard) / 10)
  }

  /**
   * The value is the all-low total plus 10 for some number of aces, it is at most 21 unless every
   * ace already counts 1, and no other choice of high aces gives a larger total at or under 21.
   */
  lemma HandValueCharacterised(cards: seq<Card>)
    ensures var v, hard, aces := HandValue(cards), HardTotal(cards), AceCount(cards);
      && (exists k :: 0 <= k <= aces && v == hard + 10 * k)
      && (v <= 21 || v == hard)
      && forall k :: 0 <= k <= aces && hard + 10 * k <= 21 ==> hard + 10 * k <= v
  {
    var hard, aces := HardTotal(cards), AceCount(cards);
    if hard <= 21 {
      var room := (21 - hard) / 10;
      assert 10 * room <= 21 - hard < 10 * room + 10;
      var m := Min(aces, room);
      assert HandValue(cards) == hard + 10 * m && 0 <= m <= aces;
      forall k | 0 <= k <= aces && hard + 10 * k <= 21 ensures hard + 10 * k <= hard + 10 * m {
        assert k <= room;
      }
    } else {
      assert HandValue(cards) == hard + 10 * 0;
    }
  }

  /** `calculateHandValue`: sum with aces as 11, then soften one ace at a time while over 21. */
  method CalculateHandValue(cards: seq<Card>) returns (value: int)
    ensures value == HandValue(cards)
  {
    value := 0;
    var aces := 0;
    for i := 0 to |cards|
      invariant value == SoftTotal(cards[..i]) && aces == AceCount(cards[..i])
    {
      assert cards[..i + 1][..i] == cards[..i];
      var card := cards[i];
      if card.Hidden? {
        continue;
      }
      if card.rank == Ace {
        aces := aces + 1;
        value := value + 11;
      } else if card.rank in {King, Queen, Jack} {
        value := value + 10;
      } else {
        value := value + PipValue(card.rank);
      }
    }
    assert cards[..|cards|] == cards;
    SoftIsHardPlusAces(cards);
    while value > 21 && aces > 0
      invariant 0 <= aces <= AceCount(cards)
      invariant value == HardTotal(cards) + 10 * aces
      invariant aces < AceCount(cards) ==> value > 11
    {
      value := value - 10;
      aces := aces - 1;
    }
  }

  /** Scenario: an ace with a king is 21. */
  lemma AceKingIsTwentyOne()
    ensures HandValue([Card(Spades, Ace), Card(Hearts, King)]) == 21
  {
    var h := [Card(Spades, Ace), Card(Hearts, King)];
    assert h[..1] == [Card(Spades, Ace)] && h[..1][..0] == [];
    assert HardTotal(h[..1]) == 1 && AceCount(h[..1]) == 1;
    assert HardTotal(h) == 11 && AceCount(h) == 1;
  }

  /** Scenario: two aces and a nine are 21 (one ace high, one low). */
  lemma TwoAcesNineIsTwentyOne()
    ensures HandValue([Card(Spades, Ace), Card(Hearts, Ace), Card(Clubs, Nine)]) == 21
  {
    var h := [Card(Spades, Ace), Card(Hearts, Ace), Card(Clubs, Nine)];
    assert h[..2] == [Card(Spades, Ace), Card(Hearts, Ace)];
    assert h[..2][..1] == [Card(Spades, Ace)] && h[..2][..1][..0] == [];
    assert HardTotal(h[..2][..1]) == 1 && AceCount(h[..2][..1]) == 1;
    assert HardTotal(h[..2]) == 2 && AceCount(h[..2]) == 2;
    assert HardTotal(h) == 11 && AceCount(h) == 2;
  }

  /** No card is worth more than ten points with its ace counted low. */
  lemma HardPointsAtMostTen(c: Card)
    ensures HardPoints(c) <= 10
  {
    if c.Card? && c.rank !in {Ace, Jack, Queen, King} {
      assert PipValue(c.rank) <= 10;
    }
  }

  /** Every real card adds at least one point to the all-low total. */
  lemma HardTotalGrows(cards: seq<Card>, c: Card)
    requires c.Card?
    ensures HardTotal(cards + [c]) >= HardTotal(cards) + 1
  {
    assert (cards + [c])[..|cards|] == cards;
  }
}
