// Cards and the 52-card deck of the Eight Cards Poker engine.

module Cards {
  import opened Permutations

  /** The thirteen ranks, lowest first, and the four suits, in deck order. */
  const RANKS: string := "23456789TJQKA"
  const SUITS: string := "cdhs"
  const DECK_SIZE: int := 52

  /** A card's rank is held as its position in RANKS and its suit as its position in
      SUITS; the letters the engine stores are RANKS[rank] and SUITS[suit]. */
  type RankIndex = i: int | 0 <= i < 13
  type SuitIndex = i: int | 0 <= i < 4

  /** A card is an immutable value; `id` is its position in the unshuffled deck. */
  datatype Card = Card(rank: RankIndex, suit: SuitIndex, id: int)

  /** The rank letter and suit letter of a card, as the engine stores and sends them. */
  function RankLetter(c: Card): char { RANKS[c.rank] }
  function SuitLetter(c: Card): char { SUITS[c.suit] }

  /** The numeric value of a rank: '2' is 2, ..., 'T' is 10, ..., 'A' is 14. */
  function RankValue(c: Card): (v: int)
    ensures 2 <= v <= 14 && RANKS[v - 2] == RankLetter(c)
  {
    c.rank + 2
  }

  /** The card that the unshuffled deck holds at position i: suits outermost, ranks innermost. */
  function DeckCard(i: int): (c: Card)
    requires 0 <= i < DECK_SIZE
    ensures c.id == i && RankLetter(c) == RANKS[i % 13] && SuitLetter(c) == SUITS[i / 13]
  {
    Card(i % 13, i / 13, i)
  }

  /** The unshuffled deck as a value. */
  function FullDeck(): (d: seq<Card>)
    ensures |d| == DECK_SIZE
    ensures forall i :: 0 <= i < DECK_SIZE ==> d[i] == DeckCard(i)
  {
    seq(DECK_SIZE, i requires 0 <= i < DECK_SIZE => DeckCard(i))
  }

  /** Builds the deck as the engine does: one suit after another, each in rank order,
      numbering the cards as they are appended. */
  method CreateDeck() returns (deck: seq<Card>)
    ensures |deck| == DECK_SIZE
    ensures forall i :: 0 <= i < DECK_SIZE ==> deck[i] == DeckCard(i)
  {
    deck := [];
    var cardId := 0;
    for s := 0 to |SUITS|
      invariant cardId == 13 * s == |deck|
      invariant forall i :: 0 <= i < |deck| ==> deck[i] == DeckCard(i)
    {
      for r := 0 to |RANKS|
        invariant cardId == 13 * s + r == |deck|
        invariant forall i :: 0 <= i < |deck| ==> deck[i] == DeckCard(i)
      {
        assert cardId % 13 == r && cardId / 13 == s;
        deck := deck + [Card(r, s, cardId)];
        cardId := cardId + 1;
      }
    }
  }

  /** No two cards of `cards` share an id. */
  predicate DistinctIds(cards: seq<Card>) {
    forall i, j :: 0 <= i < j < |cards| ==> cards[i].id != cards[j].id
  }

  /** The set of ids carried by `cards`. */
  function Ids(cards: seq<Card>): set<int> {
    set c | c in cards :: c.id
  }

  /** The deck after a shuffle: position i receives the card at position perm[i]. */
  function Shuffle(deck: seq<Card>, perm: seq<int>): (r: seq<Card>)
    requires forall i :: 0 <= i < |perm| ==> 0 <= perm[i] < |deck|
    ensures |r| == |perm|
    ensures forall i :: 0 <= i < |perm| ==> r[i] == deck[perm[i]]
  {
    seq(|perm|, i requires 0 <= i < |perm| => deck[perm[i]])
  }

  /** In a shuffled deck the card at position i is the card numbered perm[i]. */
  lemma ShuffledIds(perm: seq<int>)
    requires IsPermutation(perm, DECK_SIZE)
    ensures forall i :: 0 <= i < DECK_SIZE ==> Shuffle(FullDeck(), perm)[i].id == perm[i]
  {
  }

  /** A shuffled deck holds every card of the full deck exactly once. */
  lemma ShuffledDeck(perm: seq<int>)
    requires IsPermutation(perm, DECK_SIZE)
    ensures |Shuffle(FullDeck(), perm)| == DECK_SIZE
    ensures DistinctIds(Shuffle(FullDeck(), perm))
    ensures forall c :: c in FullDeck() ==> c in Shuffle(FullDeck(), perm)
    ensures forall k :: k in Ids(Shuffle(FullDeck(), perm)) <==> 0 <= k < DECK_SIZE
  {
    var full := FullDeck();
    var d := Shuffle(full, perm);
    ShuffledIds(perm);
    PermutationCovers(perm, DECK_SIZE);
    forall c | c in full
      ensures c in d
    {
      var k :| 0 <= k < DECK_SIZE && full[k] == c;
      assert k in Image(perm);
      var i :| 0 <= i < DECK_SIZE && perm[i] == k;
      assert d[i] == c;
    }
    forall k | 0 <= k < DECK_SIZE
      ensures k in Ids(d)
    {
      assert k in Image(perm);
      var i :| 0 <= i < DECK_SIZE && perm[i] == k;
      assert d[i] in d;
    }
    forall k | k in Ids(d)
      ensures 0 <= k < DECK_SIZE
    {
      var c :| c in d && c.id == k;
    }
  }
}
