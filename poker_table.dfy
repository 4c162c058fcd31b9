// The Eight Cards Poker table as values: players, boards, where a player's cards lie,
// board-type inference, placement validation, payouts and what each viewer is shown.

module PokerTable {
  import opened Cards
  import opened Evaluation
  import opened Options

  datatype Phase = Waiting | Betting | Placing | Showdown | Complete

  datatype BoardType = Pending | Plo | Nlhe | P1Plo | P2Plo | BothPlo

  /** A board: its letter, its type, the shared community cards and each player's side. */
  datatype Board = Board(id: char, kind: BoardType, community: seq<Card>, p1Cards: seq<Card>, p2Cards: seq<Card>)

  datatype Player = Player(id: int, name: string, sessionId: string, bankroll: int, bet: int, hand: seq<Card>, ready: bool)

  /** The three boards in the order the engine creates and visits them. */
  const BOARD_IDS: string := "ABC"
  const STARTING_BANKROLL: int := 1000
  /** Cards dealt to each player, community cards per board before and after the turn and river. */
  const HOLE_CARDS: int := 8
  const FLOP_CARDS: int := 3
  const MAX_SIDE: int := 4

  function EmptyBoard(id: char): Board {
    Board(id, Pending, [], [], [])
  }

  function FreshBoards(): (bs: seq<Board>)
    ensures |bs| == 3 && forall k :: 0 <= k < 3 ==> bs[k] == EmptyBoard(BOARD_IDS[k])
  {
    [EmptyBoard('A'), EmptyBoard('B'), EmptyBoard('C')]
  }

  /** A player's side of a board: player 1's cards for player 1, player 2's for anyone else. */
  function SideOf(b: Board, pid: int): seq<Card> {
    if pid == 1 then b.p1Cards else b.p2Cards
  }

  function WithSide(b: Board, pid: int, cards: seq<Card>): (r: Board)
    ensures SideOf(r, pid) == cards
    ensures r.id == b.id && r.kind == b.kind && r.community == b.community
    ensures forall q :: (q == 1) != (pid == 1) ==> SideOf(r, q) == SideOf(b, q)
  {
    if pid == 1 then b.(p1Cards := cards) else b.(p2Cards := cards)
  }

  // ---------------------------------------------------------------------------
  // Python-style slices and list operations

  /** `s[:n]`: the first n entries, or all of s when it is shorter. */
  function Take<T>(s: seq<T>, n: nat): (r: seq<T>)
    ensures |r| == if |s| < n then |s| else n
    ensures r == s[..|r|]
  {
    if |s| <= n then s else s[..n]
  }

  /** `s[n:]`: what follows the first n entries, or nothing when s is shorter. */
  function Drop<T>(s: seq<T>, n: nat): (r: seq<T>)
    ensures Take(s, n) + r == s
  {
    if |s| <= n then [] else s[n..]
  }

  /** `list.remove(c)`: drops the first occurrence of c. */
  function RemoveFirst(s: seq<Card>, c: Card): (r: seq<Card>)
    requires c in s
    ensures |r| == |s| - 1
    ensures multiset(r) == multiset(s) - multiset{c}
  {
    assert s == [s[0]] + s[1..];
    if s[0] == c then s[1..]
    else [s[0]] + RemoveFirst(s[1..], c)
  }

  /** What is removed is the occurrence at the first index holding c. */
  lemma {:induction false} RemoveFirstAt(s: seq<Card>, c: Card, i: nat)
    requires i < |s| && s[i] == c && c !in s[..i]
    ensures RemoveFirst(s, c) == s[..i] + s[i+1..]
  {
    if i > 0 {
      assert s[0] in s[..i];
      assert s[1..][..i-1] == s[1..i];
      assert s[..i] == [s[0]] + s[1..i];
      RemoveFirstAt(s[1..], c, i - 1);
      assert s[..i] == [s[0]] + s[1..][..i-1];
      assert s[i+1..] == s[1..][i..];
    }
  }

  /** The first card with the given id, if any. */
  function FirstWithId(cards: seq<Card>, id: int): (r: Option<Card>)
    ensures r.Some? ==> r.value in cards && r.value.id == id
    ensures r.None? <==> forall c :: c in cards ==> c.id != id
  {
    if cards == [] then None
    else if cards[0].id == id then Some(cards[0])
    else FirstWithId(cards[1..], id)
  }

  /** The card found is the one at the first index whose id matches. */
  lemma {:induction false} FirstWithIdAt(cards: seq<Card>, id: int, i: nat)
    requires i < |cards| && cards[i].id == id
    requires forall j :: 0 <= j < i ==> cards[j].id != id
    ensures FirstWithId(cards, id) == Some(cards[i])
  {
    if i > 0 {
      FirstWithIdAt(cards[1..], id, i - 1);
    }
  }

  lemma {:induction false} FirstWithIdAppend(a: seq<Card>, b: seq<Card>, id: int)
    ensures FirstWithId(a + b, id) == if FirstWithId(a, id).Some? then FirstWithId(a, id) else FirstWithId(b, id)
  {
    if a != [] {
      assert (a + b)[1..] == a[1..] + b;
      FirstWithIdAppend(a[1..], b, id);
    } else {
      assert a + b == b;
    }
  }

  // ---------------------------------------------------------------------------
  // Where a player's cards lie

  /** A place that holds some of one player's cards: the hand, or that player's side of board k. */
  datatype Slot = HandSlot | SideSlot(k: nat)

  /** The players and the boards together: everything a card move can change. */
  datatype Table = Table(players: map<int, Player>, boards: seq<Board>)

  predicate SlotExists(t: Table, s: Slot, pid: int) {
    match s
    case HandSlot => pid in t.players
    case SideSlot(k) => k < |t.boards|
  }

  /** The cards of player pid in slot s. */
  function SlotCards(t: Table, s: Slot, pid: int): seq<Card>
    requires SlotExists(t, s, pid)
  {
    match s
    case HandSlot => t.players[pid].hand
    case SideSlot(k) => SideOf(t.boards[k], pid)
  }

  /** The table with player pid's cards in slot s replaced. */
  function PutSlot(t: Table, s: Slot, pid: int, cards: seq<Card>): (r: Table)
    requires SlotExists(t, s, pid)
    ensures r.players.Keys == t.players.Keys && |r.boards| == |t.boards|
  {
    match s
    case HandSlot => t.(players := t.players[pid := t.players[pid].(hand := cards)])
    case SideSlot(k) => t.(boards := t.boards[k := WithSide(t.boards[k], pid, cards)])
  }

  /** Replacing one slot changes that slot only; every other slot of either player keeps its cards. */
  lemma PutSlotFrame(t: Table, s: Slot, pid: int, cards: seq<Card>, s2: Slot, q: int)
    requires pid in {1, 2} && q in {1, 2}
    requires SlotExists(t, s, pid) && SlotExists(t, s2, q)
    ensures SlotExists(PutSlot(t, s, pid, cards), s2, q)
    ensures SlotCards(PutSlot(t, s, pid, cards), s2, q) ==
      if s2 == s && q == pid then cards else SlotCards(t, s2, q)
  {
  }

  /** Board ids, types and community cards are untouched by slot updates. */
  lemma PutSlotKeepsBoards(t: Table, s: Slot, pid: int, cards: seq<Card>)
    requires SlotExists(t, s, pid)
    ensures forall k :: 0 <= k < |t.boards| ==>
      var b, b2 := t.boards[k], PutSlot(t, s, pid, cards).boards[k];
      b2.id == b.id && b2.kind == b.kind && b2.community == b.community
  {
  }

  /** No side of any board holds more than four of a player's cards. */
  predicate SidesFit(boards: seq<Board>) {
    forall k, pid :: 0 <= k < |boards| && pid in {1, 2} ==> |SideOf(boards[k], pid)| <= MAX_SIDE
  }

  /** Room for one more card: a hand is unbounded, a side takes at most four. */
  predicate Fits(t: Table, s: Slot, pid: int)
    requires SlotExists(t, s, pid)
  {
    s.HandSlot? || |SlotCards(t, s, pid)| < MAX_SIDE
  }

  /** The table after card c leaves player pid's slot s. */
  function TakeOut(t: Table, s: Slot, pid: int, c: Card): (r: Table)
    requires SlotExists(t, s, pid) && c in SlotCards(t, s, pid)
    ensures SlotExists(r, s, pid)
  {
    PutSlot(t, s, pid, RemoveFirst(SlotCards(t, s, pid), c))
  }

  /** The table after card c joins the end of player pid's slot s. */
  function PutIn(t: Table, s: Slot, pid: int, c: Card): (r: Table)
    requires SlotExists(t, s, pid)
    ensures SlotExists(r, s, pid)
  {
    PutSlot(t, s, pid, SlotCards(t, s, pid) + [c])
  }

  /** The table with its board types inferred afresh. */
  function Retype(t: Table): (r: Table)
    ensures r.players == t.players && |r.boards| == |t.boards|
  {
    t.(boards := Retyped(t.boards))
  }

  /** Both tables hold, slot by slot and for both players, the same cards (in any order). */
  ghost predicate SameHoldings(t: Table, u: Table) {
    && t.players.Keys == u.players.Keys && |t.boards| == |u.boards|
    && forall s: Slot, q :: q in {1, 2} && SlotExists(t, s, q) ==>
         multiset(SlotCards(t, s, q)) == multiset(SlotCards(u, s, q))
  }

  /** A move takes card c out of the source slot and puts it into the destination slot; every
      other slot of either player keeps its cards. When source and destination are the same slot
      the card only moves to the end. */
  lemma MoveHoldings(t: Table, pid: int, c: Card, src: Slot, dst: Slot, x: Slot, q: int)
    requires pid in {1, 2} && q in {1, 2}
    requires SlotExists(t, src, pid) && c in SlotCards(t, src, pid) && SlotExists(t, dst, pid)
    requires SlotExists(t, x, q)
    ensures var u := PutIn(TakeOut(t, src, pid, c), dst, pid, c);
      SlotExists(u, x, q) &&
      multiset(SlotCards(u, x, q)) + (if x == src && q == pid then multiset{c} else multiset{}) ==
      multiset(SlotCards(t, x, q)) + (if x == dst && q == pid then multiset{c} else multiset{})
  {
    var v := TakeOut(t, src, pid, c);
    PutSlotFrame(t, src, pid, RemoveFirst(SlotCards(t, src, pid), c), x, q);
    PutSlotFrame(t, src, pid, RemoveFirst(SlotCards(t, src, pid), c), dst, pid);
    PutSlotFrame(v, dst, pid, SlotCards(v, dst, pid) + [c], x, q);
  }

  /** Putting a card back where it was taken from keeps every slot's cards. */
  lemma RollbackKeepsHoldings(t: Table, pid: int, c: Card, src: Slot)
    requires pid in {1, 2}
    requires SlotExists(t, src, pid) && c in SlotCards(t, src, pid)
    ensures SameHoldings(t, PutIn(TakeOut(t, src, pid, c), src, pid, c))
  {
    var u := PutIn(TakeOut(t, src, pid, c), src, pid, c);
    forall x: Slot, q | q in {1, 2} && SlotExists(t, x, q)
      ensures multiset(SlotCards(t, x, q)) == multiset(SlotCards(u, x, q))
    {
      MoveHoldings(t, pid, c, src, src, x, q);
    }
  }

  /** Putting a card back where it was taken from keeps every board's type. */
  lemma RollbackKeepsKinds(t: Table, pid: int, c: Card, src: Slot)
    requires SlotExists(t, src, pid) && c in SlotCards(t, src, pid)
    ensures var u := PutIn(TakeOut(t, src, pid, c), src, pid, c);
      |u.boards| == |t.boards| && forall k :: 0 <= k < |u.boards| ==> u.boards[k].kind == t.boards[k].kind
  {
    var v := TakeOut(t, src, pid, c);
    PutSlotKeepsBoards(t, src, pid, RemoveFirst(SlotCards(t, src, pid), c));
    PutSlotKeepsBoards(v, src, pid, SlotCards(v, src, pid) + [c]);
  }

  /** Inferring board types leaves every player's cards where they are. */
  lemma RetypeKeepsSlots(t: Table, s: Slot, q: int)
    requires SlotExists(t, s, q)
    ensures SlotExists(Retype(t), s, q) && SlotCards(Retype(t), s, q) == SlotCards(t, s, q)
  {
  }

  lemma RetypeKeepsSidesFit(t: Table)
    requires SidesFit(t.boards)
    ensures SidesFit(Retype(t).boards)
  {
    assert forall k, q :: 0 <= k < |t.boards| && q in {1, 2} ==>
      SideOf(Retype(t).boards[k], q) == SideOf(t.boards[k], q);
  }

  /** Taking a card out keeps every side within four cards. */
  lemma TakeOutKeepsSidesFit(t: Table, pid: int, c: Card, src: Slot)
    requires pid in {1, 2} && SidesFit(t.boards)
    requires SlotExists(t, src, pid) && c in SlotCards(t, src, pid)
    ensures SidesFit(TakeOut(t, src, pid, c).boards)
  {
    var v := TakeOut(t, src, pid, c);
    forall k, q | 0 <= k < |v.boards| && q in {1, 2}
      ensures |SideOf(v.boards[k], q)| <= MAX_SIDE
    {
      PutSlotFrame(t, src, pid, RemoveFirst(SlotCards(t, src, pid), c), SideSlot(k), q);
    }
  }

  /** Adding a card where it fits keeps every side within four cards. */
  lemma PutInKeepsSidesFit(t: Table, pid: int, c: Card, dst: Slot)
    requires pid in {1, 2} && SidesFit(t.boards)
    requires SlotExists(t, dst, pid) && Fits(t, dst, pid)
    ensures SidesFit(PutIn(t, dst, pid, c).boards)
  {
    var v := PutIn(t, dst, pid, c);
    forall k, q | 0 <= k < |v.boards| && q in {1, 2}
      ensures |SideOf(v.boards[k], q)| <= MAX_SIDE
    {
      PutSlotFrame(t, dst, pid, SlotCards(t, dst, pid) + [c], SideSlot(k), q);
    }
  }

  /** A move that fits keeps every side within four cards. */
  lemma MoveKeepsSidesFit(t: Table, pid: int, c: Card, src: Slot, dst: Slot)
    requires pid in {1, 2} && SidesFit(t.boards)
    requires SlotExists(t, src, pid) && c in SlotCards(t, src, pid) && SlotExists(t, dst, pid)
    requires Fits(TakeOut(t, src, pid, c), dst, pid)
    ensures SidesFit(PutIn(TakeOut(t, src, pid, c), dst, pid, c).boards)
    ensures SidesFit(TakeOut(t, src, pid, c).boards)
  {
    var v := TakeOut(t, src, pid, c);
    var u := PutIn(v, dst, pid, c);
    forall k, q | 0 <= k < |u.boards| && q in {1, 2}
      ensures |SideOf(u.boards[k], q)| <= MAX_SIDE && |SideOf(v.boards[k], q)| <= MAX_SIDE
    {
      PutSlotFrame(t, src, pid, RemoveFirst(SlotCards(t, src, pid), c), SideSlot(k), q);
      PutSlotFrame(v, dst, pid, SlotCards(v, dst, pid) + [c], SideSlot(k), q);
    }
  }

  // ---------------------------------------------------------------------------
  // Every card on the table

  function HandOf(t: Table, pid: int): seq<Card> {
    if pid in t.players then t.players[pid].hand else []
  }

  /** The cards the engine searches for a card id, in its order: the hands, then each board's
      player 1 and player 2 cards. */
  function SearchOrder(t: Table): seq<Card> {
    HandOf(t, 1) + HandOf(t, 2) + SideCards(t.boards)
  }

  function SideCards(boards: seq<Board>): seq<Card> {
    if boards == [] then []
    else SideCards(boards[..|boards| - 1]) + (boards[|boards| - 1].p1Cards + boards[|boards| - 1].p2Cards)
  }

  /** Everything on one board: community cards, then player 1's side, then player 2's. */
  function Contents(b: Board): seq<Card> {
    b.community + b.p1Cards + b.p2Cards
  }

  /** Everything on the boards, board by board. */
  function BoardCards(boards: seq<Board>): seq<Card> {
    if boards == [] then []
    else BoardCards(boards[..|boards| - 1]) + Contents(boards[|boards| - 1])
  }

  /** Every card in the hands and on the boards. */
  function TableCards(t: Table): seq<Card> {
    HandOf(t, 1) + HandOf(t, 2) + BoardCards(t.boards)
  }

  lemma SideInContents(b: Board, pid: int, cards: seq<Card>)
    ensures multiset(Contents(WithSide(b, pid, cards))) + multiset(SideOf(b, pid)) ==
            multiset(Contents(b)) + multiset(cards)
  {
  }

  lemma {:induction false} BoardCardsAppend(a: seq<Board>, b: seq<Board>)
    ensures BoardCards(a + b) == BoardCards(a) + BoardCards(b)
  {
    if b != [] {
      var n := |b| - 1;
      assert (a + b)[..|a + b| - 1] == a + b[..n];
      BoardCardsAppend(a, b[..n]);
    } else {
      assert a + b == a;
    }
  }

  lemma Halves<T>(s: seq<T>, k: nat)
    requires k <= |s|
    ensures s[..k] + s[k..] == s
  {
  }

  lemma SideCardsStep(bs: seq<Board>, k: nat)
    requires k < |bs|
    ensures SideCards(bs[..k + 1]) == SideCards(bs[..k]) + (bs[k].p1Cards + bs[k].p2Cards)
  {
    assert bs[..k + 1][..k] == bs[..k];
  }

  /** The cards on the players' sides of the boards, split at any board. */
  lemma SideCardsPrefix(bs: seq<Board>, k: nat)
    requires k <= |bs|
    ensures SideCards(bs) == SideCards(bs[..k]) + SideCards(bs[k..])
  {
    SideCardsSplit(bs[..k], bs[k..]);
    Halves(bs, k);
  }

  lemma {:induction false} SideCardsSplit(a: seq<Board>, b: seq<Board>)
    ensures SideCards(a + b) == SideCards(a) + SideCards(b)
  {
    if b != [] {
      assert (a + b)[..|a + b| - 1] == a + b[..|b| - 1];
      SideCardsSplit(a, b[..|b| - 1]);
    } else {
      assert a + b == a;
    }
  }

  lemma SplitAt<T>(s: seq<T>, k: nat)
    requires k < |s|
    ensures s == s[..k] + [s[k]] + s[k + 1..]
  {
  }

  lemma UpdateKeepsRest<T>(s: seq<T>, k: nat, v: T)
    requires k < |s|
    ensures s[k := v][..k] == s[..k] && s[k := v][k + 1..] == s[k + 1..]
  {
  }

  lemma BoardCardsAround(boards: seq<Board>, k: nat)
    requires k < |boards|
    ensures BoardCards(boards) == BoardCards(boards[..k]) + Contents(boards[k]) + BoardCards(boards[k + 1..])
  {
    SplitAt(boards, k);
    BoardCardsAppend(boards[..k] + [boards[k]], boards[k + 1..]);
    BoardCardsAppend(boards[..k], [boards[k]]);
    assert [boards[k]][..0] == [];
  }

  /** Replacing player pid's side of board k changes the cards on the boards by exactly the
      difference between the old and new sides. */
  lemma BoardCardsUpdate(boards: seq<Board>, k: nat, pid: int, cards: seq<Card>)
    requires k < |boards|
    ensures multiset(BoardCards(boards[k := WithSide(boards[k], pid, cards)])) + multiset(SideOf(boards[k], pid)) ==
            multiset(BoardCards(boards)) + multiset(cards)
  {
    var b := WithSide(boards[k], pid, cards);
    var u := boards[k := b];
    BoardCardsAround(boards, k);
    BoardCardsAround(u, k);
    UpdateKeepsRest(boards, k, b);
    SideInContents(boards[k], pid, cards);
    ExchangeInMiddle(multiset(BoardCards(boards[..k])), multiset(Contents(b)), multiset(BoardCards(boards[k + 1..])),
                     multiset(SideOf(boards[k], pid)), multiset(Contents(boards[k])), multiset(cards));
  }

  /** Multiset bookkeeping: exchanging a middle part whose difference is known. */
  lemma ExchangeInMiddle<T>(before: multiset<T>, mid: multiset<T>, after: multiset<T>,
                            out: multiset<T>, mid0: multiset<T>, into: multiset<T>)
    requires mid + out == mid0 + into
    ensures before + mid + after + out == before + mid0 + after + into
  {
    calc {
      before + mid + after + out;
      before + (mid + out) + after;
      before + (mid0 + into) + after;
      before + mid0 + after + into;
    }
  }

  /** Replacing one slot changes the cards on the table by exactly the difference between the
      old and new contents of that slot. */
  lemma PutSlotTableCards(t: Table, s: Slot, pid: int, cards: seq<Card>)
    requires pid in {1, 2} && SlotExists(t, s, pid)
    ensures multiset(TableCards(PutSlot(t, s, pid, cards))) + multiset(SlotCards(t, s, pid)) ==
            multiset(TableCards(t)) + multiset(cards)
  {
    var u := PutSlot(t, s, pid, cards);
    var h1, h2 := multiset(HandOf(t, 1)), multiset(HandOf(t, 2));
    var rest := multiset(BoardCards(t.boards));
    match s
    case HandSlot =>
      if pid == 1 {
        assert TableCards(u) == cards + HandOf(t, 2) + BoardCards(t.boards);
        SwapEnds(multiset(cards), h2, rest, h1);
      } else {
        assert TableCards(u) == HandOf(t, 1) + cards + BoardCards(t.boards);
        ExchangeInMiddle(h1, multiset(cards), rest, h2, h2, multiset(cards));
      }
    case SideSlot(k) =>
      assert TableCards(u) == HandOf(t, 1) + HandOf(t, 2) + BoardCards(u.boards);
      BoardCardsUpdate(t.boards, k, pid, cards);
      ExchangeAtEnd(h1 + h2, multiset(BoardCards(u.boards)), multiset(SideOf(t.boards[k], pid)), rest, multiset(cards));
  }

  lemma SwapEnds<T>(a: multiset<T>, b: multiset<T>, c: multiset<T>, d: multiset<T>)
    ensures a + b + c + d == d + b + c + a
  {
  }

  lemma ExchangeAtEnd<T>(before: multiset<T>, mid: multiset<T>, out: multiset<T>, mid0: multiset<T>, into: multiset<T>)
    requires mid + out == mid0 + into
    ensures before + mid + out == before + mid0 + into
  {
    calc {
      before + mid + out;
      before + (mid + out);
      before + (mid0 + into);
      before + mid0 + into;
    }
  }

  lemma Cancel<T>(x: multiset<T>, y: multiset<T>, a: multiset<T>)
    requires x + a == y + a
    ensures x == y
  {
    forall e
      ensures x[e] == y[e]
    {
      assert (x + a)[e] == (y + a)[e];
    }
  }

  lemma Rebalance<T>(a: multiset<T>, s: multiset<T>, t: multiset<T>, r: multiset<T>, c: multiset<T>)
    requires a + s == t + r && s == r + c
    ensures a + c == t
  {
    assert (a + c) + r == t + r;
    Cancel(a + c, t, r);
  }

  lemma Grow<T>(a: multiset<T>, t: multiset<T>, s: multiset<T>, c: multiset<T>)
    requires a + s == t + (s + c)
    ensures a == t + c
  {
    assert a + s == (t + c) + s;
    Cancel(a, t + c, s);
  }

  /** Taking a card out leaves the table one copy of it short. */
  lemma TakeOutTableCards(t: Table, pid: int, c: Card, src: Slot)
    requires pid in {1, 2}
    requires SlotExists(t, src, pid) && c in SlotCards(t, src, pid)
    ensures multiset(TableCards(TakeOut(t, src, pid, c))) + multiset{c} == multiset(TableCards(t))
  {
    var cards := SlotCards(t, src, pid);
    var r := RemoveFirst(cards, c);
    var after, before := multiset(TableCards(TakeOut(t, src, pid, c))), multiset(TableCards(t));
    assert after + multiset(cards) == before + multiset(r) by {
      PutSlotTableCards(t, src, pid, r);
    }
    assert multiset(cards) == multiset(r) + multiset{c};
    Rebalance(after, multiset(cards), before, multiset(r), multiset{c});
  }

  /** Putting a card in adds one copy of it to the table. */
  lemma PutInTableCards(t: Table, pid: int, c: Card, dst: Slot)
    requires pid in {1, 2} && SlotExists(t, dst, pid)
    ensures multiset(TableCards(PutIn(t, dst, pid, c))) == multiset(TableCards(t)) + multiset{c}
  {
    var cards := SlotCards(t, dst, pid);
    var after, before := multiset(TableCards(PutIn(t, dst, pid, c))), multiset(TableCards(t));
    assert after + multiset(cards) == before + multiset(cards + [c]) by {
      PutSlotTableCards(t, dst, pid, cards + [c]);
    }
    assert multiset(cards + [c]) == multiset(cards) + multiset{c};
    Grow(after, before, multiset(cards), multiset{c});
  }

  /** A move (including one rolled back) and a type inference keep the same cards on the table. */
  lemma MoveKeepsTableCards(t: Table, pid: int, c: Card, src: Slot, dst: Slot)
    requires pid in {1, 2}
    requires SlotExists(t, src, pid) && c in SlotCards(t, src, pid) && SlotExists(t, dst, pid)
    ensures multiset(TableCards(PutIn(TakeOut(t, src, pid, c), dst, pid, c))) == multiset(TableCards(t))
    ensures multiset(TableCards(Retype(PutIn(TakeOut(t, src, pid, c), dst, pid, c)))) == multiset(TableCards(t))
  {
    var v := TakeOut(t, src, pid, c);
    var u := PutIn(v, dst, pid, c);
    assert TableCards(Retype(u)) == TableCards(u) by {
      RetypeKeepsBoardCards(u.boards);
    }
    assert multiset(TableCards(v)) + multiset{c} == multiset(TableCards(t)) by {
      TakeOutTableCards(t, pid, c, src);
    }
    assert multiset(TableCards(u)) == multiset(TableCards(v)) + multiset{c} by {
      PutInTableCards(v, pid, c, dst);
    }
  }

  lemma {:induction false} RetypeKeepsBoardCards(boards: seq<Board>)
    ensures BoardCards(Retyped(boards)) == BoardCards(boards)
  {
    BoardCardsIgnoresKinds(boards, Retyped(boards));
  }

  lemma {:induction false} BoardCardsIgnoresKinds(a: seq<Board>, b: seq<Board>)
    requires |a| == |b|
    requires forall k :: 0 <= k < |a| ==> a[k].community == b[k].community && a[k].p1Cards == b[k].p1Cards && a[k].p2Cards == b[k].p2Cards
    ensures BoardCards(a) == BoardCards(b)
  {
    if a != [] {
      BoardCardsIgnoresKinds(a[..|a| - 1], b[..|b| - 1]);
    }
  }

  // ---------------------------------------------------------------------------
  // How many cards a player holds

  function SideTotal(boards: seq<Board>, pid: int): int {
    if boards == [] then 0 else SideTotal(boards[..|boards| - 1], pid) + |SideOf(boards[|boards| - 1], pid)|
  }

  /** The cards player pid holds: in hand plus placed on the boards. */
  function Held(t: Table, pid: int): int {
    |HandOf(t, pid)| + SideTotal(t.boards, pid)
  }

  lemma {:induction false} SideTotalUpdate(boards: seq<Board>, k: nat, pid: int, cards: seq<Card>, q: int)
    requires k < |boards| && pid in {1, 2} && q in {1, 2}
    ensures SideTotal(boards[k := WithSide(boards[k], pid, cards)], q) ==
      SideTotal(boards, q) + (if q == pid then |cards| - |SideOf(boards[k], pid)| else 0)
  {
    var n := |boards| - 1;
    var u := boards[k := WithSide(boards[k], pid, cards)];
    if k == n {
      assert u[..n] == boards[..n];
    } else {
      assert u[..n] == boards[..n][k := WithSide(boards[k], pid, cards)];
      SideTotalUpdate(boards[..n], k, pid, cards, q);
    }
  }

  /** Replacing a slot changes only its owner's count, by the change in that slot's size. */
  lemma PutSlotHeld(t: Table, s: Slot, pid: int, cards: seq<Card>, q: int)
    requires pid in {1, 2} && q in {1, 2} && SlotExists(t, s, pid)
    ensures Held(PutSlot(t, s, pid, cards), q) ==
      Held(t, q) + (if q == pid then |cards| - |SlotCards(t, s, pid)| else 0)
  {
    match s
    case HandSlot =>
    case SideSlot(k) => SideTotalUpdate(t.boards, k, pid, cards, q);
  }

  lemma {:induction false} SideTotalIgnoresKinds(a: seq<Board>, b: seq<Board>, q: int)
    requires |a| == |b|
    requires forall k :: 0 <= k < |a| ==> a[k].p1Cards == b[k].p1Cards && a[k].p2Cards == b[k].p2Cards
    ensures SideTotal(a, q) == SideTotal(b, q)
  {
    if a != [] {
      SideTotalIgnoresKinds(a[..|a| - 1], b[..|b| - 1], q);
    }
  }

  /** A move keeps the number of cards each player holds (in hand plus on the boards). */
  lemma MoveKeepsHeld(t: Table, pid: int, c: Card, src: Slot, dst: Slot, q: int)
    requires pid in {1, 2} && q in {1, 2}
    requires SlotExists(t, src, pid) && c in SlotCards(t, src, pid) && SlotExists(t, dst, pid)
    ensures Held(PutIn(TakeOut(t, src, pid, c), dst, pid, c), q) == Held(t, q)
    ensures Held(Retype(PutIn(TakeOut(t, src, pid, c), dst, pid, c)), q) == Held(t, q)
  {
    var v := TakeOut(t, src, pid, c);
    var u := PutIn(v, dst, pid, c);
    var step := if q == pid then 1 else 0;
    assert Held(v, q) + step == Held(t, q) by {
      PutSlotHeld(t, src, pid, RemoveFirst(SlotCards(t, src, pid), c), q);
    }
    assert Held(u, q) == Held(v, q) + step by {
      PutSlotHeld(v, dst, pid, SlotCards(v, dst, pid) + [c], q);
    }
    assert Held(Retype(u), q) == Held(u, q) by {
      SideTotalIgnoresKinds(u.boards, Retyped(u.boards), q);
    }
  }

  // ---------------------------------------------------------------------------
  // Bets

  /** A bets dictionary as a sequence of (player id, amount) entries; its keys are distinct. */
  predicate DistinctKeys(bets: seq<(int, int)>) {
    forall i, j :: 0 <= i < j < |bets| ==> bets[i].0 != bets[j].0
  }

  /** The engine refuses an entry for an unknown player or above that player's bankroll. */
  predicate Refused(players: map<int, Player>, entry: (int, int)) {
    entry.0 !in players || entry.1 > players[entry.0].bankroll
  }

  /** The position of the first refused entry, or the number of entries when none is refused. */
  function FirstRefused(players: map<int, Player>, bets: seq<(int, int)>): (n: nat)
    ensures n <= |bets|
    ensures forall i :: 0 <= i < n ==> !Refused(players, bets[i])
    ensures n < |bets| ==> Refused(players, bets[n])
  {
    if bets == [] then 0
    else if Refused(players, bets[0]) then 0
    else 1 + FirstRefused(players, bets[1..])
  }

  /** The players after each entry's amount is moved from bankroll to bet, in order (an entry
      for an unknown player changes nothing; the engine stops before one). */
  function Debit(players: map<int, Player>, bets: seq<(int, int)>): (r: map<int, Player>)
    ensures r.Keys == players.Keys
  {
    if bets == [] then players
    else
      var ps := Debit(players, bets[..|bets| - 1]);
      var e := bets[|bets| - 1];
      if e.0 in ps then ps[e.0 := ps[e.0].(bet := e.1, bankroll := ps[e.0].bankroll - e.1)] else ps
  }

  /** The amount the entries name for a player, if any. */
  function AmountFor(bets: seq<(int, int)>, pid: int): Option<int> {
    if bets == [] then None
    else if bets[|bets| - 1].0 == pid then Some(bets[|bets| - 1].1)
    else AmountFor(bets[..|bets| - 1], pid)
  }

  /** A player who bets a: the bet becomes a and the bankroll drops by a. */
  function Debited(p: Player, amount: Option<int>): Player {
    match amount
    case None => p
    case Some(a) => p.(bet := a, bankroll := p.bankroll - a)
  }

  lemma {:induction false} AmountForAbsent(bets: seq<(int, int)>, pid: int)
    requires forall i :: 0 <= i < |bets| ==> bets[i].0 != pid
    ensures AmountFor(bets, pid) == None
  {
    if bets != [] {
      AmountForAbsent(bets[..|bets| - 1], pid);
    }
  }

  /** Debiting distinct entries changes each named player once, by that player's own amount, and
      leaves every other player as they were. */
  lemma {:induction false} DebitMeaning(players: map<int, Player>, bets: seq<(int, int)>, pid: int)
    requires DistinctKeys(bets) && forall i :: 0 <= i < |bets| ==> bets[i].0 in players
    requires pid in players
    ensures Debit(players, bets)[pid] == Debited(players[pid], AmountFor(bets, pid))
  {
    if bets != [] {
      var front := bets[..|bets| - 1];
      DebitMeaning(players, front, pid);
      if bets[|bets| - 1].0 == pid {
        AmountForAbsent(front, pid);
      }
    }
  }

  /** One more entry debits one more player. */
  lemma DebitStep(players: map<int, Player>, bets: seq<(int, int)>, i: nat)
    requires i < |bets| && bets[i].0 in players
    ensures var ps := Debit(players, bets[..i]);
      Debit(players, bets[..i + 1]) == ps[bets[i].0 := ps[bets[i].0].(bet := bets[i].1, bankroll := ps[bets[i].0].bankroll - bets[i].1)]
  {
    assert bets[..i + 1][..i] == bets[..i];
  }

  /** Before entry i is applied, its player is as they were: keys are distinct. */
  lemma NotYetDebited(players: map<int, Player>, bets: seq<(int, int)>, i: nat)
    requires DistinctKeys(bets) && i < |bets| && bets[i].0 in players
    requires forall j :: 0 <= j < i ==> bets[j].0 in players
    ensures Debit(players, bets[..i])[bets[i].0] == players[bets[i].0]
  {
    var front := bets[..i];
    forall j | 0 <= j < i ensures front[j].0 != bets[i].0 {
      assert bets[j].0 != bets[i].0;
    }
    AmountForAbsent(front, bets[i].0);
    DebitMeaning(players, front, bets[i].0);
  }

  /** The pot: the sum of both players' bets. */
  function BetTotal(players: map<int, Player>): int {
    (if 1 in players then players[1].bet else 0) + (if 2 in players then players[2].bet else 0)
  }

  /** When both players bet, their bankrolls drop by exactly the resulting pot. */
  lemma BetsMoveMoneyToPot(players: map<int, Player>, bets: seq<(int, int)>)
    requires 1 in players && 2 in players
    requires DistinctKeys(bets) && forall i :: 0 <= i < |bets| ==> bets[i].0 in players
    requires AmountFor(bets, 1).Some? && AmountFor(bets, 2).Some?
    ensures Debit(players, bets)[1].bankroll + Debit(players, bets)[2].bankroll + BetTotal(Debit(players, bets)) ==
            players[1].bankroll + players[2].bankroll
  {
    DebitMeaning(players, bets, 1);
    DebitMeaning(players, bets, 2);
  }

  // ---------------------------------------------------------------------------
  // Turn and river

  /** The boards after the turn and river: board k receives the k-th pair of deck cards (fewer,
      or none, when the deck runs short). */
  function DealtBoards(boards: seq<Board>, deck: seq<Card>): (r: seq<Board>)
    ensures |r| == |boards|
    ensures forall k :: 0 <= k < |boards| ==>
      r[k] == boards[k].(community := boards[k].community + Take(Drop(deck, 2 * k), 2))
  {
    seq(|boards|, k requires 0 <= k < |boards| => boards[k].(community := boards[k].community + Take(Drop(deck, 2 * k), 2)))
  }

  lemma DropDrop<T>(s: seq<T>, a: nat, b: nat)
    ensures Drop(Drop(s, a), b) == Drop(s, a + b)
  {
  }

  /** With at least two cards per board in the deck, board k receives exactly deck[2k] and
      deck[2k+1], and a three-card flop becomes five community cards. */
  lemma DealFromFullDeck(boards: seq<Board>, deck: seq<Card>, k: nat)
    requires k < |boards| && 2 * |boards| <= |deck|
    ensures DealtBoards(boards, deck)[k].community == boards[k].community + [deck[2 * k], deck[2 * k + 1]]
    ensures |boards[k].community| == FLOP_CARDS ==> |DealtBoards(boards, deck)[k].community| == 5
    ensures |Drop(deck, 2 * |boards|)| == |deck| - 2 * |boards|
  {
    assert Take(Drop(deck, 2 * k), 2) == [deck[2 * k], deck[2 * k + 1]];
  }

  // ---------------------------------------------------------------------------
  // Showdown

  /** Whether player pid plays a board of this type under Omaha rules. */
  function PloFor(kind: BoardType, pid: int): bool {
    if pid == 1 then kind == P1Plo || kind == BothPlo else kind == P2Plo || kind == BothPlo
  }

  /** One board's showdown: the type, each player's best score under their rules, and the winner. */
  datatype BoardResult = BoardResult(board: char, kind: BoardType, winner: int, p1Score: Score, p2Score: Score,
                                     p1Plo: bool, p2Plo: bool, pot: int)

  /** The showdown of one board: each player's best hand under the rules their type gives them,
      and the winner by the engine's comparison. */
  function ResultFor(b: Board, subpot: int): (r: BoardResult)
    ensures r.p1Plo == (b.kind in {P1Plo, BothPlo}) && r.p2Plo == (b.kind in {P2Plo, BothPlo})
    ensures r.winner == 1 <==> Beats(r.p1Score, r.p2Score)
    ensures r.winner == 2 <==> Beats(r.p2Score, r.p1Score)
    ensures r.winner == 0 <==> r.p1Score == r.p2Score
    ensures r.pot == subpot && r.board == b.id && r.kind == b.kind
  {
    var s1 := BestScore(b.p1Cards, b.community, PloFor(b.kind, 1));
    var s2 := BestScore(b.p2Cards, b.community, PloFor(b.kind, 2));
    BoardResult(b.id, b.kind, Compare(s1, s2), s1, s2, PloFor(b.kind, 1), PloFor(b.kind, 2), subpot)
  }

  function WinnersOf(results: seq<BoardResult>): (w: seq<int>)
    ensures |w| == |results| && forall k :: 0 <= k < |results| ==> w[k] == results[k].winner
  {
    seq(|results|, k requires 0 <= k < |results| => results[k].winner)
  }

  /** The two seats: with ids limited to 1 and 2, a map of two players holds both. */
  lemma Seats(players: map<int, Player>)
    requires forall pid :: pid in players ==> pid == 1 || pid == 2
    ensures |players| == 2 <==> 1 in players && 2 in players
    ensures |players| < 2 ==> !(1 in players && 2 in players)
    ensures |players| <= 2
  {
    var keys := players.Keys;
    assert |players| == |keys|;
    assert forall x :: x in keys ==> x == 1 || x == 2;
    if 1 in players && 2 in players {
      assert forall x :: x in keys <==> x in {1, 2};
      assert keys == {1, 2};
    } else if 1 in players {
      assert forall x :: x in keys <==> x in {1};
      assert keys == {1};
    } else if 2 in players {
      assert forall x :: x in keys <==> x in {2};
      assert keys == {2};
    } else {
      assert forall x :: x !in keys;
      assert keys == {};
    }
  }

  // ---------------------------------------------------------------------------
  // Moving a card, as a whole

  /** The card the engine finds for an id, the source slot it names, and the card lying there. */
  predicate SourceOk(t: Table, pid: int, cardId: int, from: string) {
    && FirstWithId(SearchOrder(t), cardId).Some?
    && SlotOf(ParseLocation(from)).Some?
    && SlotExists(t, SlotOf(ParseLocation(from)).value, pid)
    && FirstWithId(SearchOrder(t), cardId).value in SlotCards(t, SlotOf(ParseLocation(from)).value, pid)
  }

  /** The table once the card has left its source. */
  function Lifted(t: Table, pid: int, cardId: int, from: string): (r: Table)
    requires SourceOk(t, pid, cardId, from)
  {
    TakeOut(t, SlotOf(ParseLocation(from)).value, pid, FirstWithId(SearchOrder(t), cardId).value)
  }

  /** The destination names a slot with room for the card once it has left its source. */
  predicate DestOk(t: Table, pid: int, cardId: int, from: string, to: string)
    requires SourceOk(t, pid, cardId, from)
  {
    && SlotOf(ParseLocation(to)).Some?
    && SlotExists(Lifted(t, pid, cardId, from), SlotOf(ParseLocation(to)).value, pid)
    && Fits(Lifted(t, pid, cardId, from), SlotOf(ParseLocation(to)).value, pid)
  }

  /** The table after a successful move: the card appended to its destination, types inferred. */
  function Landed(t: Table, pid: int, cardId: int, from: string, to: string): Table
    requires SourceOk(t, pid, cardId, from) && DestOk(t, pid, cardId, from, to)
  {
    Retype(PutIn(Lifted(t, pid, cardId, from), SlotOf(ParseLocation(to)).value, pid, FirstWithId(SearchOrder(t), cardId).value))
  }

  /** A move by one player never touches the other player's cards. */
  lemma MoveSparesOpponent(t: Table, pid: int, c: Card, src: Slot, dst: Slot, x: Slot, q: int)
    requires pid in {1, 2} && q in {1, 2} && q != pid
    requires SlotExists(t, src, pid) && c in SlotCards(t, src, pid) && SlotExists(t, dst, pid)
    requires SlotExists(t, x, q)
    ensures var u := PutIn(TakeOut(t, src, pid, c), dst, pid, c);
      SlotExists(u, x, q) && SlotCards(u, x, q) == SlotCards(t, x, q) &&
      SlotExists(Retype(u), x, q) && SlotCards(Retype(u), x, q) == SlotCards(t, x, q)
  {
    var v := TakeOut(t, src, pid, c);
    PutSlotFrame(t, src, pid, RemoveFirst(SlotCards(t, src, pid), c), x, q);
    PutSlotFrame(v, dst, pid, SlotCards(v, dst, pid) + [c], x, q);
  }

  /** What a card move did: the card moved, the move was refused, or reading a location's board
      id raised. */
  datatype MoveOutcome = Moved | Rejected | Raised

  /** After a card leaves a side that held at most four cards, that side has room for it again. */
  lemma LiftLeavesRoom(t: Table, pid: int, c: Card, src: Slot)
    requires pid in {1, 2} && SidesFit(t.boards)
    requires SlotExists(t, src, pid) && c in SlotCards(t, src, pid)
    ensures Fits(TakeOut(t, src, pid, c), src, pid)
  {
    PutSlotFrame(t, src, pid, RemoveFirst(SlotCards(t, src, pid), c), src, pid);
  }

  /** A card move by player pid once phase and turn allow it: the outcome and the table after it.
      The card is found by id; it leaves its source slot and joins the end of its destination
      slot, after which the board types are inferred afresh. A destination that names no slot, or
      a full side, puts the card back at the end of its source. A "board" location without a
      board id raises: before anything changed when it is the source, after the card left its
      source when it is the destination. */
  function MoveOn(t: Table, pid: int, cardId: int, from: string, to: string): (MoveOutcome, Table) {
    if FirstWithId(SearchOrder(t), cardId).None? then (Rejected, t)
    else if ParseLocation(from) == BoardWithoutId then (Raised, t)
    else if !SourceOk(t, pid, cardId, from) then (Rejected, t)
    else if ParseLocation(to) == BoardWithoutId then (Raised, Lifted(t, pid, cardId, from))
    else if !DestOk(t, pid, cardId, from, to) then
      (Rejected, PutIn(Lifted(t, pid, cardId, from), SlotOf(ParseLocation(from)).value, pid,
                       FirstWithId(SearchOrder(t), cardId).value))
    else (Moved, Landed(t, pid, cardId, from, to))
  }

  /** A move succeeds exactly when the card lies in the named source slot and the destination
      has room; it raises only on a "board" location without a board id, and when that location
      is the destination the card has already left its source. */
  lemma MoveOnOutcome(t: Table, pid: int, cardId: int, from: string, to: string)
    ensures var (outcome, u) := MoveOn(t, pid, cardId, from, to);
      && (outcome == Moved <==> SourceOk(t, pid, cardId, from) && DestOk(t, pid, cardId, from, to))
      && (outcome == Raised ==>
            || (ParseLocation(from) == BoardWithoutId && u == t)
            || (ParseLocation(to) == BoardWithoutId && SourceOk(t, pid, cardId, from) && u == Lifted(t, pid, cardId, from)))
  {
  }

  /** A refused move leaves every slot of both players with the same cards (a card put back may
      move to the end of its slot) and every board type as it was. */
  lemma MoveOnRefused(t: Table, pid: int, cardId: int, from: string, to: string)
    requires pid in {1, 2}
    requires MoveOn(t, pid, cardId, from, to).0 == Rejected
    ensures SameHoldings(t, MoveOn(t, pid, cardId, from, to).1)
    ensures var u := MoveOn(t, pid, cardId, from, to).1;
      |u.boards| == |t.boards| && forall k :: 0 <= k < |u.boards| ==> u.boards[k].kind == t.boards[k].kind
  {
    RefusedTable(t, pid, cardId, from, to);
    if SourceOk(t, pid, cardId, from) {
      var c := FirstWithId(SearchOrder(t), cardId).value;
      var src := SlotOf(ParseLocation(from)).value;
      RollbackKeepsHoldings(t, pid, c, src);
      RollbackKeepsKinds(t, pid, c, src);
    }
  }

  /** A refused move leaves the table as it was, or puts the lifted card back into its source. */
  lemma RefusedTable(t: Table, pid: int, cardId: int, from: string, to: string)
    requires MoveOn(t, pid, cardId, from, to).0 == Rejected
    ensures !SourceOk(t, pid, cardId, from) ==> MoveOn(t, pid, cardId, from, to).1 == t
    ensures SourceOk(t, pid, cardId, from) ==>
      var c := FirstWithId(SearchOrder(t), cardId).value;
      var src := SlotOf(ParseLocation(from)).value;
      MoveOn(t, pid, cardId, from, to).1 == PutIn(TakeOut(t, src, pid, c), src, pid, c)
  {
  }

  /** Unless it raises, a move keeps every card on the table and the number of cards each player
      holds. */
  lemma MoveOnKeepsCards(t: Table, pid: int, cardId: int, from: string, to: string)
    requires pid in {1, 2}
    requires MoveOn(t, pid, cardId, from, to).0 != Raised
    ensures var u := MoveOn(t, pid, cardId, from, to).1;
      && multiset(TableCards(u)) == multiset(TableCards(t))
      && Held(u, 1) == Held(t, 1) && Held(u, 2) == Held(t, 2)
  {
    if SourceOk(t, pid, cardId, from) {
      var c := FirstWithId(SearchOrder(t), cardId).value;
      var src := SlotOf(ParseLocation(from)).value;
      if DestOk(t, pid, cardId, from, to) {
        var dst := SlotOf(ParseLocation(to)).value;
        assert MoveOn(t, pid, cardId, from, to).1 == Retype(PutIn(TakeOut(t, src, pid, c), dst, pid, c));
        MoveKeepsTableCards(t, pid, c, src, dst);
        MoveKeepsHeld(t, pid, c, src, dst, 1);
        MoveKeepsHeld(t, pid, c, src, dst, 2);
      } else {
        assert MoveOn(t, pid, cardId, from, to).1 == PutIn(TakeOut(t, src, pid, c), src, pid, c);
        MoveKeepsTableCards(t, pid, c, src, src);
        MoveKeepsHeld(t, pid, c, src, src, 1);
        MoveKeepsHeld(t, pid, c, src, src, 2);
      }
    } else {
      assert MoveOn(t, pid, cardId, from, to).1 == t;
    }
  }

  /** Whatever its outcome, a move keeps every side within four cards, the seated players and the
      number of boards. */
  lemma MoveOnKeepsSidesFit(t: Table, pid: int, cardId: int, from: string, to: string)
    requires pid in {1, 2} && SidesFit(t.boards)
    ensures var u := MoveOn(t, pid, cardId, from, to).1;
      SidesFit(u.boards) && u.players.Keys == t.players.Keys && |u.boards| == |t.boards|
  {
    if SourceOk(t, pid, cardId, from) {
      var c := FirstWithId(SearchOrder(t), cardId).value;
      var src := SlotOf(ParseLocation(from)).value;
      LiftLeavesRoom(t, pid, c, src);
      MoveKeepsSidesFit(t, pid, c, src, src);
      if ParseLocation(to) != BoardWithoutId && DestOk(t, pid, cardId, from, to) {
        MoveKeepsSidesFit(t, pid, c, src, SlotOf(ParseLocation(to)).value);
        RetypeKeepsSidesFit(PutIn(TakeOut(t, src, pid, c), SlotOf(ParseLocation(to)).value, pid, c));
      }
    }
  }

  /** A move by player pid, whatever its outcome, leaves the other player's cards alone. */
  lemma MoveOnSparesOpponent(t: Table, pid: int, cardId: int, from: string, to: string, x: Slot, q: int)
    requires pid in {1, 2} && q in {1, 2} && q != pid && SlotExists(t, x, q)
    ensures var u := MoveOn(t, pid, cardId, from, to).1;
      SlotExists(u, x, q) && SlotCards(u, x, q) == SlotCards(t, x, q)
  {
    if SourceOk(t, pid, cardId, from) {
      var c := FirstWithId(SearchOrder(t), cardId).value;
      var src := SlotOf(ParseLocation(from)).value;
      var v := TakeOut(t, src, pid, c);
      PutSlotFrame(t, src, pid, RemoveFirst(SlotCards(t, src, pid), c), x, q);
      if ParseLocation(to) != BoardWithoutId {
        if DestOk(t, pid, cardId, from, to) {
          MoveSparesOpponent(t, pid, c, src, SlotOf(ParseLocation(to)).value, x, q);
        } else {
          MoveSparesOpponent(t, pid, c, src, src, x, q);
        }
      }
    }
  }

  // ---------------------------------------------------------------------------
  // Locations as the client names them

  /** How the engine reads a location string: "hand...", "board-<id>...", a "board..." name with
      no '-' (whose id lookup raises), or anything else. */
  datatype Location = HandLoc | BoardLoc(boardId: string) | BoardWithoutId | Elsewhere

  predicate StartsWith(s: string, prefix: string) {
    |prefix| <= |s| && s[..|prefix|] == prefix
  }

  /** What follows the first '-', if there is one. */
  function AfterDash(s: string): (r: Option<string>)
    ensures r.None? <==> '-' !in s
    ensures r.Some? ==> |r.value| < |s|
  {
    if s == [] then None
    else if s[0] == '-' then Some(s[1..])
    else
      assert s == [s[0]] + s[1..];
      AfterDash(s[1..])
  }

  /** Everything before the first '-'. */
  function BeforeDash(s: string): (r: string)
    ensures '-' !in r && |r| <= |s|
    ensures r == s[..|r|]
    ensures |r| < |s| ==> s[|r|] == '-'
  {
    if s == [] || s[0] == '-' then []
    else [s[0]] + BeforeDash(s[1..])
  }

  /** `s.split('-')[1]`: the second '-'-separated field, or None where indexing it raises. */
  function SecondField(s: string): Option<string> {
    match AfterDash(s)
    case None => None
    case Some(rest) => Some(BeforeDash(rest))
  }

  function ParseLocation(loc: string): Location {
    if StartsWith(loc, "hand") then HandLoc
    else if StartsWith(loc, "board") then
      match SecondField(loc)
      case None => BoardWithoutId
      case Some(id) => BoardLoc(id)
    else Elsewhere
  }

  /** `boards.get(id)`: the position of the board with that id. */
  function BoardIndex(id: string): (r: Option<nat>)
    ensures r.Some? <==> id in {"A", "B", "C"}
    ensures r.Some? ==> r.value < 3 && id == [BOARD_IDS[r.value]]
  {
    if id == "A" then Some(0) else if id == "B" then Some(1) else if id == "C" then Some(2) else None
  }

  /** The slot a location names, when it names one. */
  function SlotOf(loc: Location): Option<Slot> {
    match loc
    case HandLoc => Some(HandSlot)
    case BoardLoc(id) => if BoardIndex(id).Some? then Some(SideSlot(BoardIndex(id).value)) else None
    case BoardWithoutId => None
    case Elsewhere => None
  }

  lemma {:induction false} AfterDashAppend(p: string, rest: string)
    requires '-' !in p
    ensures AfterDash(p + "-" + rest) == Some(rest)
  {
    if p != [] {
      assert (p + "-" + rest)[1..] == p[1..] + "-" + rest;
      AfterDashAppend(p[1..], rest);
    }
  }

  lemma {:induction false} BeforeDashWhole(id: string)
    requires '-' !in id
    ensures BeforeDash(id) == id
  {
    if id != [] {
      BeforeDashWhole(id[1..]);
    }
  }

  /** The client names board sides as "board-A", "board-B" and "board-C": "board-" followed by an
      id with no '-' is read as that board id. */
  lemma BoardLocationNamesBoard(id: string)
    requires '-' !in id
    ensures ParseLocation("board-" + id) == BoardLoc(id)
    ensures SlotOf(ParseLocation("board-" + id)) == if id in {"A", "B", "C"} then Some(SideSlot(BoardIndex(id).value)) else None
  {
    var loc := "board-" + id;
    assert loc == "board" + "-" + id;
    assert loc[0] == 'b';
    assert !StartsWith(loc, "hand") by { assert loc[..4][0] != "hand"[0]; }
    assert StartsWith(loc, "board") by { assert loc[..5] == "board"; }
    AfterDashAppend("board", id);
    BeforeDashWhole(id);
  }

  /** A location starting "board" with no '-' has no board id. */
  lemma BoardWithoutDash(loc: string)
    requires StartsWith(loc, "board") && '-' !in loc
    ensures ParseLocation(loc) == BoardWithoutId
  {
    assert loc[0] == "board"[0];
    assert !StartsWith(loc, "hand") by { assert loc[0] != "hand"[0]; }
  }

  // ---------------------------------------------------------------------------
  // Board types

  /** The last board on which player pid has exactly four cards. */
  function LastFour(boards: seq<Board>, pid: int): (r: Option<nat>)
    ensures r.Some? ==> r.value < |boards| && |SideOf(boards[r.value], pid)| == 4
    ensures r.Some? ==> forall k :: r.value < k < |boards| ==> |SideOf(boards[k], pid)| != 4
    ensures r.None? ==> forall k :: 0 <= k < |boards| ==> |SideOf(boards[k], pid)| != 4
  {
    if boards == [] then None
    else if |SideOf(boards[|boards| - 1], pid)| == 4 then Some(|boards| - 1)
    else LastFour(boards[..|boards| - 1], pid)
  }

  /** Scanning one more board: it becomes the last four-card board when it holds four cards. */
  lemma LastFourStep(boards: seq<Board>, k: nat, pid: int)
    requires k < |boards|
    ensures LastFour(boards[..k + 1], pid) ==
      if |SideOf(boards[k], pid)| == 4 then Some(k) else LastFour(boards[..k], pid)
  {
    assert boards[..k + 1][..k] == boards[..k];
  }

  /** The type of board k given each player's four-card board. */
  function KindAt(k: nat, p1: Option<nat>, p2: Option<nat>): BoardType {
    if p1 == Some(k) && p2 == Some(k) then BothPlo
    else if p1 == Some(k) then P1Plo
    else if p2 == Some(k) then P2Plo
    else Nlhe
  }

  /** The boards with their types inferred from where the players put four cards. */
  function Retyped(boards: seq<Board>): (r: seq<Board>)
    ensures |r| == |boards|
    ensures forall k :: 0 <= k < |boards| ==>
      r[k] == boards[k].(kind := KindAt(k, LastFour(boards, 1), LastFour(boards, 2)))
  {
    seq(|boards|, k requires 0 <= k < |boards| => boards[k].(kind := KindAt(k, LastFour(boards, 1), LastFour(boards, 2))))
  }

  /** The number of cards each player has on each board. */
  function Counts(boards: seq<Board>, pid: int): (r: seq<int>)
    ensures |r| == |boards| && forall k :: 0 <= k < |boards| ==> r[k] == |SideOf(boards[k], pid)|
  {
    seq(|boards|, k requires 0 <= k < |boards| => |SideOf(boards[k], pid)|)
  }

  lemma {:induction false} LastFourByCounts(a: seq<Board>, b: seq<Board>, pid: int)
    requires Counts(a, pid) == Counts(b, pid)
    ensures LastFour(a, pid) == LastFour(b, pid)
  {
    if a != [] {
      assert Counts(a[..|a| - 1], pid) == Counts(b[..|b| - 1], pid) by {
        assert |a| == |Counts(a, pid)| == |Counts(b, pid)| == |b|;
        forall k | 0 <= k < |a| - 1 ensures |SideOf(a[k], pid)| == |SideOf(b[k], pid)| {
          assert Counts(a, pid)[k] == Counts(b, pid)[k];
        }
      }
      assert Counts(a, pid)[|a| - 1] == Counts(b, pid)[|b| - 1];
      LastFourByCounts(a[..|a| - 1], b[..|b| - 1], pid);
    }
  }

  /** Board types depend only on the per-board card counts of the two players. */
  lemma TypesDependOnCountsOnly(a: seq<Board>, b: seq<Board>)
    requires Counts(a, 1) == Counts(b, 1) && Counts(a, 2) == Counts(b, 2)
    ensures forall k :: 0 <= k < |a| ==> Retyped(a)[k].kind == Retyped(b)[k].kind
  {
    LastFourByCounts(a, b, 1);
    LastFourByCounts(a, b, 2);
  }

  /** A board's type says exactly whose four-card board it is; none is pending. */
  lemma KindAtMeaning(k: nat, p1: Option<nat>, p2: Option<nat>)
    ensures KindAt(k, p1, p2) != Pending && KindAt(k, p1, p2) != Plo
    ensures KindAt(k, p1, p2) == BothPlo <==> p1 == Some(k) && p2 == Some(k)
    ensures KindAt(k, p1, p2) == P1Plo <==> p1 == Some(k) && p2 != Some(k)
    ensures KindAt(k, p1, p2) == P2Plo <==> p1 != Some(k) && p2 == Some(k)
    ensures KindAt(k, p1, p2) == Nlhe <==> p1 != Some(k) && p2 != Some(k)
  {
  }

  /** At most one board is a player's four-card board, so at most one board is typed for them. */
  lemma OneFourCardBoardEach(boards: seq<Board>, j: nat, k: nat)
    requires j < k < |boards|
    ensures Retyped(boards)[j].kind in {P1Plo, BothPlo} ==> Retyped(boards)[k].kind !in {P1Plo, BothPlo}
    ensures Retyped(boards)[j].kind in {P2Plo, BothPlo} ==> Retyped(boards)[k].kind !in {P2Plo, BothPlo}
  {
  }

  /** Inferring the types twice gives the same boards as inferring them once. */
  lemma RetypedIdempotent(boards: seq<Board>)
    ensures Retyped(Retyped(boards)) == Retyped(boards)
  {
    var r := Retyped(boards);
    assert Counts(r, 1) == Counts(boards, 1);
    assert Counts(r, 2) == Counts(boards, 2);
    LastFourByCounts(r, boards, 1);
    LastFourByCounts(r, boards, 2);
  }

  // ---------------------------------------------------------------------------
  // Placement validation

  /** A side may hold no card, a Hold'em pair or an Omaha four. */
  predicate AllowedCount(n: int) {
    n == 0 || n == 2 || n == 4
  }

  /** A complete placement: every board holds 0, 2 or 4 of the player's cards, eight in all,
      with at least one four-card board. */
  predicate PlacementOk(counts: seq<int>) {
    && (forall k :: 0 <= k < |counts| ==> AllowedCount(counts[k]))
    && Sum(counts) == HOLE_CARDS
    && (exists k :: 0 <= k < |counts| && counts[k] == 4)
  }

  function Sum(s: seq<int>): int {
    if s == [] then 0 else Sum(s[..|s| - 1]) + s[|s| - 1]
  }

  lemma SumStep(s: seq<int>, k: nat)
    requires k < |s|
    ensures Sum(s[..k + 1]) == Sum(s[..k]) + s[k]
  {
    assert s[..k + 1][..k] == s[..k];
  }

  lemma SumOfThree(counts: seq<int>)
    requires |counts| == 3
    ensures Sum(counts) == counts[0] + counts[1] + counts[2]
  {
    var a := counts[..2];
    assert Sum(counts) == Sum(a) + counts[2];
    assert Sum(a) == Sum(a[..1]) + a[1];
    assert Sum(a[..1]) == Sum(a[..1][..0]) + a[0];
  }

  /** On three boards the accepted splits are 4/2/2 and 4/4/0, in any order. */
  lemma ThreeBoardSplits(counts: seq<int>)
    requires |counts| == 3
    ensures PlacementOk(counts) <==>
      (counts[0], counts[1], counts[2]) in {(4, 2, 2), (2, 4, 2), (2, 2, 4), (4, 4, 0), (4, 0, 4), (0, 4, 4)}
  {
    SumOfThree(counts);
    var split := (counts[0], counts[1], counts[2]);
    if split in {(4, 2, 2), (2, 4, 2), (2, 2, 4), (4, 4, 0), (4, 0, 4), (0, 4, 4)} {
      if counts[0] != 4 && counts[1] != 4 {
        assert counts[2] == 4;
      }
    }
  }

  // ---------------------------------------------------------------------------
  // Payouts

  /** Player 1's and player 2's winnings from the pot given the winner of each board
      (1, 2, or 0 for a tie). */
  datatype Payout = Payout(p1: int, p2: int)

  function CountWins(winners: seq<int>, w: int): nat {
    if winners == [] then 0 else CountWins(winners[..|winners| - 1], w) + (if winners[|winners| - 1] == w then 1 else 0)
  }

  /** The split without a sweep: each board pays its subpot to the winner, half of it to each
      player on a tie. */
  function BoardShares(winners: seq<int>, subpot: int): Payout {
    if winners == [] then Payout(0, 0)
    else
      var rest := BoardShares(winners[..|winners| - 1], subpot);
      var w := winners[|winners| - 1];
      if w == 1 then Payout(rest.p1 + subpot, rest.p2)
      else if w == 2 then Payout(rest.p1, rest.p2 + subpot)
      else Payout(rest.p1 + subpot / 2, rest.p2 + subpot / 2)
  }

  /** The engine's settlement of the pot over three boards. */
  function Settle(pot: int, winners: seq<int>): Payout {
    if CountWins(winners, 1) == 3 then Payout(pot * 2, 0)
    else if CountWins(winners, 2) == 3 then Payout(0, pot * 2)
    else
      var shares := BoardShares(winners, pot / 3);
      var remainder := pot - (shares.p1 + shares.p2);
      if remainder > 0 then Payout(shares.p1 + remainder, shares.p2) else shares
  }

  /** n subpots: what n boards pay out at most. */
  function Subpots(n: nat, subpot: int): int {
    if n == 0 then 0 else Subpots(n - 1, subpot) + subpot
  }

  /** Without a sweep the shares never exceed the subpots paid out. */
  lemma {:induction false} SharesBound(winners: seq<int>, subpot: int)
    ensures BoardShares(winners, subpot).p1 + BoardShares(winners, subpot).p2 <= Subpots(|winners|, subpot)
  {
    if winners != [] {
      SharesBound(winners[..|winners| - 1], subpot);
      assert subpot / 2 + subpot / 2 <= subpot;
    }
  }

  lemma {:induction false} WinsBound(winners: seq<int>)
    ensures CountWins(winners, 1) + CountWins(winners, 2) <= |winners|
  {
    if winners != [] {
      WinsBound(winners[..|winners| - 1]);
    }
  }

  /** A sweep pays double the pot to the sweeper; otherwise the whole pot, and only the pot,
      is shared out, any remainder going to player 1. */
  lemma SettleSplitsPot(pot: int, winners: seq<int>)
    requires |winners| == 3
    ensures CountWins(winners, 1) == 3 ==> Settle(pot, winners) == Payout(2 * pot, 0)
    ensures CountWins(winners, 2) == 3 ==> Settle(pot, winners) == Payout(0, 2 * pot)
    ensures CountWins(winners, 1) < 3 && CountWins(winners, 2) < 3 ==>
      Settle(pot, winners).p1 + Settle(pot, winners).p2 == pot
    ensures CountWins(winners, 1) < 3 && CountWins(winners, 2) < 3 ==>
      Settle(pot, winners).p1 >= BoardShares(winners, pot / 3).p1 &&
      Settle(pot, winners).p2 == BoardShares(winners, pot / 3).p2
  {
    SharesBound(winners, pot / 3);
    assert Subpots(1, pot / 3) == pot / 3;
    assert Subpots(3, pot / 3) == 3 * (pot / 3);
    WinsBound(winners);
    assert 3 * (pot / 3) <= pot;
  }

  /** Two worked settlements: a pot of 300 with boards won by player 1 and player 2 and one tie,
      and a pot of 301 with three ties, whose odd chip goes to player 1. */
  lemma SettleExamples()
    ensures Settle(300, [1, 2, 0]) == Payout(150, 150)
    ensures Settle(301, [0, 0, 0]) == Payout(151, 150)
    ensures Settle(100, [2, 2, 2]) == Payout(0, 200)
  {
    assert [1, 2, 0][..2] == [1, 2] && [1, 2][..1] == [1] && [1][..0] == [];
    assert CountWins([1, 2, 0], 1) == 1 && CountWins([1, 2, 0], 2) == 1;
    assert BoardShares([1, 2, 0], 100) == Payout(150, 150);
    assert [0, 0, 0][..2] == [0, 0] && [0, 0][..1] == [0] && [0][..0] == [];
    assert CountWins([0, 0, 0], 1) == 0 && CountWins([0, 0, 0], 2) == 0;
    assert BoardShares([0, 0, 0], 100) == Payout(150, 150);
    assert [2, 2, 2][..2] == [2, 2] && [2, 2][..1] == [2] && [2][..0] == [];
    assert CountWins([2, 2, 2], 1) == 0 && CountWins([2, 2, 2], 2) == 3;
  }

  // ---------------------------------------------------------------------------
  // What a viewer is shown

  /** A card as sent to a viewer: its face, or a card back. */
  datatype CardView = Shown(card: Card) | Hidden

  datatype BoardView = BoardView(id: char, display: BoardType, actual: BoardType,
                                 community: seq<Card>, p1Cards: seq<CardView>, p2Cards: seq<CardView>)

  datatype PlayerView = PlayerView(id: int, name: string, bankroll: int, bet: int, hand: seq<Card>, ready: bool)

  function ShowAll(cards: seq<Card>): (r: seq<CardView>)
    ensures |r| == |cards| && forall i :: 0 <= i < |cards| ==> r[i] == Shown(cards[i])
  {
    seq(|cards|, i requires 0 <= i < |cards| => Shown(cards[i]))
  }

  function HideAll(cards: seq<Card>): (r: seq<CardView>)
    ensures |r| == |cards| && forall i :: 0 <= i < |cards| ==> r[i] == Hidden
  {
    seq(|cards|, i requires 0 <= i < |cards| => Hidden)
  }

  /** The type shown to a viewer: a board that is one player's four-card board reads as PLO to
      that player and as hold'em to anyone else; a shared one reads as PLO. */
  function DisplayType(kind: BoardType, viewer: Option<int>): BoardType {
    if kind == BothPlo then Plo
    else if kind == P1Plo || kind == P2Plo then
      if viewer == Some(1) && kind == P1Plo then Plo
      else if viewer == Some(2) && kind == P2Plo then Plo
      else Nlhe
    else kind
  }

  /** The shown type is pending, PLO or hold'em: a one-player four-card board reads as PLO to
      its owner only, a shared one as PLO to everyone, and the others as they are. */
  lemma DisplayTypeMeaning(kind: BoardType, viewer: Option<int>)
    ensures DisplayType(kind, viewer) in {Pending, Plo, Nlhe}
    ensures kind == BothPlo ==> DisplayType(kind, viewer) == Plo
    ensures kind == P1Plo ==> (DisplayType(kind, viewer) == Plo <==> viewer == Some(1))
    ensures kind == P2Plo ==> (DisplayType(kind, viewer) == Plo <==> viewer == Some(2))
    ensures kind in {Pending, Plo, Nlhe} ==> DisplayType(kind, viewer) == kind
  {
  }

  /** Card faces on the boards are public once the showdown starts; before that a player sees
      only their own side and an observer sees only card backs. */
  function ViewBoard(b: Board, phase: Phase, viewer: Option<int>): BoardView {
    var revealed := phase == Showdown || phase == Complete;
    BoardView(b.id, DisplayType(b.kind, viewer), b.kind, b.community,
              if revealed || viewer == Some(1) then ShowAll(b.p1Cards) else HideAll(b.p1Cards),
              if revealed || viewer == Some(2) then ShowAll(b.p2Cards) else HideAll(b.p2Cards))
  }

  /** A hand is shown to its owner, and to everyone once the game is complete; otherwise it is
      sent as an empty list. */
  function ViewPlayer(p: Player, pid: int, phase: Phase, viewer: Option<int>): PlayerView {
    var hidden := viewer != Some(pid) && phase != Complete;
    PlayerView(p.id, p.name, p.bankroll, p.bet, if hidden then [] else p.hand, p.ready)
  }

  /** The view of player pid's side of a board. */
  function SideView(v: BoardView, pid: int): seq<CardView> {
    if pid == 1 then v.p1Cards else v.p2Cards
  }

  /** The side of a board a viewer sees face up is exactly the one the rules allow, and a hidden
      side still shows how many cards it has. */
  lemma ViewBoardMeaning(b: Board, phase: Phase, viewer: Option<int>, pid: int)
    requires pid == 1 || pid == 2
    ensures |SideView(ViewBoard(b, phase, viewer), pid)| == |SideOf(b, pid)|
    ensures ViewBoard(b, phase, viewer).community == b.community
    ensures phase == Showdown || phase == Complete || viewer == Some(pid) ==>
      forall i :: 0 <= i < |SideOf(b, pid)| ==> SideView(ViewBoard(b, phase, viewer), pid)[i] == Shown(SideOf(b, pid)[i])
    ensures !(phase == Showdown || phase == Complete || viewer == Some(pid)) ==>
      forall i :: 0 <= i < |SideOf(b, pid)| ==> SideView(ViewBoard(b, phase, viewer), pid)[i] == Hidden
  {
  }

  lemma ViewPlayerMeaning(p: Player, pid: int, phase: Phase, viewer: Option<int>)
    ensures ViewPlayer(p, pid, phase, viewer).hand ==
      if viewer == Some(pid) || phase == Complete then p.hand else []
    ensures ViewPlayer(p, pid, phase, viewer).bankroll == p.bankroll
  {
  }
}
