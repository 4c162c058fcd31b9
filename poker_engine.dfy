// The Eight Cards Poker game engine: one room's players, boards, deck, pot and phase, updated
// in place by the engine's operations.

module PokerEngine {
  import opened Cards
  import opened Permutations
  import opened Evaluation
  import opened Options
  import opened PokerTable

  /** What removing a card from, or adding one to, a location did. */
  datatype Step = Done | Failed | Raises

  /** The showdown summary the engine returns. */
  datatype ShowdownResult = ShowdownResult(results: seq<BoardResult>, p1Total: int, p2Total: int,
                                           sweepBonus: bool, bankroll1: int, bankroll2: int)

  /** The game state as sent to one viewer. */
  datatype GameView = GameView(roomId: string, phase: Phase, currentPlayer: int, pot: int,
                               boards: seq<BoardView>, players: map<int, PlayerView>)

  /** Every board's showdown, in board order. */
  function ResultsFor(boards: seq<Board>, subpot: int): seq<BoardResult> {
    Map(b => ResultFor(b, subpot), boards)
  }

  /** Entry k of the showdown results is the showdown of board k. */
  lemma ResultsForAt(boards: seq<Board>, subpot: int, k: nat)
    requires k < |boards|
    ensures |ResultsFor(boards, subpot)| == |boards|
    ensures ResultsFor(boards, subpot)[k] == ResultFor(boards[k], subpot)
  {
    MapAt(b => ResultFor(b, subpot), boards, k);
  }

  /** f applied to every element, built front to back. */
  function Map<A, B>(f: A -> B, s: seq<A>): (r: seq<B>)
    ensures |r| == |s|
  {
    if |s| == 0 then [] else Map(f, s[..|s| - 1]) + [f(s[|s| - 1])]
  }

  lemma {:induction false} MapAt<A, B>(f: A -> B, s: seq<A>, k: nat)
    requires k < |s|
    ensures Map(f, s)[k] == f(s[k])
  {
    var n := |s| - 1;
    if k < n {
      MapAt(f, s[..n], k);
    }
  }

  lemma MapStep<A, B>(f: A -> B, s: seq<A>, k: nat)
    requires k < |s|
    ensures Map(f, s[..k + 1]) == Map(f, s[..k]) + [f(s[k])]
  {
    assert s[..k + 1][..k] == s[..k];
  }

  /** The first card with the given id, by a scan from the front. */
  method FirstIn(cards: seq<Card>, id: int) returns (r: Option<Card>)
    ensures r == FirstWithId(cards, id)
  {
    for i := 0 to |cards|
      invariant FirstWithId(cards, id) == FirstWithId(cards[i..], id)
    {
      assert cards[i..][1..] == cards[i + 1..];
      if cards[i].id == id {
        return Some(cards[i]);
      }
    }
    return None;
  }

  /** The loop of the engine's bet placement: each entry's amount moves from that player's
      bankroll to their bet, in entry order, until an entry is refused. */
  method DebitInOrder(players: map<int, Player>, bets: seq<(int, int)>) returns (ps: map<int, Player>, ok: bool)
    requires DistinctKeys(bets)
    ensures ok <==> FirstRefused(players, bets) == |bets|
    ensures forall i :: 0 <= i < FirstRefused(players, bets) ==> bets[i].0 in players
    ensures ps == Debit(players, bets[..FirstRefused(players, bets)])
    ensures forall pid :: pid in ps ==> ps[pid].id == players[pid].id
  {
    ps := players;
    for i := 0 to |bets|
      invariant i <= FirstRefused(players, bets)
      invariant ps == Debit(players, bets[..i])
      invariant forall pid :: pid in ps ==> ps[pid].id == players[pid].id
    {
      var pid := bets[i].0;
      var amount := bets[i].1;
      if pid !in ps {
        return ps, false;
      }
      NotYetDebited(players, bets, i);
      if amount > ps[pid].bankroll {
        return ps, false;
      }
      assert !Refused(players, bets[i]);
      DebitStep(players, bets, i);
      ps := ps[pid := ps[pid].(bet := amount, bankroll := ps[pid].bankroll - amount)];
    }
    assert bets[..|bets|] == bets;
    return ps, true;
  }

  /** Eight cards from the top of the deck to each player, player 1 first; both become unready. */
  method DealHands(players: map<int, Player>, deck: seq<Card>) returns (ps: map<int, Player>, rest: seq<Card>)
    requires 1 in players && 2 in players && |deck| >= 2 * HOLE_CARDS
    ensures ps == players[1 := players[1].(hand := deck[..8], ready := false)]
                         [2 := players[2].(hand := deck[8..16], ready := false)]
    ensures rest == deck[16..]
  {
    ps, rest := players, deck;
    for pid := 1 to 3
      invariant rest == deck[HOLE_CARDS * (pid - 1)..]
      invariant pid == 1 ==> ps == players
      invariant pid == 2 ==> ps == players[1 := players[1].(hand := deck[..8], ready := false)]
      invariant pid == 3 ==> ps == players[1 := players[1].(hand := deck[..8], ready := false)]
                                          [2 := players[2].(hand := deck[8..16], ready := false)]
    {
      assert Take(rest, HOLE_CARDS) == deck[HOLE_CARDS * (pid - 1)..HOLE_CARDS * pid];
      ps := ps[pid := ps[pid].(hand := Take(rest, HOLE_CARDS), ready := false)];
      rest := Drop(rest, HOLE_CARDS);
    }
  }

  /** Three community cards from the top of the deck to each board, in board order. */
  method DealFlops(boards: seq<Board>, deck: seq<Card>) returns (bs: seq<Board>, rest: seq<Card>)
    requires |deck| >= FLOP_CARDS * |boards|
    ensures |bs| == |boards|
    ensures forall k :: 0 <= k < |boards| ==> bs[k] == boards[k].(community := deck[3 * k..3 * k + 3])
    ensures rest == deck[FLOP_CARDS * |boards|..]
  {
    bs, rest := boards, deck;
    for k := 0 to |boards|
      invariant rest == deck[FLOP_CARDS * k..]
      invariant |bs| == |boards|
      invariant forall j :: 0 <= j < |boards| ==>
        bs[j] == if j < k then boards[j].(community := deck[3 * j..3 * j + 3]) else boards[j]
    {
      assert Take(rest, FLOP_CARDS) == deck[3 * k..3 * k + 3];
      bs := bs[k := bs[k].(community := Take(rest, FLOP_CARDS))];
      rest := Drop(rest, FLOP_CARDS);
    }
  }

  /** The hands, flops and remaining deck of a fresh deal are the shuffled deck cut in order. */
  lemma DealtWholeDeck(d: seq<Card>, t: Table, rest: seq<Card>)
    requires |d| == DECK_SIZE && 1 in t.players && 2 in t.players
    requires t.players[1].hand == d[..8] && t.players[2].hand == d[8..16]
    requires |t.boards| == 3
    requires forall k :: 0 <= k < 3 ==> t.boards[k] == Board(BOARD_IDS[k], Pending, d[16 + 3 * k..19 + 3 * k], [], [])
    requires rest == d[25..]
    ensures TableCards(t) + rest == d
  {
    var bs := t.boards;
    BoardCardsThree(bs);
    assert Contents(bs[0]) == d[16..19] && Contents(bs[1]) == d[19..22] && Contents(bs[2]) == d[22..25];
    assert d[16..25] == d[16..19] + d[19..22] + d[22..25];
    assert d == d[..8] + d[8..16] + d[16..25] + d[25..];
  }

  /** The cards on three boards, board by board. */
  lemma BoardCardsThree(bs: seq<Board>)
    requires |bs| == 3
    ensures BoardCards(bs) == Contents(bs[0]) + Contents(bs[1]) + Contents(bs[2])
  {
    assert bs[..1][..0] == [];
    assert BoardCards(bs[..1]) == Contents(bs[0]);
    assert bs[..2][..1] == bs[..1];
    assert BoardCards(bs[..2]) == Contents(bs[0]) + Contents(bs[1]);
    assert bs[..2] == bs[..|bs| - 1];
  }

  /** Two more community cards from the top of the deck to each board, in board order. */
  method DealPairs(boards: seq<Board>, deck: seq<Card>) returns (bs: seq<Board>, rest: seq<Card>)
    ensures bs == DealtBoards(boards, deck)
    ensures rest == Drop(deck, 2 * |boards|)
  {
    bs, rest := boards, deck;
    for k := 0 to |boards|
      invariant |bs| == |boards|
      invariant rest == Drop(deck, 2 * k)
      invariant forall j :: 0 <= j < |bs| ==>
        bs[j] == if j < k then DealtBoards(boards, deck)[j] else boards[j]
    {
      bs := bs[k := bs[k].(community := bs[k].community + Take(rest, 2))];
      DropDrop(deck, 2 * k, 2);
      rest := Drop(rest, 2);
    }
  }

  /** Each board's showdown in board order, counting the boards each player wins. */
  method EvaluateBoards(boards: seq<Board>, subpot: int) returns (results: seq<BoardResult>, p1Wins: nat, p2Wins: nat)
    ensures results == ResultsFor(boards, subpot)
    ensures p1Wins == CountWins(WinnersOf(results), 1) && p2Wins == CountWins(WinnersOf(results), 2)
  {
    results, p1Wins, p2Wins := [], 0, 0;
    for k := 0 to |boards|
      invariant results == ResultsFor(boards[..k], subpot)
      invariant p1Wins == CountWins(WinnersOf(results), 1) && p2Wins == CountWins(WinnersOf(results), 2)
    {
      var b := boards[k];
      var p1Plo := b.kind == P1Plo || b.kind == BothPlo;
      var p2Plo := b.kind == P2Plo || b.kind == BothPlo;
      var s1 := BestHand(b.p1Cards, b.community, p1Plo);
      var s2 := BestHand(b.p2Cards, b.community, p2Plo);
      var winner := Compare(s1, s2);
      if winner == 1 {
        p1Wins := p1Wins + 1;
      } else if winner == 2 {
        p2Wins := p2Wins + 1;
      }
      var result := BoardResult(b.id, b.kind, winner, s1, s2, p1Plo, p2Plo, subpot);
      assert result == ResultFor(b, subpot);
      WinsStep(results, result, 1);
      WinsStep(results, result, 2);
      ResultsStep(boards, k, subpot);
      results := results + [result];
    }
    assert boards[..|boards|] == boards;
  }

  lemma ResultsStep(boards: seq<Board>, k: nat, subpot: int)
    requires k < |boards|
    ensures ResultsFor(boards[..k + 1], subpot) == ResultsFor(boards[..k], subpot) + [ResultFor(boards[k], subpot)]
  {
    MapStep(b => ResultFor(b, subpot), boards, k);
  }

  /** One more board result adds one to its winner's count of boards won. */
  lemma WinsStep(results: seq<BoardResult>, r: BoardResult, w: int)
    ensures CountWins(WinnersOf(results + [r]), w) == CountWins(WinnersOf(results), w) + (if r.winner == w then 1 else 0)
  {
    assert WinnersOf(results + [r])[..|results|] == WinnersOf(results);
  }

  /** The payout: double the pot to a player who won all three boards; otherwise each board's
      subpot to its winner, split on a tie, and what is left of the pot to player 1. */
  method Payouts(pot: int, results: seq<BoardResult>, p1Wins: nat, p2Wins: nat) returns (p1Total: int, p2Total: int, sweep: bool)
    requires forall k :: 0 <= k < |results| ==> results[k].pot == pot / 3
    requires p1Wins == CountWins(WinnersOf(results), 1) && p2Wins == CountWins(WinnersOf(results), 2)
    ensures Payout(p1Total, p2Total) == Settle(pot, WinnersOf(results))
    ensures sweep <==> p1Wins == 3 || p2Wins == 3
  {
    var winners := WinnersOf(results);
    p1Total, p2Total, sweep := 0, 0, false;
    if p1Wins == 3 {
      p1Total := pot * 2;
      sweep := true;
    } else if p2Wins == 3 {
      p2Total := pot * 2;
      sweep := true;
    } else {
      for k := 0 to |results|
        invariant Payout(p1Total, p2Total) == BoardShares(winners[..k], pot / 3)
      {
        assert winners[..k + 1][..k] == winners[..k];
        if results[k].winner == 1 {
          p1Total := p1Total + results[k].pot;
        } else if results[k].winner == 2 {
          p2Total := p2Total + results[k].pot;
        } else {
          p1Total := p1Total + results[k].pot / 2;
          p2Total := p2Total + results[k].pot / 2;
        }
      }
      assert winners[..|results|] == winners;
      var remainder := pot - (p1Total + p2Total);
      if remainder > 0 {
        p1Total := p1Total + remainder;
      }
    }
  }

  /** The showdown of all boards and its payout, as the engine computes them. */
  method SettleBoards(boards: seq<Board>, pot: int) returns (results: seq<BoardResult>, p1Total: int, p2Total: int, sweep: bool)
    ensures results == ResultsFor(boards, pot / 3)
    ensures Payout(p1Total, p2Total) == Settle(pot, WinnersOf(results))
    ensures sweep == (CountWins(WinnersOf(results), 1) == 3 || CountWins(WinnersOf(results), 2) == 3)
  {
    var p1Wins, p2Wins;
    results, p1Wins, p2Wins := EvaluateBoards(boards, pot / 3);
    forall k | 0 <= k < |results|
      ensures results[k].pot == pot / 3
    {
      ResultsForAt(boards, pot / 3, k);
    }
    p1Total, p2Total, sweep := Payouts(pot, results, p1Wins, p2Wins);
  }

  /** Both seated players with their payouts added to their bankrolls. */
  function Credited(players: map<int, Player>, p1Total: int, p2Total: int): (r: map<int, Player>)
    requires 1 in players && 2 in players
    ensures r.Keys == players.Keys
    ensures r[1] == players[1].(bankroll := players[1].bankroll + p1Total)
    ensures r[2] == players[2].(bankroll := players[2].bankroll + p2Total)
    ensures forall pid :: pid in players && pid != 1 && pid != 2 ==> r[pid] == players[pid]
  {
    players[1 := players[1].(bankroll := players[1].bankroll + p1Total)]
           [2 := players[2].(bankroll := players[2].bankroll + p2Total)]
  }

  /** The first pass of the engine's type inference: every board back to pending. */
  method ResetTypes(boards: seq<Board>) returns (bs: seq<Board>)
    ensures |bs| == |boards| && forall j :: 0 <= j < |bs| ==> bs[j] == boards[j].(kind := Pending)
  {
    bs := boards;
    for k := 0 to |bs|
      invariant |bs| == |boards|
      invariant forall j :: 0 <= j < |bs| ==> bs[j] == boards[j].(kind := if j < k then Pending else boards[j].kind)
    {
      bs := bs[k := bs[k].(kind := Pending)];
    }
  }

  /** The second pass: the last board on which each player has four cards. */
  method FourCardBoards(boards: seq<Board>) returns (p1: Option<nat>, p2: Option<nat>)
    ensures p1 == LastFour(boards, 1) && p2 == LastFour(boards, 2)
  {
    p1, p2 := None, None;
    for k := 0 to |boards|
      invariant p1 == LastFour(boards[..k], 1) && p2 == LastFour(boards[..k], 2)
    {
      LastFourStep(boards, k, 1);
      LastFourStep(boards, k, 2);
      if |boards[k].p1Cards| == 4 {
        p1 := Some(k);
      }
      if |boards[k].p2Cards| == 4 {
        p2 := Some(k);
      }
    }
    assert boards[..|boards|] == boards;
  }

  /** The engine's inference of board types: every board reset to pending, a scan for each
      player's last four-card board, then each board typed from those two. */
  method InferTypes(boards: seq<Board>) returns (bs: seq<Board>)
    ensures bs == Retyped(boards)
  {
    bs := ResetTypes(boards);
    assert Counts(bs, 1) == Counts(boards, 1) && Counts(bs, 2) == Counts(boards, 2);
    LastFourByCounts(bs, boards, 1);
    LastFourByCounts(bs, boards, 2);
    var p1, p2 := FourCardBoards(bs);
    for k := 0 to |bs|
      invariant |bs| == |boards|
      invariant forall j :: 0 <= j < |bs| ==>
        bs[j] == boards[j].(kind := if j < k then KindAt(j, p1, p2) else Pending)
    {
      bs := bs[k := bs[k].(kind := KindAt(k, p1, p2))];
    }
  }

  /** The board part of the engine's card lookup: each board's player 1 then player 2 cards, in
      board order. */
  method SearchBoards(boards: seq<Board>, id: int) returns (r: Option<Card>)
    ensures r == FirstWithId(SideCards(boards), id)
  {
    for k := 0 to |boards|
      invariant FirstWithId(SideCards(boards[..k]), id) == None
    {
      SideCardsStep(boards, k);
      FirstWithIdAppend(SideCards(boards[..k]), boards[k].p1Cards + boards[k].p2Cards, id);
      r := FirstIn(boards[k].p1Cards + boards[k].p2Cards, id);
      if r.Some? {
        SideCardsPrefix(boards, k + 1);
        FirstWithIdAppend(SideCards(boards[..k + 1]), SideCards(boards[k + 1..]), id);
        return;
      }
    }
    assert boards[..|boards|] == boards;
    return None;
  }

  /** The engine's removal of a card from a location: a hand loses the card if it holds it; a
      "board-<id>" location names a board whose side of player pid loses it; reading the board id
      of a "board" location without '-' raises; anything else is refused. */
  method RemoveAt(t: Table, card: Card, loc: string, pid: int) returns (st: Step, u: Table)
    ensures st == Raises <==> ParseLocation(loc) == BoardWithoutId
    ensures st == Done <==>
      && SlotOf(ParseLocation(loc)).Some?
      && SlotExists(t, SlotOf(ParseLocation(loc)).value, pid)
      && card in SlotCards(t, SlotOf(ParseLocation(loc)).value, pid)
    ensures st == Done ==> u == TakeOut(t, SlotOf(ParseLocation(loc)).value, pid, card)
    ensures st != Done ==> u == t
  {
    u := t;
    match ParseLocation(loc)
    case HandLoc =>
      if pid in t.players && card in t.players[pid].hand {
        u := t.(players := t.players[pid := t.players[pid].(hand := RemoveFirst(t.players[pid].hand, card))]);
        return Done, u;
      }
      return Failed, u;
    case BoardLoc(id) =>
      var k := BoardIndex(id);
      if k.Some? && k.value < |t.boards| {
        var cards := SideOf(t.boards[k.value], pid);
        if card in cards {
          u := t.(boards := t.boards[k.value := WithSide(t.boards[k.value], pid, RemoveFirst(cards, card))]);
          return Done, u;
        }
      }
      return Failed, u;
    case BoardWithoutId =>
      return Raises, u;
    case Elsewhere =>
      return Failed, u;
  }

  /** The engine's placement of a card at a location: a hand takes any card; a board side takes
      one unless it already holds four; reading the board id of a "board" location without '-'
      raises; anything else is refused. */
  method AddAt(t: Table, card: Card, loc: string, pid: int) returns (st: Step, u: Table)
    ensures st == Raises <==> ParseLocation(loc) == BoardWithoutId
    ensures st == Done <==>
      && SlotOf(ParseLocation(loc)).Some?
      && SlotExists(t, SlotOf(ParseLocation(loc)).value, pid)
      && Fits(t, SlotOf(ParseLocation(loc)).value, pid)
    ensures st == Done ==> u == PutIn(t, SlotOf(ParseLocation(loc)).value, pid, card)
    ensures st != Done ==> u == t
  {
    u := t;
    match ParseLocation(loc)
    case HandLoc =>
      if pid in t.players {
        u := t.(players := t.players[pid := t.players[pid].(hand := t.players[pid].hand + [card])]);
        return Done, u;
      }
      return Failed, u;
    case BoardLoc(id) =>
      var k := BoardIndex(id);
      if k.Some? && k.value < |t.boards| {
        var cards := SideOf(t.boards[k.value], pid);
        if |cards| >= MAX_SIDE {
          return Failed, u;
        }
        u := t.(boards := t.boards[k.value := WithSide(t.boards[k.value], pid, cards + [card])]);
        return Done, u;
      }
      return Failed, u;
    case BoardWithoutId =>
      return Raises, u;
    case Elsewhere =>
      return Failed, u;
  }

  /** The placement check over the boards: every side of player pid holds 0, 2 or 4 cards (a
      side with another count fails at once), the sides hold eight cards in all, and at least one
      holds four. */
  method CheckSides(boards: seq<Board>, pid: int) returns (r: bool)
    ensures r <==> PlacementOk(Counts(boards, pid))
  {
    r := CheckCounts(Counts(boards, pid));
  }

  /** The placement check over the per-board counts, in board order. */
  method CheckCounts(counts: seq<int>) returns (r: bool)
    ensures r <==> PlacementOk(counts)
  {
    var total := 0;
    var hasPlo := false;
    for k := 0 to |counts|
      invariant total == Sum(counts[..k])
      invariant hasPlo <==> 4 in counts[..k]
      invariant forall j :: 0 <= j < k ==> AllowedCount(counts[j])
    {
      SumStep(counts, k);
      var count := counts[k];
      total := total + count;
      if count == 4 {
        hasPlo := true;
      } else if count != 2 && count != 0 {
        return false;
      }
    }
    assert counts[..|counts|] == counts;
    return total == HOLE_CARDS && hasPlo;
  }

  class GameEngine {
    var roomId: string
    var players: map<int, Player>
    var boards: seq<Board>
    var deck: seq<Card>
    var phase: Phase
    var currentPlayer: int
    var pot: int

    /** Seats 1 and 2, boards A, B and C in that order, at most four cards per side, and both
        players seated once the hand is under way. */
    ghost predicate Valid()
      reads this
    {
      && (forall pid :: pid in players ==> (pid == 1 || pid == 2) && players[pid].id == pid)
      && |boards| == 3 && (forall k :: 0 <= k < 3 ==> boards[k].id == BOARD_IDS[k])
      && SidesFit(boards)
      && (currentPlayer == 1 || currentPlayer == 2)
      && (phase == Placing || phase == Showdown || phase == Complete ==> 1 in players && 2 in players)
    }

    /** The players and boards together. */
    function Layout(): Table
      reads this
    {
      Table(players, boards)
    }

    constructor(room: string)
      ensures Valid()
      ensures roomId == room && players == map[] && boards == FreshBoards() && deck == []
      ensures phase == Waiting && currentPlayer == 1 && pot == 0
    {
      roomId := room;
      players := map[];
      boards := FreshBoards();
      deck := [];
      phase := Waiting;
      currentPlayer := 1;
      pot := 0;
    }

    /** Seats a new player in the lowest free seat with the starting bankroll, unless two are
        already seated. */
    method AddPlayer(sessionId: string, name: string) returns (r: Option<int>)
      requires Valid()
      modifies this
      ensures Valid()
      ensures |old(players)| >= 2 ==> r == None && players == old(players)
      ensures |old(players)| < 2 ==>
        && r == Some(if 1 in old(players) then 2 else 1)
        && r.value !in old(players)
        && players == old(players)[r.value := Player(r.value, name, sessionId, STARTING_BANKROLL, 0, [], false)]
      ensures boards == old(boards) && deck == old(deck) && phase == old(phase)
      ensures currentPlayer == old(currentPlayer) && pot == old(pot) && roomId == old(roomId)
    {
      Seats(players);
      if |players| >= 2 {
        return None;
      }
      var pid := if 1 !in players then 1 else 2;
      players := players[pid := Player(pid, name, sessionId, STARTING_BANKROLL, 0, [], false)];
      return Some(pid);
    }

    /** Moves each entry's amount from the player's bankroll to their bet, in entry order,
        stopping at the first unknown player or unaffordable amount (earlier entries stay
        debited); on success the pot becomes the sum of the bets. */
    method PlaceBets(bets: seq<(int, int)>) returns (ok: bool)
      requires Valid() && DistinctKeys(bets)
      modifies this
      ensures Valid()
      ensures ok <==> FirstRefused(old(players), bets) == |bets|
      ensures forall i :: 0 <= i < FirstRefused(old(players), bets) ==> bets[i].0 in old(players)
      ensures players == Debit(old(players), bets[..FirstRefused(old(players), bets)])
      ensures pot == if ok then BetTotal(players) else old(pot)
      ensures boards == old(boards) && deck == old(deck) && phase == old(phase)
      ensures currentPlayer == old(currentPlayer) && roomId == old(roomId)
    {
      var debited, accepted := DebitInOrder(players, bets);
      players := debited;
      if !accepted {
        return false;
      }
      pot := BetTotal(players);
      return true;
    }

    /** Starts a hand with two players seated: fresh boards, the deck built and shuffled by
        `perm`, eight cards to each player in seat order, then three community cards to each
        board in board order. */
    method StartGame(perm: seq<int>) returns (ok: bool)
      requires Valid() && IsPermutation(perm, DECK_SIZE)
      modifies this
      ensures Valid()
      ensures ok <==> |old(players)| == 2
      ensures ok <==> 1 in old(players) && 2 in old(players)
      ensures !ok ==> players == old(players) && boards == old(boards) && deck == old(deck)
      ensures !ok ==> phase == old(phase) && currentPlayer == old(currentPlayer)
      ensures ok ==>
        var d := Shuffle(FullDeck(), perm);
        && players == old(players)[1 := old(players)[1].(hand := d[..8], ready := false)]
                                  [2 := old(players)[2].(hand := d[8..16], ready := false)]
        && |boards| == 3
        && (forall k :: 0 <= k < 3 ==> boards[k] == Board(BOARD_IDS[k], Pending, d[16 + 3 * k..19 + 3 * k], [], []))
        && deck == d[25..]
        && phase == Placing && currentPlayer == 1
      ensures ok ==> TableCards(Layout()) + deck == Shuffle(FullDeck(), perm)
      ensures pot == old(pot) && roomId == old(roomId)
    {
      Seats(players);
      if |players| != 2 {
        return false;
      }
      var created := CreateDeck();
      var d := Shuffle(created, perm);
      assert d == Shuffle(FullDeck(), perm);
      var ps, afterHands := DealHands(players, d);
      var bs, rest := DealFlops(FreshBoards(), afterHands);
      players, boards, deck := ps, bs, rest;
      phase := Placing;
      currentPlayer := 1;
      DealtWholeDeck(d, Layout(), deck);
      return true;
    }

    /** The engine's lookup of a card id: both hands in seat order, then each board's player 1
        and player 2 cards. Community cards and the deck are not searched. */
    method FindCardById(cardId: int) returns (r: Option<Card>)
      requires Valid()
      ensures r == FirstWithId(SearchOrder(Layout()), cardId)
    {
      var t := Layout();
      FirstWithIdAppend(HandOf(t, 1) + HandOf(t, 2), SideCards(boards), cardId);
      FirstWithIdAppend(HandOf(t, 1), HandOf(t, 2), cardId);
      if 1 in players {
        r := FirstIn(players[1].hand, cardId);
        if r.Some? {
          return;
        }
      }
      if 2 in players {
        r := FirstIn(players[2].hand, cardId);
        if r.Some? {
          return;
        }
      }
      r := SearchBoards(boards, cardId);
    }

    /** Removes a card from the location's slot of player pid (see RemoveAt). */
    method RemoveCard(card: Card, loc: string, pid: int) returns (st: Step)
      requires Valid() && (pid == 1 || pid == 2)
      modifies this
      ensures Valid()
      ensures deck == old(deck) && phase == old(phase) && currentPlayer == old(currentPlayer)
      ensures pot == old(pot) && roomId == old(roomId)
      ensures st == Raises <==> ParseLocation(loc) == BoardWithoutId
      ensures st == Done <==>
        && SlotOf(ParseLocation(loc)).Some?
        && SlotExists(old(Layout()), SlotOf(ParseLocation(loc)).value, pid)
        && card in SlotCards(old(Layout()), SlotOf(ParseLocation(loc)).value, pid)
      ensures st == Done ==> Layout() == TakeOut(old(Layout()), SlotOf(ParseLocation(loc)).value, pid, card)
      ensures st != Done ==> Layout() == old(Layout())
    {
      var u;
      st, u := RemoveAt(Layout(), card, loc, pid);
      if st == Done {
        TakeOutKeepsSidesFit(Layout(), pid, card, SlotOf(ParseLocation(loc)).value);
        players, boards := u.players, u.boards;
      }
    }

    /** Appends a card to the location's slot of player pid (see AddAt). */
    method AddCard(card: Card, loc: string, pid: int) returns (st: Step)
      requires Valid() && (pid == 1 || pid == 2)
      modifies this
      ensures Valid()
      ensures deck == old(deck) && phase == old(phase) && currentPlayer == old(currentPlayer)
      ensures pot == old(pot) && roomId == old(roomId)
      ensures st == Raises <==> ParseLocation(loc) == BoardWithoutId
      ensures st == Done <==>
        && SlotOf(ParseLocation(loc)).Some?
        && SlotExists(old(Layout()), SlotOf(ParseLocation(loc)).value, pid)
        && Fits(old(Layout()), SlotOf(ParseLocation(loc)).value, pid)
      ensures st == Done ==> Layout() == PutIn(old(Layout()), SlotOf(ParseLocation(loc)).value, pid, card)
      ensures st != Done ==> Layout() == old(Layout())
    {
      var u;
      st, u := AddAt(Layout(), card, loc, pid);
      if st == Done {
        PutInKeepsSidesFit(Layout(), pid, card, SlotOf(ParseLocation(loc)).value);
        players, boards := u.players, u.boards;
      }
    }

    /** Moves a card for the player whose turn it is (see MoveOn); outside the placing phase or
        out of turn the move is refused and nothing changes. */
    method MoveCard(pid: int, cardId: int, from: string, to: string) returns (outcome: MoveOutcome)
      requires Valid()
      modifies this
      ensures Valid()
      ensures deck == old(deck) && phase == old(phase) && currentPlayer == old(currentPlayer)
      ensures pot == old(pot) && roomId == old(roomId)
      ensures old(phase) != Placing || pid != old(currentPlayer) ==> outcome == Rejected && Layout() == old(Layout())
      ensures old(phase) == Placing && pid == old(currentPlayer) ==>
        (outcome, Layout()) == MoveOn(old(Layout()), pid, cardId, from, to)
    {
      if phase != Placing {
        return Rejected;
      }
      if pid != currentPlayer {
        return Rejected;
      }
      outcome := MoveInTurn(pid, cardId, from, to);
    }

    /** A card move by the player whose turn it is, in the placing phase (see MoveOn). */
    method MoveInTurn(pid: int, cardId: int, from: string, to: string) returns (outcome: MoveOutcome)
      requires Valid() && phase == Placing && pid == currentPlayer
      modifies this
      ensures Valid()
      ensures deck == old(deck) && phase == old(phase) && currentPlayer == old(currentPlayer)
      ensures pot == old(pot) && roomId == old(roomId)
      ensures (outcome, Layout()) == MoveOn(old(Layout()), pid, cardId, from, to)
    {
      ghost var t0 := Layout();
      var found := FindCardById(cardId);
      if found.None? {
        return Rejected;
      }
      var card := found.value;
      var removed := RemoveCard(card, from, pid);
      if removed == Raises {
        return Raised;
      }
      if removed == Failed {
        return Rejected;
      }
      ghost var src := SlotOf(ParseLocation(from)).value;
      assert Layout() == Lifted(t0, pid, cardId, from);
      var added := AddCard(card, to, pid);
      if added == Raises {
        return Raised;
      }
      if added == Failed {
        LiftLeavesRoom(t0, pid, card, src);
        var back := AddCard(card, from, pid);
        assert back == Done;
        return Rejected;
      }
      DetermineBoardTypes();
      return Moved;
    }

    /** Infers every board's type from where the players put four cards: each board is first
        reset to pending, then typed by whose last four-card board it is. */
    method DetermineBoardTypes()
      requires Valid()
      modifies this
      ensures Valid()
      ensures boards == Retyped(old(boards))
      ensures players == old(players) && deck == old(deck) && phase == old(phase)
      ensures currentPlayer == old(currentPlayer) && pot == old(pot) && roomId == old(roomId)
    {
      ghost var before := boards;
      boards := InferTypes(boards);
      forall k, q | 0 <= k < |boards| && q in {1, 2}
        ensures |SideOf(boards[k], q)| <= MAX_SIDE
      {
        assert SideOf(boards[k], q) == SideOf(before[k], q);
      }
    }

    /** Whether player pid's placement is complete: seated, and 0, 2 or 4 cards on every board,
        eight in all, with a four-card board. */
    method ValidatePlacement(pid: int) returns (r: bool)
      requires Valid()
      ensures r <==> pid in players && PlacementOk(Counts(boards, pid))
    {
      if pid !in players {
        return false;
      }
      r := CheckSides(boards, pid);
    }

    /** Confirms the placement of the player whose turn it is. Player 1's confirmation passes the
        turn to player 2; player 2's starts the showdown and deals the turn and river. */
    method ConfirmPlacement(pid: int) returns (ok: bool)
      requires Valid()
      modifies this
      ensures Valid()
      ensures ok <==> old(phase) == Placing && pid == old(currentPlayer) && PlacementOk(Counts(old(boards), pid))
      ensures !ok ==> players == old(players) && boards == old(boards) && deck == old(deck)
      ensures !ok ==> phase == old(phase) && currentPlayer == old(currentPlayer)
      ensures ok ==> players == old(players)[pid := old(players)[pid].(ready := true)]
      ensures ok && old(currentPlayer) == 1 ==>
        currentPlayer == 2 && phase == Placing && boards == old(boards) && deck == old(deck)
      ensures ok && old(currentPlayer) == 2 ==>
        && currentPlayer == 2 && phase == Showdown
        && boards == DealtBoards(old(boards), old(deck)) && deck == Drop(old(deck), 2 * |old(boards)|)
      ensures pot == old(pot) && roomId == old(roomId)
    {
      if phase != Placing {
        return false;
      }
      if pid != currentPlayer {
        return false;
      }
      var valid := ValidatePlacement(pid);
      if !valid {
        return false;
      }
      MarkReady(pid);
      return true;
    }

    /** Marks the player whose turn it is as ready, then passes the turn to player 2 or, after
        player 2, starts the showdown and deals the turn and river. */
    method MarkReady(pid: int)
      requires Valid() && phase == Placing && pid == currentPlayer
      modifies this
      ensures Valid()
      ensures players == old(players)[pid := old(players)[pid].(ready := true)]
      ensures old(currentPlayer) == 1 ==>
        currentPlayer == 2 && phase == Placing && boards == old(boards) && deck == old(deck)
      ensures old(currentPlayer) == 2 ==>
        && currentPlayer == 2 && phase == Showdown
        && boards == DealtBoards(old(boards), old(deck)) && deck == Drop(old(deck), 2 * |old(boards)|)
      ensures pot == old(pot) && roomId == old(roomId)
    {
      players := players[pid := players[pid].(ready := true)];
      if currentPlayer == 1 {
        currentPlayer := 2;
      } else {
        phase := Showdown;
        DealTurnRiver();
      }
    }

    /** Deals two more community cards to each board in board order, from the top of the deck. */
    method DealTurnRiver()
      requires Valid()
      modifies this
      ensures Valid()
      ensures boards == DealtBoards(old(boards), old(deck))
      ensures deck == Drop(old(deck), 2 * |old(boards)|)
      ensures players == old(players) && phase == old(phase)
      ensures currentPlayer == old(currentPlayer) && pot == old(pot) && roomId == old(roomId)
    {
      ghost var before := boards;
      boards, deck := DealPairs(boards, deck);
      forall k, q | 0 <= k < |boards| && q in {1, 2}
        ensures |SideOf(boards[k], q)| <= MAX_SIDE
      {
        assert SideOf(boards[k], q) == SideOf(before[k], q);
      }
    }

    /** Settles the hand in the showdown phase: each board's best hands and winner, then the
        payout (double the pot to a player who wins all three boards, otherwise a third of the
        pot per board with ties split and any remainder to player 1), credited to the bankrolls.
        Outside the showdown nothing happens. */
    method CalculateShowdown() returns (r: Option<ShowdownResult>)
      requires Valid()
      modifies this
      ensures Valid()
      ensures old(phase) != Showdown ==> r == None && players == old(players) && phase == old(phase)
      ensures old(phase) == Showdown ==>
        && r.Some? && phase == Complete
        && r.value.results == ResultsFor(old(boards), old(pot) / 3)
        && Payout(r.value.p1Total, r.value.p2Total) == Settle(old(pot), WinnersOf(r.value.results))
        && r.value.sweepBonus == (CountWins(WinnersOf(r.value.results), 1) == 3 || CountWins(WinnersOf(r.value.results), 2) == 3)
        && players == Credited(old(players), r.value.p1Total, r.value.p2Total)
        && r.value.bankroll1 == players[1].bankroll && r.value.bankroll2 == players[2].bankroll
      ensures boards == old(boards) && deck == old(deck) && currentPlayer == old(currentPlayer)
      ensures pot == old(pot) && roomId == old(roomId)
    {
      if phase != Showdown {
        return None;
      }
      var results, p1Total, p2Total, sweep := SettleBoards(boards, pot);
      players := Credited(players, p1Total, p2Total);
      phase := Complete;
      r := Some(ShowdownResult(results, p1Total, p2Total, sweep, players[1].bankroll, players[2].bankroll));
    }

    /** The state as sent to a viewer (player 1, player 2, or an observer): board types as that
        viewer should read them, the other side's cards as card backs until the showdown, and the
        opponent's hand empty until the game is complete. */
    function GameState(viewer: Option<int>): (v: GameView)
      reads this
      ensures |v.boards| == |boards| && v.players.Keys == players.Keys
      ensures forall pid :: pid in players ==>
        v.players[pid].hand == if viewer == Some(pid) || phase == Complete then players[pid].hand else []
      ensures forall k :: 0 <= k < |boards| ==>
        && v.boards[k].display == DisplayType(boards[k].kind, viewer)
        && v.boards[k].community == boards[k].community
        && |v.boards[k].p1Cards| == |boards[k].p1Cards| && |v.boards[k].p2Cards| == |boards[k].p2Cards|
      ensures forall k :: 0 <= k < |boards| && (phase == Showdown || phase == Complete || viewer == Some(1)) ==>
        v.boards[k].p1Cards == ShowAll(boards[k].p1Cards)
      ensures forall k :: 0 <= k < |boards| && !(phase == Showdown || phase == Complete || viewer == Some(1)) ==>
        v.boards[k].p1Cards == HideAll(boards[k].p1Cards)
      ensures forall k :: 0 <= k < |boards| && (phase == Showdown || phase == Complete || viewer == Some(2)) ==>
        v.boards[k].p2Cards == ShowAll(boards[k].p2Cards)
      ensures forall k :: 0 <= k < |boards| && !(phase == Showdown || phase == Complete || viewer == Some(2)) ==>
        v.boards[k].p2Cards == HideAll(boards[k].p2Cards)
    {
      GameView(roomId, phase, currentPlayer, pot, ViewBoards(boards, phase, viewer), ViewPlayers(players, phase, viewer))
    }
  }

  function ViewBoards(boards: seq<Board>, phase: Phase, viewer: Option<int>): (r: seq<BoardView>)
    ensures |r| == |boards| && forall k :: 0 <= k < |boards| ==> r[k] == ViewBoard(boards[k], phase, viewer)
  {
    seq(|boards|, k requires 0 <= k < |boards| => ViewBoard(boards[k], phase, viewer))
  }

  function ViewPlayers(players: map<int, Player>, phase: Phase, viewer: Option<int>): (r: map<int, PlayerView>)
    ensures r.Keys == players.Keys
    ensures forall pid :: pid in players ==> r[pid] == ViewPlayer(players[pid], pid, phase, viewer)
  {
    map pid | pid in players :: ViewPlayer(players[pid], pid, phase, viewer)
  }
}
