// The shared-grid engine: both seats drop the pieces of one queue on a single grid,
// taking strictly alternating turns. A seat on turn places the current piece; when its
// deadline passes, a move is chosen for it automatically.

module Shared {
  import opened Options
  import opened Tetris
  import opened TetrisRules

  datatype Phase = Lobby | Playing | Showdown

  /** The outcome of a placement: rejected for the phase, for a player who is not on
      turn or for the column, or accepted. */
  datatype PlaceOutcome = WrongPhase | NotYourTurn | InvalidColumn | Ok

  // ---------------------------------------------------------------------------
  // The game as a value

  /** Everything the game keeps, apart from the deadline: the phase, the queue and the
      current piece, the seat on turn, the shared grid and each seat's score sheet. */
  datatype SharedState = SharedState(
    phase: Phase, queue: seq<char>, pieceIdx: int, turn: SeatId,
    grid: seq<Row>, players: map<SeatId, Stats>)

  /** The invariant of a game: a grid of HEIGHT rows of WIDTH cells with no full row, a
      queue of tetrominoes, a score sheet for each seat (the one on turn included), and a
      current piece while the game is played from a non-empty queue. */
  predicate Good(s: SharedState) {
    && WellFormed(s.grid) && NoFullRow(s.grid)
    && (forall i :: 0 <= i < |s.queue| ==> s.queue[i] in PIECES)
    && One in s.players && Two in s.players && s.turn in s.players
    && 0 <= s.pieceIdx
    && (s.phase == Playing && |s.queue| > 0 ==> s.pieceIdx < |s.queue|)
  }

  /** A new game: an empty grid, fresh score sheets, the first seat on turn, waiting in
      the lobby. */
  function Opening(queue: seq<char>): SharedState {
    SharedState(Lobby, queue, 0, One, EmptyGrid(), map[One := FRESH, Two := FRESH])
  }

  /** Starting (or restarting) a game: playing from the first piece, with the seat the
      coin picks on turn; the grid and the score sheets are kept. */
  function Started(s: SharedState, firstOne: bool): SharedState {
    s.(phase := Playing, pieceIdx := 0, turn := if firstOne then One else Two)
  }

  /** The columns offered for the current piece in a rotation: none outside play or once
      the queue is used up, and otherwise exactly the offsets at which it can be dropped
      on the grid, in ascending order. */
  function Offered(s: SharedState, rotation: int): (cols: seq<int>)
    requires Good(s)
    ensures cols != [] ==> s.phase == Playing && s.pieceIdx < |s.queue|
    ensures s.phase == Playing && s.pieceIdx < |s.queue| ==>
      forall x :: x in cols <==> Drop(s.grid, s.queue[s.pieceIdx], rotation, x).Some?
    ensures Ascending(cols)
  {
    if s.phase != Playing || s.pieceIdx >= |s.queue| then []
    else Columns(s.grid, s.queue[s.pieceIdx], rotation)
  }

  /** The columns offered in the four rotations. */
  function OfferedTable(s: SharedState): (t: seq<seq<int>>)
    requires Good(s)
    ensures |t| == 4 && forall r :: 0 <= r < 4 ==> t[r] == Offered(s, r)
  {
    seq(4, r => Offered(s, r))
  }

  /** The move chosen for the seat on turn when its deadline passes: the middle offered
      column of the first rotation that has one, else rotation 0 at offset 0. */
  function AutoMove(s: SharedState): Move
    requires Good(s)
  {
    PickAmong(OfferedTable(s), 0)
  }

  /** The verdict on a placement: rejected outside play, for anyone but the seat on turn,
      and for an offset not among the columns offered for the rotation (taken modulo 4);
      accepted otherwise. */
  function Verdict(s: SharedState, pid: string, rotation: int, x: int): PlaceOutcome
    requires Good(s)
  {
    if s.phase != Playing then WrongPhase
    else if pid != Name(s.turn) then NotYourTurn
    else if x !in Offered(s, rotation % 4) then InvalidColumn
    else Ok
  }

  /** The seat on turn plays the current piece with a move on the shared grid. */
  function PlayTurn(s: SharedState, mv: Move): SharedState
    requires WellFormed(s.grid) && 0 <= s.pieceIdx < |s.queue| && s.queue[s.pieceIdx] in PIECES
    requires s.turn in s.players
  {
    var (g, t) := Play(s.grid, s.players[s.turn], s.queue[s.pieceIdx], mv);
    s.(grid := g, players := s.players[s.turn := t])
  }

  /** Moving on after a turn: the next piece comes up; the game ends when asked to, when
      the queue is used up or when a seat has topped out, and otherwise the other seat is
      on turn. */
  function Advanced(s: SharedState, endAfter: bool): SharedState
    requires One in s.players && Two in s.players
  {
    var idx := s.pieceIdx + 1;
    if endAfter || idx >= |s.queue| || s.players[One].tops || s.players[Two].tops then
      s.(pieceIdx := idx, phase := Showdown)
    else
      s.(pieceIdx := idx, turn := Other(s.turn))
  }

  /** A placement: a rejected one changes nothing; an accepted one plays the current
      piece for the seat on turn and moves on. */
  function Placement(s: SharedState, pid: string, rotation: int, x: int): (SharedState, PlaceOutcome)
    requires Good(s)
  {
    var v := Verdict(s, pid, rotation, x);
    if v != Ok then (s, v)
    else
      (Advanced(PlayTurn(s, Move(rotation % 4, x)), false), Ok)
  }

  /** The periodic check as the engine performs it: while playing, a passed deadline
      places the automatic move for the seat on turn. */
  function TickedAsWritten(s: SharedState, expired: bool): SharedState
    requires Good(s)
  {
    if s.phase == Playing && expired then
      var m := AutoMove(s);
      Placement(s, Name(s.turn), m.rot, m.x).0
    else s
  }

  /** The seat on turn tops out and the game ends. */
  function TopOut(s: SharedState): SharedState
    requires Good(s)
  {
    Advanced(s.(players := s.players[s.turn := s.players[s.turn].(tops := true)]), true)
  }

  /** The periodic check as intended: while playing, a passed deadline places the
      automatic move for the seat on turn, and when that move is not accepted (the piece
      fits nowhere) the seat tops out and the game ends. */
  function Ticked(s: SharedState, expired: bool): SharedState
    requires Good(s)
  {
    if s.phase == Playing && expired then
      var m := AutoMove(s);
      var (t, v) := Placement(s, Name(s.turn), m.rot, m.x);
      if v == Ok then t else TopOut(s)
    else s
  }

  // ---------------------------------------------------------------------------
  // Properties of the value-level game

  /** A new game is good, and so is any good game once started. */
  lemma OpeningGood(queue: seq<char>, firstOne: bool)
    requires forall i :: 0 <= i < |queue| ==> queue[i] in PIECES
    ensures Good(Opening(queue)) && Good(Started(Opening(queue), firstOne))
  {
    forall y | 0 <= y < HEIGHT
      ensures !Full(EmptyGrid()[y])
    {
      assert EmptyGrid()[y][0] == Empty;
    }
  }

  /** Starting keeps the game good, puts it in play at the first piece with the chosen
      seat on turn, and keeps the grid and score sheets. */
  lemma StartedGood(s: SharedState, firstOne: bool)
    requires Good(s)
    ensures var t := Started(s, firstOne);
      && Good(t) && t.phase == Playing && t.pieceIdx == 0
      && (t.turn == One <==> firstOne)
      && t.grid == s.grid && t.players == s.players
  {
  }

  /** Playing a turn keeps the game good. */
  lemma PlayTurnGood(s: SharedState, mv: Move)
    requires Good(s) && 0 <= s.pieceIdx < |s.queue|
    ensures Good(PlayTurn(s, mv))
  {
    PlayMeaning(s.grid, s.players[s.turn], s.queue[s.pieceIdx], mv);
  }

  /** Moving on keeps the game good and takes exactly one piece; the game ends exactly
      when asked to, when the queue is used up or when a seat has topped out; otherwise
      the turn passes to the other seat and nothing else changes. */
  lemma AdvancedMeaning(s: SharedState, endAfter: bool)
    requires Good(s)
    ensures var t := Advanced(s, endAfter);
      && Good(t)
      && t.pieceIdx == s.pieceIdx + 1
      && t.grid == s.grid && t.players == s.players
      && (t.phase == Showdown <==>
            endAfter || s.pieceIdx + 1 >= |s.queue| || s.players[One].tops || s.players[Two].tops
            || s.phase == Showdown)
      && (t.phase != Showdown ==> t.phase == s.phase && t.turn == Other(s.turn))
  {
  }

  /** A placement is accepted exactly when the game is played, the identifier is that of
      the seat on turn, and the rotated current piece can be dropped at that offset. */
  lemma VerdictMeaning(s: SharedState, pid: string, rotation: int, x: int)
    requires Good(s)
    ensures Verdict(s, pid, rotation, x) == Ok <==>
      && s.phase == Playing && pid == Name(s.turn) && s.pieceIdx < |s.queue|
      && Drop(s.grid, s.queue[s.pieceIdx], rotation, x).Some?
  {
    if s.phase == Playing && s.pieceIdx < |s.queue| {
      DropModulo(s.grid, s.queue[s.pieceIdx], rotation, x);
    }
  }

  /** Every placement keeps the game good; its outcome is the verdict, and a rejected
      placement changes nothing. */
  lemma PlaceMeaning(s: SharedState, pid: string, rotation: int, x: int)
    requires Good(s)
    ensures var (t, outcome) := Placement(s, pid, rotation, x);
      && Good(t)
      && outcome == Verdict(s, pid, rotation, x)
      && (outcome != Ok ==> t == s)
  {
    if Verdict(s, pid, rotation, x) == Ok {
      PlayTurnGood(s, Move(rotation % 4, x));
      AdvancedMeaning(PlayTurn(s, Move(rotation % 4, x)), false);
    }
  }

  /** Playing a move that can be dropped locks the piece where the drop puts it and
      clears the full rows; only the seat on turn is credited, with the cleared rows and
      with a tetris exactly when there were four, and it does not top out. */
  lemma PlayTurnEffect(s: SharedState, mv: Move)
    requires Good(s) && 0 <= s.pieceIdx < |s.queue|
    requires Drop(s.grid, s.queue[s.pieceIdx], mv.rot, mv.x).Some?
    ensures var t, piece := PlayTurn(s, mv), s.queue[s.pieceIdx];
      var w := Write(s.grid, piece, Drop(s.grid, piece, mv.rot, mv.x).value);
      var me, them := s.turn, Other(s.turn);
      && t.grid == Cleared(w)
      && me in t.players && them in t.players
      && t.players[me].lines == s.players[me].lines + CountFull(w)
      && (t.players[me].tetris == s.players[me].tetris + 1 <==> CountFull(w) == 4)
      && (CountFull(w) != 4 ==> t.players[me].tetris == s.players[me].tetris)
      && t.players[me].tops == s.players[me].tops
      && t.players[them] == s.players[them]
      && t.phase == s.phase && t.pieceIdx == s.pieceIdx && t.turn == s.turn && t.queue == s.queue
  {
    PlayMeaning(s.grid, s.players[s.turn], s.queue[s.pieceIdx], mv);
  }

  /** An accepted placement plays the current piece at that offset for the seat on turn
      (see PlayTurnEffect) and takes one piece; unless the queue is used up or a seat had
      topped out, the game goes on with the other seat on turn. */
  lemma PlaceEffect(s: SharedState, pid: string, rotation: int, x: int)
    requires Good(s) && Verdict(s, pid, rotation, x) == Ok
    ensures 0 <= s.pieceIdx < |s.queue|
    ensures Drop(s.grid, s.queue[s.pieceIdx], rotation % 4, x).Some?
    ensures var t, p := Placement(s, pid, rotation, x).0, PlayTurn(s, Move(rotation % 4, x));
      && t.grid == p.grid && t.players == p.players
      && t.pieceIdx == s.pieceIdx + 1
      && (t.phase == Showdown <==>
            s.pieceIdx + 1 >= |s.queue| || p.players[One].tops || p.players[Two].tops)
      && (t.phase != Showdown ==> t.phase == Playing && t.turn == Other(s.turn))
  {
    var mv := Move(rotation % 4, x);
    PlayTurnGood(s, mv);
    AdvancedMeaning(PlayTurn(s, mv), false);
  }

  /** While the game is played, the automatic move is accepted exactly when there is a
      current piece and it can be dropped somewhere on the grid; it is then the middle
      offered column of the lowest rotation offering any. */
  lemma AutoMoveMeaning(s: SharedState)
    requires Good(s) && s.phase == Playing
    ensures var m := AutoMove(s);
      Verdict(s, Name(s.turn), m.rot, m.x) == Ok <==>
        s.pieceIdx < |s.queue| && CanDrop(s.grid, s.queue[s.pieceIdx])
  {
    var t, m := OfferedTable(s), AutoMove(s);
    if s.pieceIdx < |s.queue| {
      var piece := s.queue[s.pieceIdx];
      assert t == ColumnTable(s.grid, piece);
      if CanDrop(s.grid, piece) {
        var rot, x :| 0 <= rot < 4 && Drop(s.grid, piece, rot, x).Some?;
        AutoPickDrops(s.grid, piece, rot, x);
        VerdictMeaning(s, Name(s.turn), m.rot, m.x);
      } else {
        AutoPickStuck(s.grid, piece);
        assert m.x !in Offered(s, m.rot % 4);
      }
    } else {
      PickAmongMeaning(t, 0);
    }
  }

  /** The periodic check as written is stuck when the current piece fits nowhere: the
      automatic move is rejected, so the game stays exactly as it was, still in play. */
  lemma TickAsWrittenStuck(s: SharedState)
    requires Good(s) && s.phase == Playing && s.pieceIdx < |s.queue|
    requires !CanDrop(s.grid, s.queue[s.pieceIdx])
    ensures TickedAsWritten(s, true) == s && TickedAsWritten(s, true).phase == Playing
  {
    AutoMoveMeaning(s);
  }

  /** A row filled in every column but the leftmost. */
  function CombRow(): (row: Row)
    ensures |row| == WIDTH && row[0] == Empty && forall x :: 0 < x < WIDTH ==> row[x] != Empty
  {
    seq(WIDTH, x => if x == 0 then Empty else Filled('J'))
  }

  /** A grid whose every row is filled in every column but the leftmost. */
  function CombGrid(): (g: seq<Row>)
    ensures WellFormed(g) && NoFullRow(g)
    ensures forall y, x :: 0 <= y < HEIGHT && 0 < x < WIDTH ==> g[y][x] != Empty
  {
    seq(HEIGHT, _ => CombRow())
  }

  /** An O piece, two cells wide in every rotation, fits nowhere on a grid whose only
      empty cells are in the leftmost column. */
  lemma CombBlocksO(g: seq<Row>)
    requires WellFormed(g)
    requires forall y, x :: 0 <= y < HEIGHT && 0 < x < WIDTH ==> g[y][x] != Empty
    ensures !CanDrop(g, 'O')
  {
    forall rot, x | 0 <= rot < 4
      ensures Drop(g, 'O', rot, x).None?
    {
      var cells := Shape('O', rot);
      assert cells[0] == (1, 0) && cells[1] == (2, 0);
      if BetweenWalls(cells, x) {
        CombBlocksPair(g, cells, x, Landing(g, cells, x, SPAWN));
      }
    }
  }

  /** On such a grid, a shape whose first two cells sit side by side in the top row of
      its box is never on empty cells. */
  lemma CombBlocksPair(g: seq<Row>, cells: seq<Pos>, x: int, y: int)
    requires WellFormed(g) && |cells| >= 2 && cells[0] == (1, 0) && cells[1] == (2, 0)
    requires forall y, x :: 0 <= y < HEIGHT && 0 < x < WIDTH ==> g[y][x] != Empty
    ensures !Free(g, Shift(cells, x, y))
  {
    var final := Shift(cells, x, y);
    assert final[0] == (x + 1, y) && final[1] == (x + 2, y);
    if 0 <= y < HEIGHT && 0 < x + 2 < WIDTH {
      assert g[y][x + 2] != Empty;
    }
  }

  /** A game in play whose grid is filled but for its leftmost column, with an O piece
      to play. */
  function StuckGame(): SharedState {
    SharedState(Playing, ['O'], 0, One, CombGrid(), map[One := FRESH, Two := FRESH])
  }

  /** Ticks with the deadline passed, n times, as the engine performs them. */
  function TicksAsWritten(s: SharedState, n: nat): SharedState
    requires Good(s)
    decreases n
  {
    if n == 0 then s
    else
      TickAsWrittenGood(s);
      TicksAsWritten(TickedAsWritten(s, true), n - 1)
  }

  /** The periodic check as written keeps the game good. */
  lemma TickAsWrittenGood(s: SharedState)
    requires Good(s)
    ensures Good(TickedAsWritten(s, true))
  {
    if s.phase == Playing {
      var m := AutoMove(s);
      PlaceMeaning(s, Name(s.turn), m.rot, m.x);
    }
  }

  /** A game that one passed deadline leaves as it was stays so however many pass. */
  lemma {:induction false} StuckNeverEnds(s: SharedState, n: nat)
    requires Good(s) && TickedAsWritten(s, true) == s
    ensures TicksAsWritten(s, n) == s
  {
    if n > 0 {
      StuckNeverEnds(s, n - 1);
    }
  }

  /** That happens: in the game above the O piece fits nowhere, so the game stays in play
      at its only piece however many deadlines pass. */
  lemma StuckGameNeverEnds(s: SharedState, n: nat)
    requires s == StuckGame()
    ensures Good(s) && s.phase == Playing && s.pieceIdx == 0 && |s.queue| == 1
    ensures TicksAsWritten(s, n) == s
  {
    assert Good(s);
    CombBlocksO(s.grid);
    TickAsWrittenStuck(s);
    StuckNeverEnds(s, n);
  }

  /** The corrected periodic check keeps the game good; while playing, a passed deadline
      always takes the current piece: either the automatic move is accepted, or the seat
      on turn tops out and the game ends. Otherwise nothing changes. */
  lemma TickMeaning(s: SharedState, expired: bool)
    requires Good(s)
    ensures var t := Ticked(s, expired);
      && Good(t)
      && (s.phase == Playing && expired ==> t.pieceIdx == s.pieceIdx + 1)
      && (s.phase == Playing && expired && Verdict(s, Name(s.turn), AutoMove(s).rot, AutoMove(s).x) != Ok ==>
            t.phase == Showdown && t.players[s.turn].tops && t.grid == s.grid)
      && (s.phase == Playing && expired && Verdict(s, Name(s.turn), AutoMove(s).rot, AutoMove(s).x) == Ok ==>
            t == TickedAsWritten(s, expired))
      && (!(s.phase == Playing && expired) ==> t == s)
  {
    if s.phase == Playing && expired {
      var m := AutoMove(s);
      PlaceMeaning(s, Name(s.turn), m.rot, m.x);
      if Verdict(s, Name(s.turn), m.rot, m.x) == Ok {
        PlaceEffect(s, Name(s.turn), m.rot, m.x);
      } else {
        AdvancedMeaning(s.(players := s.players[s.turn := s.players[s.turn].(tops := true)]), true);
      }
    }
  }

  /** Ticks with the deadline passed, n times, as intended. */
  function Ticks(s: SharedState, n: nat): SharedState
    requires Good(s)
    decreases n
  {
    if n == 0 then s
    else
      TickMeaning(s, true);
      Ticks(Ticked(s, true), n - 1)
  }

  /** The corrected periodic check, with the deadline passed, takes one piece of the
      same queue and leaves the game in play or ended. */
  lemma TickAdvances(s: SharedState, expired: bool)
    requires Good(s) && s.phase == Playing && expired
    ensures var t := Ticked(s, expired);
      && Good(t) && t.queue == s.queue && t.pieceIdx == s.pieceIdx + 1
      && (t.phase == Playing || t.phase == Showdown)
  {
    var m := AutoMove(s);
    PlaceMeaning(s, Name(s.turn), m.rot, m.x);
    if Verdict(s, Name(s.turn), m.rot, m.x) == Ok {
      PlayTurnGood(s, Move(m.rot % 4, m.x));
      AdvancedMeaning(PlayTurn(s, Move(m.rot % 4, m.x)), false);
    } else {
      AdvancedMeaning(s.(players := s.players[s.turn := s.players[s.turn].(tops := true)]), true);
    }
  }

  /** With the corrected check, a game in play ends within as many passed deadlines as
      there are pieces left in the queue. */
  lemma {:induction false} TicksEnd(s: SharedState)
    requires Good(s) && s.phase == Playing && s.pieceIdx < |s.queue|
    ensures Ticks(s, |s.queue| - s.pieceIdx).phase == Showdown
    decreases |s.queue| - s.pieceIdx
  {
    var k := |s.queue| - s.pieceIdx;
    TickAdvances(s, true);
    var t := Ticked(s, true);
    assert Ticks(s, k) == Ticks(t, k - 1);
    if t.phase == Showdown {
      ShowdownStays(t, k - 1);
    } else {
      TicksEnd(t);
    }
  }

  /** Once the game has ended, ticks change nothing. */
  lemma {:induction false} ShowdownStays(s: SharedState, n: nat)
    requires Good(s) && s.phase == Showdown
    ensures Ticks(s, n) == s
  {
    if n > 0 {
      ShowdownStays(s, n - 1);
    }
  }

  // ---------------------------------------------------------------------------
  // The game as an object

  /** A shared-grid game: the ante, the piece queue and the current piece, the phase,
      the seat on turn, the shared board and each seat's score sheet. */
  class SharedGame {
    const ante: int
    const queue: seq<char>
    const board: Grid
    var phase: Phase
    var pieceIdx: int
    var turn: SeatId
    var players: map<SeatId, Stats>

    function State(): SharedState
      reads this, board
    {
      SharedState(phase, queue, pieceIdx, turn, board.rows, players)
    }

    predicate Valid()
      reads this, board
    {
      Good(State())
    }

    /** A game in the lobby with the queue built from the given bag orders. */
    constructor(ante: int, pieceCount: int, shuffles: seq<seq<int>>)
      requires Shuffles(shuffles) && pieceCount <= 7 * |shuffles|
      ensures Valid() && this.ante == ante && fresh(board)
      ensures |queue| == QueueLength(pieceCount)
      ensures forall i :: 0 <= i < |queue| ==> queue[i] == PIECES[shuffles[i / 7][i % 7]]
      ensures State() == Opening(queue)
    {
      this.ante := ante;
      var q := BuildQueue(pieceCount, shuffles);
      QueuePieces(q, shuffles);
      queue := q;
      board := new Grid();
      phase := Lobby;
      pieceIdx := 0;
      turn := One;
      players := map[One := FRESH, Two := FRESH];
      new;
      OpeningGood(queue, true);
    }

    /** Starts play from the first piece; `firstOne` is the coin that decides which seat
        moves first. */
    method Start(firstOne: bool)
      requires Valid()
      modifies this
      ensures Valid() && State() == Started(old(State()), firstOne)
    {
      ghost var s := State();
      StartedGood(s, firstOne);
      phase := Playing;
      pieceIdx := 0;
      turn := if firstOne then One else Two;
    }

    /** The columns offered for the current piece in a rotation. */
    method ValidColumns(rotation: int) returns (cols: seq<int>)
      requires Valid()
      ensures cols == Offered(State(), rotation)
    {
      if phase != Playing {
        return [];
      }
      if pieceIdx >= |queue| {
        return [];
      }
      var piece := queue[pieceIdx];
      cols := Tetris.ValidColumns(board.rows, piece, rotation);
    }

    /** The automatic move for the seat on turn: the middle offered column of the first
        rotation that has one, else rotation 0 at offset 0. */
    method AutoChoice() returns (mv: Move)
      requires Valid()
      ensures mv == AutoMove(State())
    {
      ghost var t := OfferedTable(State());
      for rot := 0 to 4
        invariant PickAmong(t, 0) == PickAmong(t, rot)
      {
        var cols := ValidColumns(rot);
        if cols != [] {
          return Move(rot, cols[|cols| / 2]);
        }
      }
      return Move(0, 0);
    }

    /** Places the current piece for the player pid. */
    method Place(pid: string, rotation: int, x: int) returns (outcome: PlaceOutcome)
      requires Valid()
      modifies this, board
      ensures Valid() && (State(), outcome) == Placement(old(State()), pid, rotation, x)
    {
      ghost var s := State();
      PlaceMeaning(s, pid, rotation, x);
      if phase != Playing {
        return WrongPhase;
      }
      if pid != Name(turn) {
        return NotYourTurn;
      }
      var rot := rotation % 4;
      var valid := ValidColumns(rot);
      if x !in valid {
        return InvalidColumn;
      }
      var toppedOut := PlayMove(queue[pieceIdx], Move(rot, x));
      assert State() == PlayTurn(s, Move(rot, x));
      AdvanceTurn(toppedOut);
      return Ok;
    }

    /** Drops a piece with a move for the seat on turn: a drop that fails tops the seat
        out (and says so); otherwise the piece is locked, the full rows are cleared and the
        seat is credited. */
    method PlayMove(piece: char, mv: Move) returns (toppedOut: bool)
      requires WellFormed(board.rows) && piece in PIECES && turn in players
      modifies this, board
      ensures phase == old(phase) && pieceIdx == old(pieceIdx) && turn == old(turn)
      ensures toppedOut <==> Drop(old(board.rows), piece, mv.rot, mv.x).None?
      ensures var (g, t) := Play(old(board.rows), old(players[turn]), piece, mv);
        board.rows == g && players == old(players)[turn := t]
    {
      var cells := HardDrop(board.rows, piece, mv.rot, mv.x);
      if cells.None? {
        players := players[turn := players[turn].(tops := true)];
        return true;
      }
      DropLocks(board.rows, piece, mv.rot, mv.x);
      var st := LockPiece(piece, cells.value, players[turn]);
      players := players[turn := st];
      return false;
    }

    /** Locks a dropped piece on the board and scores the lock on a score sheet: a lock
        that fails tops the sheet out; one that succeeds adds the cleared rows to the lines
        and a clear of four to the tetrises. */
    method LockPiece(piece: char, cells: seq<Pos>, st: Stats) returns (t: Stats)
      requires WellFormed(board.rows) && OnGrid(cells)
      modifies board
      ensures board.rows == Locked(old(board.rows), piece, cells).1
      ensures t == Scored(st, Locked(old(board.rows), piece, cells).0)
    {
      var cleared := board.LockAndClear(piece, cells);
      t := st;
      if cleared < 0 {
        t := t.(tops := true);
      } else {
        t := t.(lines := t.lines + cleared);
        if cleared == 4 {
          t := t.(tetris := t.tetris + 1);
        }
      }
    }

    /** Moves on to the next piece: ends the game when asked to, when the queue is used
        up or when a seat has topped out, and otherwise passes the turn. */
    method AdvanceTurn(endAfter: bool)
      requires One in players && Two in players
      modifies this
      ensures State() == Advanced(old(State()), endAfter)
    {
      pieceIdx := pieceIdx + 1;
      if endAfter || pieceIdx >= |queue| || players[One].tops || players[Two].tops {
        phase := Showdown;
        return;
      }
      turn := if turn == Two then One else Two;
    }

    /** The periodic check as written; `expired` says whether the deadline of the seat on
        turn has passed. A refused automatic move leaves the game as it was. */
    method Tick(expired: bool)
      requires Valid()
      modifies this, board
      ensures Valid() && State() == TickedAsWritten(old(State()), expired)
    {
      if phase != Playing || !expired {
        return;
      }
      var choice := AutoChoice();
      var outcome := Place(Name(turn), choice.rot, choice.x);
    }

    /** The periodic check as its comments intend: when the automatic move is refused,
        the seat on turn tops out and the game ends. */
    method TickOrTopOut(expired: bool)
      requires Valid()
      modifies this, board
      ensures Valid() && State() == Ticked(old(State()), expired)
    {
      ghost var s := State();
      TickMeaning(s, expired);
      if phase != Playing || !expired {
        return;
      }
      var choice := AutoChoice();
      var outcome := Place(Name(turn), choice.rot, choice.x);
      if outcome != Ok {
        players := players[turn := players[turn].(tops := true)];
        AdvanceTurn(true);
      }
    }

    /** The winner and the payouts: more lines wins, then more tetrises, then not having
        topped out; otherwise the pot is split. */
    method Result() returns (r: Payout)
      requires One in players && Two in players
      ensures r == TetrisRules.Result(ante, players[One], players[Two])
      ensures r.p1 + r.p2 == 2 * ante
    {
      var pot := ante * 2;
      var s1, s2 := players[One], players[Two];
      if s1.lines > s2.lines {
        return Payout(Some(P1), pot, 0);
      }
      if s2.lines > s1.lines {
        return Payout(Some(P2), 0, pot);
      }
      if s1.tetris > s2.tetris {
        return Payout(Some(P1), pot, 0);
      }
      if s2.tetris > s1.tetris {
        return Payout(Some(P2), 0, pot);
      }
      if s1.tops && !s2.tops {
        return Payout(Some(P2), 0, pot);
      }
      if s2.tops && !s1.tops {
        return Payout(Some(P1), pot, 0);
      }
      return Payout(None, pot / 2, pot - pot / 2);
    }
  }
}
