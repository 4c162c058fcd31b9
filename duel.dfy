// The duel engine: both seats play the same queue of pieces, each on a board of its own.
// For every piece each seat submits a move; the piece is resolved once both moves are in
// or the deadline has passed, a missing move being chosen automatically.

module Duel {
  import opened Options
  import opened Tetris
  import opened TetrisRules

  datatype Phase = Lobby | Playing | Showdown

  /** The outcome of a placement: rejected for the phase, for the player or for the
      column, or accepted. */
  datatype PlaceOutcome = WrongPhase | UnknownPlayer | InvalidColumn | Accepted

  // ---------------------------------------------------------------------------
  // The game as a value

  /** A seat's board and score sheet. */
  datatype Seat = Seat(grid: seq<Row>, sheet: Stats)

  /** Everything the game keeps, apart from the deadline. */
  datatype DuelState = DuelState(
    phase: Phase, queue: seq<char>, pieceIdx: int,
    pending: map<SeatId, Option<Move>>, one: Seat, two: Seat)

  /** No move submitted for either seat. */
  const IDLE: map<SeatId, Option<Move>> := map[One := None, Two := None]

  function SeatOf(s: DuelState, id: SeatId): Seat {
    if id == One then s.one else s.two
  }

  /** A board of HEIGHT rows of WIDTH cells with no full row. */
  predicate GoodBoard(g: seq<Row>) {
    WellFormed(g) && NoFullRow(g)
  }

  /** A move submitted for a seat is a rotation 0..3 whose drop succeeds for the current
      piece on that seat's board. */
  predicate PendingOk(s: DuelState, id: SeatId)
    requires id in s.pending && WellFormed(SeatOf(s, id).grid)
  {
    s.pending[id].Some? ==>
      && s.phase == Playing && 0 <= s.pieceIdx < |s.queue| && s.queue[s.pieceIdx] in PIECES
      && 0 <= s.pending[id].value.rot < 4
      && Drop(SeatOf(s, id).grid, s.queue[s.pieceIdx], s.pending[id].value.rot, s.pending[id].value.x).Some?
  }

  /** The invariant of a game: good boards, a queue of tetrominoes, a current piece while
      playing, and an entry for each seat that holds, if anything, a droppable move. */
  predicate Good(s: DuelState) {
    && GoodBoard(s.one.grid) && GoodBoard(s.two.grid)
    && (forall i :: 0 <= i < |s.queue| ==> s.queue[i] in PIECES)
    && 0 <= s.pieceIdx
    && (s.phase == Playing ==> s.pieceIdx < |s.queue|)
    && One in s.pending && Two in s.pending
    && PendingOk(s, One) && PendingOk(s, Two)
  }

  /** The piece being played. */
  function Current(s: DuelState): (piece: char)
    requires Good(s) && 0 <= s.pieceIdx < |s.queue|
    ensures piece in PIECES
  {
    s.queue[s.pieceIdx]
  }

  /** A new game: empty boards, fresh score sheets, no moves, waiting in the lobby. */
  function Opening(queue: seq<char>): DuelState {
    DuelState(Lobby, queue, 0, IDLE, Seat(EmptyGrid(), FRESH), Seat(EmptyGrid(), FRESH))
  }

  /** Starting (or restarting) a game: playing from the first piece with no moves; the
      boards and score sheets are kept. */
  function Started(s: DuelState): DuelState {
    s.(phase := Playing, pieceIdx := 0, pending := IDLE)
  }

  /** The move a seat plays when the piece is resolved: the submitted one, or else the
      automatic one. */
  function Fill(s: DuelState, id: SeatId): Move
    requires Good(s) && s.phase == Playing
  {
    Seats(id);
    if s.pending[id].Some? then s.pending[id].value else AutoPick(SeatOf(s, id).grid, Current(s))
  }

  /** One seat plays a piece with a move. */
  function Step(seat: Seat, piece: char, mv: Move): Seat
    requires WellFormed(seat.grid) && piece in PIECES
  {
    var (g, t) := Play(seat.grid, seat.sheet, piece, mv);
    Seat(g, t)
  }

  /** Resolving the current piece: both seats play it, the first seat first; the moves are
      cleared and the next piece comes up, unless the queue is used up or a seat has topped
      out, which ends the game. */
  function Resolve(s: DuelState): DuelState
    requires Good(s) && s.phase == Playing
  {
    var piece := Current(s);
    var one := Step(s.one, piece, Fill(s, One));
    var two := Step(s.two, piece, Fill(s, Two));
    var idx := s.pieceIdx + 1;
    var phase := if idx >= |s.queue| || one.sheet.tops || two.sheet.tops then Showdown else Playing;
    DuelState(phase, s.queue, idx, IDLE, one, two)
  }

  /** The verdict on a placement: rejected outside play, for an identifier that names no
      seat, and for an offset not among the valid columns of the rotation (taken modulo
      4); accepted otherwise. */
  function Verdict(s: DuelState, pid: string, rotation: int, x: int): PlaceOutcome
    requires Good(s)
  {
    if s.phase != Playing then WrongPhase
    else if Lookup(pid).None? then UnknownPlayer
    else if x !in Columns(SeatOf(s, Lookup(pid).value).grid, Current(s), rotation % 4) then InvalidColumn
    else Accepted
  }

  /** Records the move of a seat. */
  function Record(s: DuelState, id: SeatId, rotation: int, x: int): DuelState {
    s.(pending := s.pending[id := Some(Move(rotation % 4, x))])
  }

  /** Once a move is recorded, the piece is resolved when both seats have a move or the
      deadline has passed. */
  function Settle(t: DuelState, expired: bool): DuelState
    requires Good(t) && t.phase == Playing
  {
    if (t.pending[One].Some? && t.pending[Two].Some?) || expired then Resolve(t) else t
  }

  /** A placement: a rejected one changes nothing; an accepted one records the move and
      settles the piece. */
  function Placement(s: DuelState, pid: string, rotation: int, x: int, expired: bool): (DuelState, PlaceOutcome)
    requires Good(s)
  {
    var v := Verdict(s, pid, rotation, x);
    if v != Accepted then (s, v)
    else
      PlaceKeepsGood(s, pid, rotation, x);
      (Settle(Record(s, Lookup(pid).value, rotation, x), expired), Accepted)
  }

  /** The periodic check: while playing, a passed deadline resolves the piece. */
  function Ticked(s: DuelState, expired: bool): DuelState
    requires Good(s)
  {
    if s.phase == Playing && expired then Resolve(s) else s
  }

  // ---------------------------------------------------------------------------
  // Properties of the value-level game

  /** A new game is good, and so is the game once started with a non-empty queue. */
  lemma OpeningGood(queue: seq<char>)
    requires forall i :: 0 <= i < |queue| ==> queue[i] in PIECES
    ensures Good(Opening(queue))
    ensures |queue| > 0 ==> Good(Started(Opening(queue)))
  {
    EmptyGridGood();
  }

  /** The empty grid is a good board. */
  lemma EmptyGridGood()
    ensures GoodBoard(EmptyGrid())
  {
    forall y | 0 <= y < HEIGHT
      ensures !Full(EmptyGrid()[y])
    {
      assert EmptyGrid()[y][0] == Empty;
    }
  }

  /** Starting a good game with a non-empty queue gives a good game. */
  lemma StartedGood(s: DuelState)
    requires Good(s) && |s.queue| > 0
    ensures Good(Started(s))
  {
  }

  /** Recording an accepted move keeps the game good. */
  lemma PlaceKeepsGood(s: DuelState, pid: string, rotation: int, x: int)
    requires Good(s) && Verdict(s, pid, rotation, x) == Accepted
    ensures Good(Record(s, Lookup(pid).value, rotation, x))
    ensures Record(s, Lookup(pid).value, rotation, x).phase == Playing
  {
  }

  /** The move a seat plays when the piece is resolved can be dropped exactly when some
      rotation of the piece can be dropped somewhere on its board: a submitted move always
      can, and so can the automatic one whenever any move can. */
  lemma FillTops(s: DuelState, id: SeatId)
    requires Good(s) && s.phase == Playing
    ensures Drop(SeatOf(s, id).grid, Current(s), Fill(s, id).rot, Fill(s, id).x).Some?
      <==> CanDrop(SeatOf(s, id).grid, Current(s))
  {
    var g, piece := SeatOf(s, id).grid, Current(s);
    Seats(id);
    if s.pending[id].Some? {
      var mv := s.pending[id].value;
      assert Drop(g, piece, mv.rot, mv.x).Some?;
    } else if CanDrop(g, piece) {
      var rot, x :| 0 <= rot < 4 && Drop(g, piece, rot, x).Some?;
      AutoPickDrops(g, piece, rot, x);
    } else {
      AutoPickStuck(g, piece);
    }
  }

  /** Playing a piece keeps a seat's board good; the seat tops out exactly when it had
      already topped out or the drop fails; its lines never shrink, and its tetrises grow
      by one exactly when its lines grow by four. */
  lemma StepMeaning(seat: Seat, piece: char, mv: Move)
    requires GoodBoard(seat.grid) && piece in PIECES
    ensures var t := Step(seat, piece, mv);
      && GoodBoard(t.grid)
      && (t.sheet.tops <==> seat.sheet.tops || Drop(seat.grid, piece, mv.rot, mv.x).None?)
      && t.sheet.lines >= seat.sheet.lines && t.sheet.tetris >= seat.sheet.tetris
      && (t.sheet.tetris == seat.sheet.tetris + 1 <==> t.sheet.lines == seat.sheet.lines + 4)
  {
    PlayMeaning(seat.grid, seat.sheet, piece, mv);
  }

  /** Resolving a piece keeps the game good. */
  lemma ResolveGood(s: DuelState)
    requires Good(s) && s.phase == Playing
    ensures Good(Resolve(s))
  {
    StepMeaning(s.one, Current(s), Fill(s, One));
    StepMeaning(s.two, Current(s), Fill(s, Two));
  }

  /** When a piece is resolved, a seat tops out exactly when it had already topped out or
      the piece fits nowhere on its board; its lines never shrink, and its tetrises grow by
      one exactly when its lines grow by four. */
  lemma ResolveSeat(s: DuelState, id: SeatId)
    requires Good(s) && s.phase == Playing
    ensures var before, after := SeatOf(s, id), SeatOf(Resolve(s), id);
      && (after.sheet.tops <==> before.sheet.tops || !CanDrop(before.grid, Current(s)))
      && after.sheet.lines >= before.sheet.lines
      && after.sheet.tetris >= before.sheet.tetris
      && (after.sheet.tetris == before.sheet.tetris + 1 <==> after.sheet.lines == before.sheet.lines + 4)
  {
    StepMeaning(SeatOf(s, id), Current(s), Fill(s, id));
    FillTops(s, id);
  }

  /** Resolving moves on to the next piece with no moves recorded, and ends the game
      exactly when the queue is used up or a seat has topped out. */
  lemma ResolveAdvances(s: DuelState)
    requires Good(s) && s.phase == Playing
    ensures var r := Resolve(s);
      && r.pieceIdx == s.pieceIdx + 1 && r.pending == IDLE && r.queue == s.queue
      && (r.phase == Showdown <==> r.pieceIdx == |s.queue| || r.one.sheet.tops || r.two.sheet.tops)
      && (r.phase != Showdown ==> r.phase == Playing)
  {
  }

  /** A placement is accepted exactly when the game is being played, the identifier names
      a seat and the rotated piece can be dropped at that offset on the seat's board. */
  lemma VerdictMeaning(s: DuelState, pid: string, rotation: int, x: int)
    requires Good(s)
    ensures Verdict(s, pid, rotation, x) == Accepted <==>
      s.phase == Playing && (pid == P1 || pid == P2)
      && Drop(SeatOf(s, Lookup(pid).value).grid, Current(s), rotation, x).Some?
  {
    if s.phase == Playing && Lookup(pid).Some? {
      var g, piece := SeatOf(s, Lookup(pid).value).grid, Current(s);
      DropModulo(g, piece, rotation, x);
      assert x in Columns(g, piece, rotation % 4) <==> Drop(g, piece, rotation % 4, x).Some?;
    }
  }

  /** Every placement keeps the game good, and a rejected one changes nothing. */
  lemma PlaceMeaning(s: DuelState, pid: string, rotation: int, x: int, expired: bool)
    requires Good(s)
    ensures var (t, outcome) := Placement(s, pid, rotation, x, expired);
      && Good(t)
      && outcome == Verdict(s, pid, rotation, x)
      && (outcome != Accepted ==> t == s)
  {
    if Verdict(s, pid, rotation, x) == Accepted {
      PlaceKeepsGood(s, pid, rotation, x);
      ResolveGood(Record(s, Lookup(pid).value, rotation, x));
    }
  }

  /** An accepted placement resolves the piece exactly when the other seat had already
      moved or the deadline has passed; otherwise it only records the move. */
  lemma PlaceResolves(s: DuelState, pid: string, rotation: int, x: int, expired: bool)
    requires Good(s) && Verdict(s, pid, rotation, x) == Accepted
    ensures var id := Lookup(pid).value;
      var t := Placement(s, pid, rotation, x, expired).0;
      && (t.pieceIdx == s.pieceIdx + 1 <==> s.pending[Other(id)].Some? || expired)
      && (t.pieceIdx == s.pieceIdx ==> t == Record(s, id, rotation, x))
  {
  }

  /** A good game keeps its invariant under the periodic check, and while it is played a
      passed deadline always moves it on by one piece. */
  lemma TickMeaning(s: DuelState, expired: bool)
    requires Good(s)
    ensures Good(Ticked(s, expired))
    ensures s.phase == Playing && expired ==> Ticked(s, expired).pieceIdx == s.pieceIdx + 1
    ensures !(s.phase == Playing && expired) ==> Ticked(s, expired) == s
  {
    if s.phase == Playing && expired {
      ResolveGood(s);
    }
  }

  // ---------------------------------------------------------------------------
  // The game as objects

  /** A seat: its board and its score sheet. */
  class Player {
    const name: string
    const board: Grid
    var lines: int
    var tetris: int
    var tops: bool

    constructor(name: string)
      ensures this.name == name && fresh(board) && board.rows == EmptyGrid()
      ensures lines == 0 && tetris == 0 && !tops
    {
      this.name := name;
      board := new Grid();
      lines, tetris, tops := 0, 0, false;
    }

    /** The score sheet as a value. */
    function Sheet(): Stats
      reads this
    {
      Stats(lines, tetris, tops)
    }

    /** Plays a piece with a move: a failed drop or lock tops the seat out; a lock adds
        the cleared rows to the lines and a clear of four to the tetrises. */
    method Apply(piece: char, mv: Move)
      requires WellFormed(board.rows) && piece in PIECES
      modifies this, board
      ensures (board.rows, Sheet()) == Play(old(board.rows), old(Sheet()), piece, mv)
    {
      ghost var st := Sheet();
      var cells := HardDrop(board.rows, piece, mv.rot, mv.x);
      if cells.None? {
        tops := true;
      } else {
        DropLocks(board.rows, piece, mv.rot, mv.x);
        var cleared := board.LockAndClear(piece, cells.value);
        if cleared < 0 {
          // A successful drop lies inside the grid, so its lock never tops out.
          assert false;
        }
        lines := lines + cleared;
        if cleared == 4 {
          tetris := tetris + 1;
        }
        assert Sheet() == Scored(st, cleared);
      }
    }
  }

  /** A duel: the ante, the two seats, the phase, the piece queue and the current piece,
      and the move each seat has submitted for it. */
  class DuelGame {
    const ante: int
    const p1: Player
    const p2: Player
    var phase: Phase
    const queue: seq<char>
    var pieceIdx: int
    var pending: map<SeatId, Option<Move>>

    function State(): DuelState
      reads this, p1, p2, p1.board, p2.board
    {
      DuelState(phase, queue, pieceIdx, pending,
                Seat(p1.board.rows, p1.Sheet()), Seat(p2.board.rows, p2.Sheet()))
    }

    /** Two distinct seats named P1 and P2 on boards of their own, in a good game. */
    predicate Valid()
      reads this, p1, p2, p1.board, p2.board
    {
      p1 != p2 && p1.board != p2.board && p1.name == P1 && p2.name == P2 && Good(State())
    }

    /** A game in the lobby with the queue built from the given bag orders. */
    constructor(ante: int, pieceCount: int, shuffles: seq<seq<int>>)
      requires Shuffles(shuffles) && pieceCount <= 7 * |shuffles|
      ensures Valid() && this.ante == ante && fresh(p1) && fresh(p2) && fresh(p1.board) && fresh(p2.board)
      ensures |queue| == QueueLength(pieceCount)
      ensures forall i :: 0 <= i < |queue| ==> queue[i] == PIECES[shuffles[i / 7][i % 7]]
      ensures State() == Opening(queue)
    {
      this.ante := ante;
      p1 := new Player(P1);
      p2 := new Player(P2);
      phase := Lobby;
      var q := BuildQueue(pieceCount, shuffles);
      QueuePieces(q, shuffles);
      queue := q;
      pieceIdx := 0;
      pending := IDLE;
      new;
      OpeningGood(queue);
    }

    /** Starts play from the first piece. */
    method Start()
      requires Valid() && |queue| > 0
      modifies this
      ensures Valid() && State() == Started(old(State()))
    {
      ghost var s := State();
      phase := Playing;
      pieceIdx := 0;
      pending := IDLE;
      StartedGood(s);
    }

    /** The seat a seat identifier names. */
    function PlayerOf(id: SeatId): Player {
      if id == One then p1 else p2
    }

    /** What looking at a seat's options for the current piece needs: a piece to play and
        a well-formed board. */
    predicate Ready(id: SeatId)
      reads this, p1, p2, p1.board, p2.board
    {
      0 <= pieceIdx < |queue| && queue[pieceIdx] in PIECES && WellFormed(PlayerOf(id).board.rows)
    }

    /** The valid columns of the current piece in a rotation on a seat's board. */
    method ValidColumns(id: SeatId, rotation: int) returns (cols: seq<int>)
      requires Ready(id)
      ensures cols == Columns(PlayerOf(id).board.rows, queue[pieceIdx], rotation)
    {
      cols := Tetris.ValidColumns(PlayerOf(id).board.rows, queue[pieceIdx], rotation);
    }

    /** The automatic move for a seat: the middle valid column of the first rotation that
        has one, else rotation 0 at offset 0. */
    method AutoFill(id: SeatId) returns (mv: Move)
      requires Ready(id)
      ensures mv == AutoPick(PlayerOf(id).board.rows, queue[pieceIdx])
    {
      ghost var t := ColumnTable(PlayerOf(id).board.rows, queue[pieceIdx]);
      for rot := 0 to 4
        invariant PickAmong(t, 0) == PickAmong(t, rot)
      {
        var valid := ValidColumns(id, rot);
        if valid != [] {
          return Move(rot, valid[|valid| / 2]);
        }
      }
      return Move(0, 0);
    }

    /** Resolves the current piece: fills in missing moves, plays the piece for the first
        seat and then the second, clears the moves and moves on to the next piece or ends
        the game. */
    method ResolvePiece()
      requires Valid() && phase == Playing
      modifies this, p1, p2, p1.board, p2.board
      ensures Valid() && State() == Resolve(old(State()))
    {
      ghost var s := State();
      ResolveGood(s);
      PlayPending();
      Advance();
    }

    /** Clears the moves and moves on to the next piece, or ends the game when the queue
        is used up or a seat has topped out. */
    method Advance()
      modifies this
      ensures pending == IDLE && pieceIdx == old(pieceIdx) + 1
      ensures phase == if pieceIdx >= |queue| || p1.tops || p2.tops then Showdown else old(phase)
    {
      pending := IDLE;
      pieceIdx := pieceIdx + 1;
      if pieceIdx >= |queue| || p1.tops || p2.tops {
        phase := Showdown;
      }
    }

    /** Fills in the missing moves and plays the current piece on both seats. */
    method PlayPending()
      requires Valid() && phase == Playing
      modifies this, p1, p2, p1.board, p2.board
      ensures phase == old(phase) && pieceIdx == old(pieceIdx)
      ensures State().one == Step(old(State()).one, old(Current(State())), Fill(old(State()), One))
      ensures State().two == Step(old(State()).two, old(Current(State())), Fill(old(State()), Two))
    {
      FillMissing();
      PlayBoth(queue[pieceIdx], pending[One].value, pending[Two].value);
    }

    /** Plays the piece for the first seat with its move, then for the second. */
    method PlayBoth(piece: char, m1: Move, m2: Move)
      requires p1 != p2 && p1.board != p2.board && piece in PIECES
      requires WellFormed(p1.board.rows) && WellFormed(p2.board.rows)
      modifies p1, p2, p1.board, p2.board
      ensures Seat(p1.board.rows, p1.Sheet()) == Step(Seat(old(p1.board.rows), old(p1.Sheet())), piece, m1)
      ensures Seat(p2.board.rows, p2.Sheet()) == Step(Seat(old(p2.board.rows), old(p2.Sheet())), piece, m2)
    {
      p1.Apply(piece, m1);
      p2.Apply(piece, m2);
    }

    /** Gives each seat without a move the automatic one. */
    method FillMissing()
      requires Valid() && phase == Playing
      modifies this
      ensures phase == old(phase) && pieceIdx == old(pieceIdx)
      ensures One in pending && pending[One] == Some(Fill(old(State()), One))
      ensures Two in pending && pending[Two] == Some(Fill(old(State()), Two))
    {
      assert Ready(One) && Ready(Two);
      if pending[One].None? {
        var mv := AutoFill(One);
        pending := pending[One := Some(mv)];
      }
      if pending[Two].None? {
        var mv := AutoFill(Two);
        pending := pending[Two := Some(mv)];
      }
    }

    /** Submits a move for the player pid; `expired` says whether the piece's deadline has
        passed. */
    method Place(pid: string, rotation: int, x: int, expired: bool) returns (outcome: PlaceOutcome)
      requires Valid()
      modifies this, p1, p2, p1.board, p2.board
      ensures Valid() && (State(), outcome) == Placement(old(State()), pid, rotation, x, expired)
    {
      if phase != Playing {
        return WrongPhase;
      }
      var id := Lookup(pid);
      if id.None? {
        return UnknownPlayer;
      }
      var valid := ValidColumns(id.value, rotation % 4);
      if x !in valid {
        return InvalidColumn;
      }
      Submit(id.value, rotation, x, expired);
      return Accepted;
    }

    /** Records the accepted move of a seat, then resolves the piece if both seats have
        moved or the deadline has passed. */
    method Submit(id: SeatId, rotation: int, x: int, expired: bool)
      requires Valid() && Verdict(State(), Name(id), rotation, x) == Accepted
      modifies this, p1, p2, p1.board, p2.board
      ensures Valid() && State() == Placement(old(State()), Name(id), rotation, x, expired).0
    {
      ghost var s := State();
      LookupName(id);
      PlaceKeepsGood(s, Name(id), rotation, x);
      pending := pending[id := Some(Move(rotation % 4, x))];
      assert State() == Record(s, id, rotation, x);
      if pending[One].Some? && pending[Two].Some? {
        ResolvePiece();
      } else if expired {
        ResolvePiece();
      }
    }

    /** The periodic check; `expired` says whether the piece's deadline has passed. */
    method Tick(expired: bool)
      requires Valid()
      modifies this, p1, p2, p1.board, p2.board
      ensures Valid() && State() == Ticked(old(State()), expired)
    {
      if phase == Playing && expired {
        ResolvePiece();
      }
    }

    /** The winner and the payouts: more lines wins, then more tetrises, then not having
        topped out; otherwise the pot is split. */
    method Result() returns (r: Payout)
      ensures r == TetrisRules.Result(ante, p1.Sheet(), p2.Sheet())
      ensures r.p1 + r.p2 == 2 * ante
    {
      var pot := ante * 2;
      var s1, s2 := p1.Sheet(), p2.Sheet();
      if s1.lines > s2.lines {
        return Payout(Some(P1), pot, 0);
      }
      if s2.lines > s1.lines {
        return Payout(Some(P2), 0, pot);
      }
      if s1.tetris > s2.tetris {
        return Payout(Some(P1), pot, 0);
      }
      if s2.tetris > s1.tetris {
        return Payout(Some(P2), 0, pot);
      }
      if s1.tops && !s2.tops {
        return Payout(Some(P2), 0, pot);
      }
      if s2.tops && !s1.tops {
        return Payout(Some(P1), pot, 0);
      }
      return Payout(None, pot / 2, pot - pot / 2);
    }
  }
}
