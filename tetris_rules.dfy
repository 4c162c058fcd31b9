// The rules both Tetris games share on top of the board primitives: the piece queue
// built from shuffled bags, a player's score sheet, what playing one piece does to a
// board and a score sheet, and the winner and payout at the end.

module TetrisRules {
  import opened Options
  import opened Permutations
  import opened Tetris

  // ---------------------------------------------------------------------------
  // The piece queue

  /** One bag: the seven pieces in the order a shuffle puts them, position i taking the
      piece at position perm[i] of the piece table. */
  function Bag(perm: seq<int>): (bag: seq<char>)
    requires IsPermutation(perm, 7)
    ensures |bag| == 7 && forall i :: 0 <= i < 7 ==> bag[i] == PIECES[perm[i]]
  {
    seq(7, i requires 0 <= i < 7 => PIECES[perm[i]])
  }

  /** Every shuffle is a reordering of the seven pieces. */
  predicate Shuffles(shuffles: seq<seq<int>>) {
    forall b :: 0 <= b < |shuffles| ==> IsPermutation(shuffles[b], 7)
  }

  /** The queue length for a requested piece count (a count below one gives no pieces). */
  function QueueLength(pieceCount: int): nat {
    if pieceCount > 0 then pieceCount else 0
  }

  /** Appends whole shuffled bags until there are at least pieceCount pieces, then keeps
      the first pieceCount; `shuffles` supplies the order of each bag in turn. */
  method BuildQueue(pieceCount: int, shuffles: seq<seq<int>>) returns (queue: seq<char>)
    requires Shuffles(shuffles) && pieceCount <= 7 * |shuffles|
    ensures |queue| == QueueLength(pieceCount)
    ensures forall i :: 0 <= i < |queue| ==> queue[i] == PIECES[shuffles[i / 7][i % 7]]
  {
    var q: seq<char> := [];
    var b := 0;
    while |q| < pieceCount
      invariant 0 <= b <= |shuffles| && |q| == 7 * b
      invariant forall i :: 0 <= i < |q| ==> q[i] == PIECES[shuffles[i / 7][i % 7]]
      decreases pieceCount - |q|
    {
      var bag := Bag(shuffles[b]);
      q := q + bag;
      b := b + 1;
    }
    queue := q[..QueueLength(pieceCount)];
  }

  /** Every piece of a queue built this way is one of the seven. */
  lemma QueuePieces(queue: seq<char>, shuffles: seq<seq<int>>)
    requires Shuffles(shuffles) && |queue| <= 7 * |shuffles|
    requires forall i :: 0 <= i < |queue| ==> queue[i] == PIECES[shuffles[i / 7][i % 7]]
    ensures forall i :: 0 <= i < |queue| ==> queue[i] in PIECES
  {
    forall i | 0 <= i < |queue|
      ensures queue[i] in PIECES
    {
      assert 0 <= shuffles[i / 7][i % 7] < 7;
    }
  }

  /** Each complete run of seven consecutive pieces starting at a multiple of seven holds
      every piece exactly once. */
  lemma QueueBlocks(queue: seq<char>, shuffles: seq<seq<int>>, b: int)
    requires Shuffles(shuffles) && |queue| <= 7 * |shuffles|
    requires forall i :: 0 <= i < |queue| ==> queue[i] == PIECES[shuffles[i / 7][i % 7]]
    requires 0 <= b && 7 * b + 7 <= |queue|
    ensures forall p :: p in PIECES ==> p in queue[7 * b .. 7 * b + 7]
    ensures forall i, j :: 7 * b <= i < j < 7 * b + 7 ==> queue[i] != queue[j]
  {
    var perm := shuffles[b];
    var block := queue[7 * b .. 7 * b + 7];
    forall k | 0 <= k < 7
      ensures block[k] == PIECES[perm[k]]
    {
      assert (7 * b + k) / 7 == b && (7 * b + k) % 7 == k;
    }
    PermutationCovers(perm, 7);
    forall p | p in PIECES
      ensures p in block
    {
      var n :| 0 <= n < 7 && PIECES[n] == p;
      assert n in Image(perm);
      var k :| 0 <= k < 7 && perm[k] == n;
      assert block[k] == p;
    }
    forall i, j | 7 * b <= i < j < 7 * b + 7
      ensures queue[i] != queue[j]
    {
      assert queue[i] == block[i - 7 * b] && queue[j] == block[j - 7 * b];
      assert perm[i - 7 * b] != perm[j - 7 * b];
    }
  }

  // ---------------------------------------------------------------------------
  // Score sheets and playing a piece

  /** A player's score sheet: cleared lines, clears of four lines, and whether the player
      has topped out. */
  datatype Stats = Stats(lines: int, tetris: int, tops: bool)

  /** The score sheet a game starts with. */
  const FRESH: Stats := Stats(0, 0, false)

  /** A successful drop lies inside the grid, so locking it never tops out. */
  lemma DropLocks(g: seq<Row>, piece: char, rotation: int, x: int)
    requires WellFormed(g) && piece in PIECES && Drop(g, piece, rotation, x).Some?
    ensures InGrid(Drop(g, piece, rotation, x).value) && OnGrid(Drop(g, piece, rotation, x).value)
    ensures Locked(g, piece, Drop(g, piece, rotation, x).value).0 >= 0
  {
    var cells := Drop(g, piece, rotation, x).value;
    DropRests(g, Shape(piece, rotation), x);
    assert forall i :: 0 <= i < |cells| ==> cells[i].1 >= 0;
    LockedMeaning(g, piece, cells);
  }

  /** Plays a piece with a move on a board: a drop that fails tops the player out and
      leaves the board; otherwise the piece is locked, a lock that fails tops the player
      out, and a lock that succeeds adds the cleared rows to the lines and counts a clear
      of four rows as a tetris. */
  function Play(g: seq<Row>, s: Stats, piece: char, mv: Move): (seq<Row>, Stats)
    requires WellFormed(g) && piece in PIECES
  {
    match Drop(g, piece, mv.rot, mv.x)
    case None => (g, s.(tops := true))
    case Some(cells) =>
      DropLocks(g, piece, mv.rot, mv.x);
      var (n, h) := Locked(g, piece, cells);
      (h, Scored(s, n))
  }

  /** The score sheet after a lock that reported n: a failed lock (n < 0) tops the player
      out; otherwise n cleared rows are added to the lines, and a clear of four counts as
      a tetris. */
  function Scored(s: Stats, n: int): (t: Stats)
    ensures n < 0 ==> t == s.(tops := true)
    ensures n >= 0 ==> t.lines == s.lines + n && t.tops == s.tops
    ensures n >= 0 ==> (t.tetris == s.tetris + 1 <==> n == 4) && (n != 4 ==> t.tetris == s.tetris)
  {
    if n < 0 then s.(tops := true)
    else s.(lines := s.lines + n, tetris := s.tetris + if n == 4 then 1 else 0)
  }

  /** No row of the board is full. */
  predicate NoFullRow(g: seq<Row>) {
    forall y :: 0 <= y < |g| ==> !Full(g[y])
  }

  /** Playing a piece keeps the board HEIGHT rows of WIDTH cells with no full row; it tops
      the player out exactly when the drop fails (a successful drop always locks); and
      otherwise it locks the piece where the drop put it, clears the rows that became full,
      adds their number to the lines and counts a tetris exactly when there were four. */
  lemma PlayMeaning(g: seq<Row>, s: Stats, piece: char, mv: Move)
    requires WellFormed(g) && NoFullRow(g) && piece in PIECES
    ensures var (h, t) := Play(g, s, piece, mv);
      && WellFormed(h) && NoFullRow(h)
      && (t.tops <==> s.tops || Drop(g, piece, mv.rot, mv.x).None?)
      && (Drop(g, piece, mv.rot, mv.x).None? ==> h == g && t.lines == s.lines && t.tetris == s.tetris)
      && (Drop(g, piece, mv.rot, mv.x).Some? ==>
            var w := Write(g, piece, Drop(g, piece, mv.rot, mv.x).value);
            && h == Cleared(w)
            && t.lines == s.lines + CountFull(w)
            && (t.tetris == s.tetris + 1 <==> CountFull(w) == 4)
            && (CountFull(w) != 4 ==> t.tetris == s.tetris))
  {
    match Drop(g, piece, mv.rot, mv.x)
    case None =>
    case Some(cells) =>
      DropLocks(g, piece, mv.rot, mv.x);
      LockedMeaning(g, piece, cells);
  }

  // ---------------------------------------------------------------------------
  // Winner and payout

  /** The identifiers of the two seats. */
  const P1: string := "P1"
  const P2: string := "P2"

  /** The two seats. */
  datatype SeatId = One | Two

  /** There are exactly two seats. */
  lemma Seats(id: SeatId)
    ensures id == One || id == Two
  {
    match id {
      case One =>
      case Two =>
    }
  }

  /** The seat opposite a seat. */
  function Other(id: SeatId): (o: SeatId)
    ensures o != id
  {
    if id == One then Two else One
  }

  /** The identifier of a seat. */
  function Name(id: SeatId): string {
    if id == One then P1 else P2
  }

  /** The seat a player identifier names, if any: only P1 and P2 name seats. */
  function Lookup(pid: string): (id: Option<SeatId>)
    ensures id.Some? <==> pid == P1 || pid == P2
    ensures id.Some? ==> Name(id.value) == pid
    ensures id == Some(One) <==> pid == P1
  {
    if pid == P1 then Some(One) else if pid == P2 then Some(Two) else None
  }

  /** Each seat's identifier names it. */
  lemma LookupName(id: SeatId)
    ensures Lookup(Name(id)) == Some(id)
  {
    assert P1[1] != P2[1];
  }

  /** The result of a game: the winning seat, if any, and what each seat receives. */
  datatype Payout = Payout(winner: Option<string>, p1: int, p2: int)

  /** The ranking key of a score sheet: lines first, then tetrises, then not having
      topped out. */
  function Key(s: Stats): (int, int, int) {
    (s.lines, s.tetris, if s.tops then 0 else 1)
  }

  /** a ranks strictly above b in the lexicographic order of their keys. */
  predicate Ahead(a: Stats, b: Stats) {
    var (ka, kb) := (Key(a), Key(b));
    ka.0 > kb.0 || (ka.0 == kb.0 && (ka.1 > kb.1 || (ka.1 == kb.1 && ka.2 > kb.2)))
  }

  /** The payout rule: more lines wins; equal lines, more tetrises wins; equal again, the
      seat that did not top out wins against one that did; otherwise the pot is split,
      the first seat receiving half of it rounded down and the second the rest. */
  function Result(ante: int, s1: Stats, s2: Stats): (r: Payout)
    ensures r.p1 + r.p2 == 2 * ante
    ensures r.winner == Some(P1) <==> Ahead(s1, s2)
    ensures r.winner == Some(P2) <==> Ahead(s2, s1)
    ensures r.winner == Some(P1) ==> r.p1 == 2 * ante && r.p2 == 0
    ensures r.winner == Some(P2) ==> r.p1 == 0 && r.p2 == 2 * ante
    ensures r.winner.None? ==> Key(s1) == Key(s2) && r.p1 == ante && r.p2 == ante
  {
    var pot := ante * 2;
    if s1.lines > s2.lines then Payout(Some(P1), pot, 0)
    else if s2.lines > s1.lines then Payout(Some(P2), 0, pot)
    else if s1.tetris > s2.tetris then Payout(Some(P1), pot, 0)
    else if s2.tetris > s1.tetris then Payout(Some(P2), 0, pot)
    else if s1.tops && !s2.tops then Payout(Some(P2), 0, pot)
    else if s2.tops && !s1.tops then Payout(Some(P1), pot, 0)
    else Payout(None, pot / 2, pot - pot / 2)
  }

  /** Swapping the seats swaps the winner and the payouts. */
  lemma ResultSymmetric(ante: int, s1: Stats, s2: Stats)
    ensures Result(ante, s2, s1).p1 == Result(ante, s1, s2).p2
    ensures Result(ante, s2, s1).p2 == Result(ante, s1, s2).p1
    ensures Result(ante, s1, s2).winner == Some(P1) <==> Result(ante, s2, s1).winner == Some(P2)
  {
  }
}
