/**
 * The rule engine: per-piece move shapes, the generic obstruction and
 * capture test, the self-check gate, check detection by four attack sweeps,
 * and move enumeration in the engine's fixed scan order.
 */
module Rules {
  import opened Wrappers
  import opened Board

  /** Every outcome code the engine reports. */
  datatype Message =
    | KingStillThreatened
    | KingWillBeThreatened
    | CaptureAndThreatened
    | LegalMove
    | InvalidMove
    | NotYourPiece
    | PositionNotContainPiece
    | InvalidArgument
    | NoHistory
    | Success
    | IoException

  function Abs(x: int): nat {
    if x < 0 then -x else x
  }

  function Max(a: int, b: int): int {
    if a > b then a else b
  }

  function DeltaRow(m: Move): int {
    m.dest.row - m.start.row
  }

  function DeltaCol(m: Move): int {
    m.dest.col - m.start.col
  }

  /** The unit step of a non-zero delta: the exact quotient `|d| / d`. */
  function Sign(d: int): int {
    if d > 0 then 1 else if d < 0 then -1 else 0
  }

  // ---------------------------------------------------------------------
  // Shapes

  predicate RookShape(m: Move) {
    Abs(DeltaRow(m)) == 0 || Abs(DeltaCol(m)) == 0
  }

  predicate BishopShape(m: Move) {
    Abs(DeltaRow(m)) == Abs(DeltaCol(m))
  }

  predicate QueenShape(m: Move) {
    RookShape(m) || BishopShape(m)
  }

  predicate KnightShape(m: Move) {
    (Abs(DeltaRow(m)) == 2 && Abs(DeltaCol(m)) == 1) || (Abs(DeltaRow(m)) == 1 && Abs(DeltaCol(m)) == 2)
  }

  predicate KingShape(m: Move) {
    Abs(DeltaRow(m)) <= 1 && Abs(DeltaCol(m)) <= 1
  }

  /**
   * The pawn's step pattern before the generic test: one forward, two
   * forward from the home rank (row 1 for Black, row 6 otherwise), or one
   * diagonal onto a capturable piece.
   */
  predicate PawnShape(b: Board, m: Move)
    requires IsLegalMoveCoordinates(m)
  {
    var dr := DeltaRow(m);
    var dc := DeltaCol(m);
    var fwd := if ColorOf(At(b, m.start)) == Some(Black) then 1 else -1;
    var home := if ColorOf(At(b, m.start)) == Some(Black) then 1 else 6;
    || (dr == fwd && dc == 0)
    || (dr == 2 * fwd && dc == 0 && m.start.row == home)
    || (dr == fwd && Abs(dc) == 1 && DoesMoveCapturePiece(b, m))
  }

  /** The shape test of the piece type standing on the start square. */
  predicate ShapeOk(b: Board, m: Move)
    requires IsLegalMoveCoordinates(m)
  {
    match TypeOf(At(b, m.start))
    case Rook => RookShape(m)
    case Bishop => BishopShape(m)
    case Queen => QueenShape(m)
    case Knight => KnightShape(m)
    case King => KingShape(m)
    case Pawn => PawnShape(b, m)
    case Blank => false
  }

  /** Straight or diagonal: the squares in between lie on one line. */
  predicate OnLine(m: Move) {
    DeltaRow(m) == 0 || DeltaCol(m) == 0 || Abs(DeltaRow(m)) == Abs(DeltaCol(m))
  }

  /** The `i`-th square from the start along the move's line. */
  function PathSquare(m: Move, i: int): Coord {
    Coord(m.start.row + Sign(DeltaRow(m)) * i, m.start.col + Sign(DeltaCol(m)) * i)
  }

  /** The number of steps of a line move. */
  function PathLength(m: Move): int {
    Max(Abs(DeltaRow(m)), Abs(DeltaCol(m)))
  }

  lemma PathSquareOnBoard(m: Move, i: int)
    requires IsLegalMoveCoordinates(m) && OnLine(m) && 0 <= i <= PathLength(m)
    ensures IsLegalCoord(PathSquare(m, i))
  {
  }

  /** Every square strictly between start and destination is empty. */
  predicate PathIsEmpty(b: Board, m: Move)
    requires IsLegalMoveCoordinates(m) && OnLine(m)
  {
    forall i | 1 <= i < PathLength(m) ::
      IsLegalCoord(PathSquare(m, i)) ==> At(b, PathSquare(m, i)) == EmptyEntry
  }

  /** The obstruction loop: squares `i .. PathLength-1` are empty. */
  function PathClear(b: Board, m: Move, i: int): (r: bool)
    requires IsLegalMoveCoordinates(m) && OnLine(m) && 1 <= i
    ensures r <==> forall k | i <= k < PathLength(m) ::
                     IsLegalCoord(PathSquare(m, k)) ==> At(b, PathSquare(m, k)) == EmptyEntry
    decreases PathLength(m) - i
  {
    if i >= PathLength(m) then true
    else
      PathSquareOnBoard(m, i);
      At(b, PathSquare(m, i)) == EmptyEntry && PathClear(b, m, i + 1)
  }

  /**
   * `doesMoveCapturePiece`: the destination holds a piece of another colour,
   * so playing the move replaces a piece of one side by one of the other.
   */
  predicate DoesMoveCapturePiece(b: Board, m: Move): (r: bool)
    requires IsLegalMoveCoordinates(m)
    ensures r <==> && m.start != m.dest && At(b, m.dest) != EmptyEntry
                   && ColorOf(At(ApplyMove(b, m), m.dest)) != ColorOf(At(b, m.dest))
  {
    At(b, m.dest) != EmptyEntry && ColorOf(At(b, m.dest)) != ColorOf(At(b, m.start))
  }

  // ---------------------------------------------------------------------
  // Check detection

  /** Row-major square `k` (`findKingLocation`, `canPlayerMoveTo`). */
  function RowMajor(k: int): (r: Coord)
    ensures 0 <= k < 64 ==> IsLegalCoord(r) && r.row * 8 + r.col == k
  {
    Coord(k / 8, k % 8)
  }

  predicate IsKingOf(p: char, color: Color) {
    ColorOf(p) == Some(color) && TypeOf(p) == King
  }

  /** `findKingLocation` from square `k` on: the first king of the colour. */
  function FindKingFrom(b: Board, color: Color, k: int): (r: Option<Coord>)
    requires 0 <= k <= 64
    ensures r.Some? ==> IsLegalCoord(r.value) && IsKingOf(At(b, r.value), color)
                        && k <= r.value.row * 8 + r.value.col
                        && forall j | k <= j < r.value.row * 8 + r.value.col :: !IsKingOf(At(b, RowMajor(j)), color)
    ensures r.None? <==> forall j | k <= j < 64 :: !IsKingOf(At(b, RowMajor(j)), color)
    decreases 64 - k
  {
    if k == 64 then None
    else if IsKingOf(At(b, RowMajor(k)), color) then Some(RowMajor(k))
    else FindKingFrom(b, color, k + 1)
  }

  /** `findKingLocation`: the king of the colour nearest row 0, column 0. */
  function FindKingLocation(b: Board, color: Color): (r: Option<Coord>)
    ensures r.None? <==> forall c | IsLegalCoord(c) :: !IsKingOf(At(b, c), color)
    ensures r.Some? ==> IsLegalCoord(r.value) && IsKingOf(At(b, r.value), color)
  {
    var r := FindKingFrom(b, color, 0);
    if r.None? then
      forall c | IsLegalCoord(c) ensures !IsKingOf(At(b, c), color) {
        assert RowMajor(c.row * 8 + c.col) == c;
      }
      r
    else r
  }

  /** The colour that attacks the piece on square `k`. */
  function EnemyOf(b: Board, k: Coord): Color
    requires IsLegalCoord(k)
  {
    if ColorOf(At(b, k)) == Some(White) then Black else White
  }

  /** The square `i` steps from `k` in direction `(dr, dc)`. */
  function RayStep(k: Coord, dr: int, dc: int, i: int): Coord {
    Coord(k.row + dr * i, k.col + dc * i)
  }

  /** Steps `i .. j-1` of the ray from `k` are on the board and empty. */
  ghost predicate RayEmpty(b: Board, k: Coord, dr: int, dc: int, i: int, j: int) {
    forall l | i <= l < j :: IsLegalCoord(RayStep(k, dr, dc, l)) && At(b, RayStep(k, dr, dc, l)) == EmptyEntry
  }

  /** Step `j` of the ray is on the board and holds `p1` or `p2`, and steps `i .. j-1` are empty. */
  ghost predicate RayStops(b: Board, k: Coord, dr: int, dc: int, i: int, j: int, p1: char, p2: char) {
    var c := RayStep(k, dr, dc, j);
    IsLegalCoord(c) && (At(b, c) == p1 || At(b, c) == p2) && RayEmpty(b, k, dr, dc, i, j)
  }

  /** Past an empty square at step `i`, the ray stops somewhere from `i + 1` on exactly when it stops somewhere from `i` on. */
  lemma RayStopsPastEmpty(b: Board, k: Coord, dr: int, dc: int, i: int, next: int, p1: char, p2: char)
    requires next == i + 1
    requires IsLegalCoord(RayStep(k, dr, dc, i)) && At(b, RayStep(k, dr, dc, i)) == EmptyEntry
    requires At(b, RayStep(k, dr, dc, i)) != p1 && At(b, RayStep(k, dr, dc, i)) != p2
    ensures (exists j | next <= j < 8 :: RayStops(b, k, dr, dc, next, j, p1, p2)) <==>
            (exists j | i <= j < 8 :: RayStops(b, k, dr, dc, i, j, p1, p2))
  {
    if j :| next <= j < 8 && RayStops(b, k, dr, dc, next, j, p1, p2) {
      assert RayStops(b, k, dr, dc, i, j, p1, p2);
    }
    if j :| i <= j < 8 && RayStops(b, k, dr, dc, i, j, p1, p2) {
      assert RayStops(b, k, dr, dc, next, j, p1, p2);
    }
  }

  /** A ray that meets the board edge or another piece at step `i` stops nowhere from `i` on. */
  lemma RayBlocked(b: Board, k: Coord, dr: int, dc: int, i: int, p1: char, p2: char)
    requires var c := RayStep(k, dr, dc, i);
             !IsLegalCoord(c) || (At(b, c) != EmptyEntry && At(b, c) != p1 && At(b, c) != p2)
    ensures forall j | i <= j < 8 :: !RayStops(b, k, dr, dc, i, j, p1, p2)
  {
    forall j | i <= j < 8
      ensures !RayStops(b, k, dr, dc, i, j, p1, p2)
    {
      if j > i {
        assert !(IsLegalCoord(RayStep(k, dr, dc, i)) && At(b, RayStep(k, dr, dc, i)) == EmptyEntry);
      }
    }
  }

  /**
   * One sliding sweep: walk from `k` in direction `(dr, dc)`, starting at
   * step `i`; true on reaching `p1` or `p2`, false on any other piece or the
   * board edge.
   */
  function RaySees(b: Board, k: Coord, dr: int, dc: int, i: int, p1: char, p2: char): (r: bool)
    requires IsLegalCoord(k)
    ensures r <==> exists j | i <= j < 8 :: RayStops(b, k, dr, dc, i, j, p1, p2)
    decreases 8 - i
  {
    if i >= 8 then false
    else
      var c := RayStep(k, dr, dc, i);
      if !IsLegalCoord(c) then
        RayBlocked(b, k, dr, dc, i, p1, p2);
        false
      else if At(b, c) == p1 || At(b, c) == p2 then
        assert RayStops(b, k, dr, dc, i, i, p1, p2);
        true
      else if At(b, c) != EmptyEntry then
        RayBlocked(b, k, dr, dc, i, p1, p2);
        false
      else
        RayStopsPastEmpty(b, k, dr, dc, i, i + 1, p1, p2);
        RaySees(b, k, dr, dc, i + 1, p1, p2)
  }

  /** A unit direction: each component -1, 0 or 1, not both 0. */
  predicate UnitDirection(dr: int, dc: int) {
    -1 <= dr <= 1 && -1 <= dc <= 1 && (dr != 0 || dc != 0)
  }

  /** Step `j` of a ray, read as a move from `k`: a line move of `j` steps whose path squares are the ray's. */
  lemma RayGeometry(k: Coord, dr: int, dc: int, j: int)
    requires UnitDirection(dr, dc) && 1 <= j
    ensures var m := PlainMove(k, RayStep(k, dr, dc, j));
            && m.dest != k && OnLine(m) && Sign(DeltaRow(m)) == dr && Sign(DeltaCol(m)) == dc
            && PathLength(m) == j
            && forall l :: PathSquare(m, l) == RayStep(k, dr, dc, l)
  {
    var m := PlainMove(k, RayStep(k, dr, dc, j));
    assert DeltaRow(m) == dr * j && DeltaCol(m) == dc * j;
    if dr == 0 {
      assert dc == 1 || dc == -1;
    } else if dc == 0 {
      assert dr == 1 || dr == -1;
    } else {
      assert Abs(dr * j) == j && Abs(dc * j) == j;
    }
  }

  /** A line move from `k` ends at the step of the ray in its direction given by its length. */
  lemma LineGeometry(k: Coord, c: Coord)
    requires c != k && OnLine(PlainMove(k, c))
    ensures var m := PlainMove(k, c);
            && UnitDirection(Sign(DeltaRow(m)), Sign(DeltaCol(m))) && 1 <= PathLength(m)
            && c == RayStep(k, Sign(DeltaRow(m)), Sign(DeltaCol(m)), PathLength(m))
  {
  }

  /** `c` lies on the ray from `k` in direction `(dr, dc)`, nothing stands between, and it holds `p1` or `p2`. */
  ghost predicate RayHit(b: Board, k: Coord, c: Coord, dr: int, dc: int, p1: char, p2: char)
    requires IsLegalCoord(k) && IsLegalCoord(c)
  {
    var m := PlainMove(k, c);
    && c != k && OnLine(m) && Sign(DeltaRow(m)) == dr && Sign(DeltaCol(m)) == dc
    && PathIsEmpty(b, m) && (At(b, c) == p1 || At(b, c) == p2)
  }

  /** A sweep from step 1 sees `p1` or `p2` exactly when some square on its ray holds one with nothing between. */
  lemma RayAttacker(b: Board, k: Coord, dr: int, dc: int, p1: char, p2: char)
    requires IsLegalCoord(k) && UnitDirection(dr, dc)
    ensures RaySees(b, k, dr, dc, 1, p1, p2) <==> exists c | IsLegalCoord(c) :: RayHit(b, k, c, dr, dc, p1, p2)
  {
    if RaySees(b, k, dr, dc, 1, p1, p2) {
      var j :| 1 <= j < 8 && RayStops(b, k, dr, dc, 1, j, p1, p2);
      StopIsHit(b, k, dr, dc, j, p1, p2);
    }
    if c :| IsLegalCoord(c) && RayHit(b, k, c, dr, dc, p1, p2) {
      HitIsStop(b, k, c, dr, dc, p1, p2);
    }
  }

  /** Where the ray stops is a hit on that ray. */
  lemma StopIsHit(b: Board, k: Coord, dr: int, dc: int, j: int, p1: char, p2: char)
    requires IsLegalCoord(k) && UnitDirection(dr, dc) && 1 <= j
    requires RayStops(b, k, dr, dc, 1, j, p1, p2)
    ensures RayHit(b, k, RayStep(k, dr, dc, j), dr, dc, p1, p2)
  {
    RayGeometry(k, dr, dc, j);
  }

  /** A hit on the ray is where the ray stops, within the board's eight steps. */
  lemma HitIsStop(b: Board, k: Coord, c: Coord, dr: int, dc: int, p1: char, p2: char)
    requires IsLegalCoord(k) && IsLegalCoord(c) && UnitDirection(dr, dc)
    requires RayHit(b, k, c, dr, dc, p1, p2)
    ensures 1 <= PathLength(PlainMove(k, c)) < 8
    ensures RayStops(b, k, dr, dc, 1, PathLength(PlainMove(k, c)), p1, p2)
  {
    var m := PlainMove(k, c);
    LineGeometry(k, c);
    var j := PathLength(m);
    RayGeometry(k, dr, dc, j);
    forall l | 1 <= l < j
      ensures IsLegalCoord(RayStep(k, dr, dc, l)) && At(b, RayStep(k, dr, dc, l)) == EmptyEntry
    {
      PathSquareOnBoard(m, l);
      assert PathSquare(m, l) == RayStep(k, dr, dc, l);
    }
  }

  /**
   * A queen, rook or bishop of colour `e` on `c` attacks `k`: `c` is on a
   * line from `k` the piece moves along, and nothing stands between.
   */
  ghost predicate LineAttack(b: Board, k: Coord, c: Coord, e: Color)
    requires IsLegalCoord(k) && IsLegalCoord(c)
  {
    var m := PlainMove(k, c);
    var p := At(b, c);
    && c != k && OnLine(m) && PathIsEmpty(b, m)
    && (|| p == CreatePiece(e, Queen)
        || (p == CreatePiece(e, Rook) && RookShape(m))
        || (p == CreatePiece(e, Bishop) && BishopShape(m)))
  }

  /** A line attack is a hit on one of the eight rays, rook pieces straight and bishop pieces diagonal. */
  lemma LineAttackByDirection(b: Board, k: Coord, c: Coord, e: Color)
    requires IsLegalCoord(k) && IsLegalCoord(c)
    ensures var q, rk, bp := CreatePiece(e, Queen), CreatePiece(e, Rook), CreatePiece(e, Bishop);
            LineAttack(b, k, c, e) <==>
              || RayHit(b, k, c, -1, 0, q, rk) || RayHit(b, k, c, 1, 0, q, rk)
              || RayHit(b, k, c, 0, 1, q, rk) || RayHit(b, k, c, 0, -1, q, rk)
              || RayHit(b, k, c, -1, -1, q, bp) || RayHit(b, k, c, -1, 1, q, bp)
              || RayHit(b, k, c, 1, -1, q, bp) || RayHit(b, k, c, 1, 1, q, bp)
  {
    var m := PlainMove(k, c);
    if c != k && OnLine(m) {
      LineGeometry(k, c);
    }
  }

  /** The eight sweeps of the queen, rook and bishop test, read as one statement about squares. */
  lemma QueenRookBishopSweeps(b: Board, k: Coord, e: Color)
    requires IsLegalCoord(k)
    ensures var q, rk, bp := CreatePiece(e, Queen), CreatePiece(e, Rook), CreatePiece(e, Bishop);
            (|| RaySees(b, k, -1, 0, 1, q, rk) || RaySees(b, k, 1, 0, 1, q, rk)
             || RaySees(b, k, 0, 1, 1, q, rk) || RaySees(b, k, 0, -1, 1, q, rk)
             || RaySees(b, k, -1, -1, 1, q, bp) || RaySees(b, k, -1, 1, 1, q, bp)
             || RaySees(b, k, 1, -1, 1, q, bp) || RaySees(b, k, 1, 1, 1, q, bp))
            <==> exists c | IsLegalCoord(c) :: LineAttack(b, k, c, e)
  {
    var q, rk, bp := CreatePiece(e, Queen), CreatePiece(e, Rook), CreatePiece(e, Bishop);
    RayAttacker(b, k, -1, 0, q, rk);
    RayAttacker(b, k, 1, 0, q, rk);
    RayAttacker(b, k, 0, 1, q, rk);
    RayAttacker(b, k, 0, -1, q, rk);
    RayAttacker(b, k, -1, -1, q, bp);
    RayAttacker(b, k, -1, 1, q, bp);
    RayAttacker(b, k, 1, -1, q, bp);
    RayAttacker(b, k, 1, 1, q, bp);
    forall c | IsLegalCoord(c)
      ensures LineAttack(b, k, c, e) <==>
              || RayHit(b, k, c, -1, 0, q, rk) || RayHit(b, k, c, 1, 0, q, rk)
              || RayHit(b, k, c, 0, 1, q, rk) || RayHit(b, k, c, 0, -1, q, rk)
              || RayHit(b, k, c, -1, -1, q, bp) || RayHit(b, k, c, -1, 1, q, bp)
              || RayHit(b, k, c, 1, -1, q, bp) || RayHit(b, k, c, 1, 1, q, bp)
    {
      LineAttackByDirection(b, k, c, e);
    }
  }

  /** `isKingThrethenedByQueenRookBishop`: four straight and four diagonal sweeps. */
  function ThreatenedByQueenRookBishop(b: Board, k: Coord): (r: bool)
    requires IsLegalCoord(k)
    ensures r <==> exists c | IsLegalCoord(c) :: LineAttack(b, k, c, EnemyOf(b, k))
  {
    var e := EnemyOf(b, k);
    var q := CreatePiece(e, Queen);
    var rk := CreatePiece(e, Rook);
    var bp := CreatePiece(e, Bishop);
    QueenRookBishopSweeps(b, k, e);
    || RaySees(b, k, -1, 0, 1, q, rk)
    || RaySees(b, k, 1, 0, 1, q, rk)
    || RaySees(b, k, 0, 1, 1, q, rk)
    || RaySees(b, k, 0, -1, 1, q, rk)
    || RaySees(b, k, -1, -1, 1, q, bp)
    || RaySees(b, k, -1, 1, 1, q, bp)
    || RaySees(b, k, 1, -1, 1, q, bp)
    || RaySees(b, k, 1, 1, 1, q, bp)
  }

  /**
   * The knight offsets exactly as the source's table lists them:
   * `(-1,-2)` and `(+1,-2)` appear twice and `(-1,+2)`, `(+1,+2)` never.
   */
  const KnightOffsetsAsWritten: seq<(int, int)> :=
    [(-1, -2), (1, -2), (-2, -1), (2, -1), (-2, 1), (2, 1), (-1, -2), (1, -2)]

  /** The eight knight jumps: the table with its last two entries mirrored to the right. */
  const KnightOffsets: seq<(int, int)> :=
    [(-1, -2), (1, -2), (-2, -1), (2, -1), (-2, 1), (2, 1), (-1, 2), (1, 2)]

  const KingOffsets: seq<(int, int)> :=
    [(-1, -1), (0, -1), (1, -1), (-1, 0), (1, 0), (-1, 1), (0, 1), (1, 1)]

  /** The squares a pawn of colour `e` attacks `k` from. */
  function PawnOffsets(e: Color): seq<(int, int)> {
    if e == White then [(1, 1), (1, -1)] else [(-1, 1), (-1, -1)]
  }

  /** The row, relative to the square it attacks, that a pawn of colour `e` attacks from: White moves towards row 0. */
  function PawnAttackRow(e: Color): int {
    if e == White then 1 else -1
  }

  /** Some offset from index `i` on lands on the board on glyph `p`. */
  function AnyAt(b: Board, k: Coord, offsets: seq<(int, int)>, i: nat, p: char): (r: bool)
    requires IsLegalCoord(k) && i <= |offsets|
    ensures r <==> exists j | i <= j < |offsets| ::
                     var c := Coord(k.row + offsets[j].0, k.col + offsets[j].1);
                     IsLegalCoord(c) && At(b, c) == p
    decreases |offsets| - i
  {
    if i == |offsets| then false
    else
      var c := Coord(k.row + offsets[i].0, k.col + offsets[i].1);
      (IsLegalCoord(c) && At(b, c) == p) || AnyAt(b, k, offsets, i + 1, p)
  }

  /** An offset sweep read as a statement about squares: some square whose offset from `k` is listed holds `p`. */
  lemma AnyAtSquares(b: Board, k: Coord, offsets: seq<(int, int)>, p: char)
    requires IsLegalCoord(k)
    ensures AnyAt(b, k, offsets, 0, p) <==>
            exists c | IsLegalCoord(c) :: (DeltaRow(PlainMove(k, c)), DeltaCol(PlainMove(k, c))) in offsets && At(b, c) == p
  {
    if AnyAt(b, k, offsets, 0, p) {
      var j :| 0 <= j < |offsets| &&
               var c := Coord(k.row + offsets[j].0, k.col + offsets[j].1);
               IsLegalCoord(c) && At(b, c) == p;
      var c := Coord(k.row + offsets[j].0, k.col + offsets[j].1);
      assert (DeltaRow(PlainMove(k, c)), DeltaCol(PlainMove(k, c))) == offsets[j];
    }
    if c :| IsLegalCoord(c) && (DeltaRow(PlainMove(k, c)), DeltaCol(PlainMove(k, c))) in offsets && At(b, c) == p {
      var j :| 0 <= j < |offsets| && offsets[j] == (DeltaRow(PlainMove(k, c)), DeltaCol(PlainMove(k, c)));
      assert Coord(k.row + offsets[j].0, k.col + offsets[j].1) == c;
    }
  }

  /** The source's knight table holds exactly the knight jumps that do not go two columns right. */
  lemma KnightTableAsWritten(b: Board, k: Coord, p: char)
    requires IsLegalCoord(k)
    ensures AnyAt(b, k, KnightOffsetsAsWritten, 0, p) <==>
            exists c | IsLegalCoord(c) :: KnightShape(PlainMove(k, c)) && DeltaCol(PlainMove(k, c)) != 2 && At(b, c) == p
  {
    AnyAtSquares(b, k, KnightOffsetsAsWritten, p);
    forall c | IsLegalCoord(c)
      ensures (DeltaRow(PlainMove(k, c)), DeltaCol(PlainMove(k, c))) in KnightOffsetsAsWritten <==>
              KnightShape(PlainMove(k, c)) && DeltaCol(PlainMove(k, c)) != 2
    {
    }
  }

  /** The corrected knight table holds exactly the knight jumps. */
  lemma KnightTable(b: Board, k: Coord, p: char)
    requires IsLegalCoord(k)
    ensures AnyAt(b, k, KnightOffsets, 0, p) <==>
            exists c | IsLegalCoord(c) :: KnightShape(PlainMove(k, c)) && At(b, c) == p
  {
    AnyAtSquares(b, k, KnightOffsets, p);
    forall c | IsLegalCoord(c)
      ensures (DeltaRow(PlainMove(k, c)), DeltaCol(PlainMove(k, c))) in KnightOffsets <==> KnightShape(PlainMove(k, c))
    {
    }
  }

  /** The king table holds exactly the king steps. */
  lemma KingTable(b: Board, k: Coord, p: char)
    requires IsLegalCoord(k)
    ensures AnyAt(b, k, KingOffsets, 0, p) <==>
            exists c | IsLegalCoord(c) :: c != k && KingShape(PlainMove(k, c)) && At(b, c) == p
  {
    AnyAtSquares(b, k, KingOffsets, p);
    forall c | IsLegalCoord(c)
      ensures (DeltaRow(PlainMove(k, c)), DeltaCol(PlainMove(k, c))) in KingOffsets <==> c != k && KingShape(PlainMove(k, c))
    {
      KingStep(DeltaRow(PlainMove(k, c)), DeltaCol(PlainMove(k, c)));
    }
  }

  lemma KingStep(dr: int, dc: int)
    ensures (dr, dc) in KingOffsets <==> Abs(dr) <= 1 && Abs(dc) <= 1 && (dr != 0 || dc != 0)
  {
  }

  /** The pawn table of colour `e` holds exactly the two diagonal squares one row towards `e`'s own side. */
  lemma PawnTable(b: Board, k: Coord, e: Color, p: char)
    requires IsLegalCoord(k)
    ensures AnyAt(b, k, PawnOffsets(e), 0, p) <==>
            exists c | IsLegalCoord(c) ::
              DeltaRow(PlainMove(k, c)) == PawnAttackRow(e) && Abs(DeltaCol(PlainMove(k, c))) == 1 && At(b, c) == p
  {
    AnyAtSquares(b, k, PawnOffsets(e), p);
    forall c | IsLegalCoord(c)
      ensures (DeltaRow(PlainMove(k, c)), DeltaCol(PlainMove(k, c))) in PawnOffsets(e) <==>
              DeltaRow(PlainMove(k, c)) == PawnAttackRow(e) && Abs(DeltaCol(PlainMove(k, c))) == 1
    {
    }
  }

  /**
   * `isKingThreathenedByKnight` with the source's offset table: an enemy
   * knight a knight's jump away is seen unless the jump is two columns to
   * the right of the king.
   */
  function ThreatenedByKnightAsWritten(b: Board, k: Coord): (r: bool)
    requires IsLegalCoord(k)
    ensures r <==> exists c | IsLegalCoord(c) ::
                     KnightShape(PlainMove(k, c)) && DeltaCol(PlainMove(k, c)) != 2
                     && At(b, c) == CreatePiece(EnemyOf(b, k), Knight)
  {
    KnightTableAsWritten(b, k, CreatePiece(EnemyOf(b, k), Knight));
    AnyAt(b, k, KnightOffsetsAsWritten, 0, CreatePiece(EnemyOf(b, k), Knight))
  }

  /**
   * The knight sweep with all eight jumps, as the sweep's table evidently
   * intends: an enemy knight threatens the king exactly when it stands a
   * knight's jump away.
   */
  function ThreatenedByKnight(b: Board, k: Coord): (r: bool)
    requires IsLegalCoord(k)
    ensures r <==> exists c | IsLegalCoord(c) :: KnightShape(PlainMove(k, c)) && At(b, c) == CreatePiece(EnemyOf(b, k), Knight)
  {
    KnightTable(b, k, CreatePiece(EnemyOf(b, k), Knight));
    AnyAt(b, k, KnightOffsets, 0, CreatePiece(EnemyOf(b, k), Knight))
  }

  /** `isKingThreathenedByKing`: an enemy king on a neighbouring square. */
  function ThreatenedByKing(b: Board, k: Coord): (r: bool)
    requires IsLegalCoord(k)
    ensures r <==> exists c | IsLegalCoord(c) :: c != k && KingShape(PlainMove(k, c)) && At(b, c) == CreatePiece(EnemyOf(b, k), King)
  {
    KingTable(b, k, CreatePiece(EnemyOf(b, k), King));
    AnyAt(b, k, KingOffsets, 0, CreatePiece(EnemyOf(b, k), King))
  }

  /** `isKingThreathenedByPawn`: an enemy pawn diagonally in front of the king, from the pawn's side. */
  function ThreatenedByPawn(b: Board, k: Coord): (r: bool)
    requires IsLegalCoord(k)
    ensures r <==> exists c | IsLegalCoord(c) ::
                     DeltaRow(PlainMove(k, c)) == PawnAttackRow(EnemyOf(b, k)) && Abs(DeltaCol(PlainMove(k, c))) == 1
                     && At(b, c) == CreatePiece(EnemyOf(b, k), Pawn)
  {
    PawnTable(b, k, EnemyOf(b, k), CreatePiece(EnemyOf(b, k), Pawn));
    AnyAt(b, k, PawnOffsets(EnemyOf(b, k)), 0, CreatePiece(EnemyOf(b, k), Pawn))
  }

  /**
   * A piece of colour `e` on `c` attacks `k` the way the four sweeps look
   * for it: a queen, rook or bishop along a clear line, a knight a jump away
   * (never two columns to the right, as the source's table has it), a king
   * next to it, a pawn diagonally from its own side.
   */
  ghost predicate AttackedFrom(b: Board, k: Coord, c: Coord, e: Color)
    requires IsLegalCoord(k) && IsLegalCoord(c)
  {
    var m := PlainMove(k, c);
    var p := At(b, c);
    || LineAttack(b, k, c, e)
    || (p == CreatePiece(e, Knight) && KnightShape(m) && DeltaCol(m) != 2)
    || (p == CreatePiece(e, King) && c != k && KingShape(m))
    || (p == CreatePiece(e, Pawn) && DeltaRow(m) == PawnAttackRow(e) && Abs(DeltaCol(m)) == 1)
  }

  /** `isKingThrethened`: the four sweeps, first hit wins, with the source's knight table. */
  function KingThreatened(b: Board, k: Coord): (r: bool)
    requires IsLegalCoord(k)
    ensures r <==> exists c | IsLegalCoord(c) :: AttackedFrom(b, k, c, EnemyOf(b, k))
  {
    ThreatenedByQueenRookBishop(b, k) || ThreatenedByKnightAsWritten(b, k)
    || ThreatenedByKing(b, k) || ThreatenedByPawn(b, k)
  }

  /**
   * `spChessGameIsPlayerInCheck`: an absent king counts as in check;
   * otherwise the player is in check exactly when some enemy piece attacks
   * the king the sweeps find.
   */
  function IsPlayerInCheck(b: Board, color: Color): (r: bool)
    ensures (forall c | IsLegalCoord(c) :: !IsKingOf(At(b, c), color)) ==> r
    ensures var k := FindKingLocation(b, color);
            k.Some? ==> (r <==> exists c | IsLegalCoord(c) :: AttackedFrom(b, k.value, c, Opponent(color)))
  {
    var k := FindKingLocation(b, color);
    k.None? || KingThreatened(b, k.value)
  }

  // ---------------------------------------------------------------------
  // Legality

  /** `wouldCauseCheck`: apply, ask whether `color` is in check, undo. */
  function WouldCauseCheck(b: Board, m: Move, color: Option<Color>): (r: (bool, Board))
    requires IsLegalMoveCoordinates(m)
    ensures r.1 == b
    ensures r.0 <==> color.Some? && IsPlayerInCheck(ApplyMove(b, m), color.value)
  {
    var removed := At(b, m.dest);
    var after := ApplyMove(b, m);
    var inCheck := color.Some? && IsPlayerInCheck(after, color.value);
    UndoApplyRoundTrip(b, m);
    (inCheck, UndoMove(after, m, removed))
  }

  /** The move leaves its own side in check (captures of a king are exempt). */
  predicate ExposesKing(b: Board, m: Move)
    requires IsLegalMoveCoordinates(m)
  {
    var color := ColorOf(At(b, m.start));
    TypeOf(At(b, m.dest)) != King && color.Some? && IsPlayerInCheck(ApplyMove(b, m), color.value)
  }

  /**
   * What the generic test demands, stated declaratively: the piece moves,
   * nothing stands in between unless it is a knight, and the destination is
   * empty or holds a piece of another colour, which a pawn takes only
   * diagonally.
   */
  predicate GenericOk(b: Board, m: Move)
    requires IsLegalMoveCoordinates(m) && (TypeOf(At(b, m.start)) == Knight || OnLine(m))
  {
    var piece := At(b, m.start);
    var target := At(b, m.dest);
    && m.start != m.dest
    && (TypeOf(piece) == Knight || PathIsEmpty(b, m))
    && (target == EmptyEntry
        || (ColorOf(target) != ColorOf(piece)
            && (TypeOf(piece) == Pawn ==> Abs(DeltaRow(m)) == 1 && Abs(DeltaCol(m)) == 1)))
  }

  /**
   * `spChessGameIsValidMoveGeneric`, classified by its declarative reading:
   * invalid argument off the board; otherwise legal, king-will-be-threatened
   * or invalid exactly by the obstruction-and-capture test and whether the
   * move exposes the mover's king.
   */
  function IsValidMoveGeneric(b: Board, m: Move): (r: Message)
    requires IsLegalMoveCoordinates(m) ==> TypeOf(At(b, m.start)) == Knight || OnLine(m)
    ensures !IsLegalMoveCoordinates(m) ==> r == InvalidArgument
    ensures IsLegalMoveCoordinates(m) ==>
              && (r == LegalMove <==> GenericOk(b, m) && !ExposesKing(b, m))
              && (r == KingWillBeThreatened <==> GenericOk(b, m) && ExposesKing(b, m))
              && (r == InvalidMove <==> !GenericOk(b, m))
  {
    if !IsLegalMoveCoordinates(m) then InvalidArgument
    else
      var piece := At(b, m.start);
      var target := At(b, m.dest);
      if Abs(DeltaRow(m)) == 0 && Abs(DeltaCol(m)) == 0 then InvalidMove
      else if TypeOf(piece) != Knight && !PathClear(b, m, 1) then InvalidMove
      else if target != EmptyEntry && ColorOf(target) == ColorOf(piece) then InvalidMove
      else if target != EmptyEntry && TypeOf(piece) == Pawn
              && (Abs(DeltaRow(m)) != 1 || Abs(DeltaCol(m)) != 1) then InvalidMove
      else if TypeOf(target) != King && WouldCauseCheck(b, m, ColorOf(piece)).0 then KingWillBeThreatened
      else LegalMove
  }

  /**
   * `spChessGameIsValidMoveRook`: legal exactly when the move has the rook's
   * shape, passes the generic test and keeps the mover's king safe.
   */
  function IsValidMoveRook(b: Board, m: Move): (r: Message)
    ensures IsLegalMoveCoordinates(m) ==>
              && (r == LegalMove <==> RookShape(m) && GenericOk(b, m) && !ExposesKing(b, m))
              && (r == KingWillBeThreatened <==> RookShape(m) && GenericOk(b, m) && ExposesKing(b, m))
  {
    if Abs(DeltaRow(m)) != 0 && Abs(DeltaCol(m)) != 0 then InvalidMove
    else IsValidMoveGeneric(b, m)
  }

  /**
   * `spChessGameIsValidMoveBishop`: legal exactly when the move has the bishop's
   * shape, passes the generic test and keeps the mover's king safe.
   */
  function IsValidMoveBishop(b: Board, m: Move): (r: Message)
    ensures IsLegalMoveCoordinates(m) ==>
              && (r == LegalMove <==> BishopShape(m) && GenericOk(b, m) && !ExposesKing(b, m))
              && (r == KingWillBeThreatened <==> BishopShape(m) && GenericOk(b, m) && ExposesKing(b, m))
  {
    if Abs(DeltaRow(m)) != Abs(DeltaCol(m)) then InvalidMove
    else IsValidMoveGeneric(b, m)
  }

  /**
   * `spChessGameIsValidMoveQueen`: legal exactly when the move has the queen's
   * shape, passes the generic test and keeps the mover's king safe.
   */
  function IsValidMoveQueen(b: Board, m: Move): (r: Message)
    ensures IsLegalMoveCoordinates(m) ==>
              && (r == LegalMove <==> QueenShape(m) && GenericOk(b, m) && !ExposesKing(b, m))
              && (r == KingWillBeThreatened <==> QueenShape(m) && GenericOk(b, m) && ExposesKing(b, m))
  {
    if Abs(DeltaRow(m)) != 0 && Abs(DeltaCol(m)) != 0 && Abs(DeltaRow(m)) != Abs(DeltaCol(m)) then InvalidMove
    else IsValidMoveGeneric(b, m)
  }

  /**
   * `spChessGameIsValidMoveKing`: legal exactly when the move has the king's
   * shape, passes the generic test and keeps the mover's king safe.
   */
  function IsValidMoveKing(b: Board, m: Move): (r: Message)
    ensures IsLegalMoveCoordinates(m) ==>
              && (r == LegalMove <==> KingShape(m) && GenericOk(b, m) && !ExposesKing(b, m))
              && (r == KingWillBeThreatened <==> KingShape(m) && GenericOk(b, m) && ExposesKing(b, m))
  {
    if Abs(DeltaRow(m)) > 1 || Abs(DeltaCol(m)) > 1 then InvalidMove
    else IsValidMoveGeneric(b, m)
  }

  /**
   * `spChessGameIsValidMoveKnight`, for a knight on the start square: legal
   * exactly when the move is a knight's jump onto a square without a piece of
   * its own colour that keeps the mover's king safe.
   */
  function IsValidMoveKnight(b: Board, m: Move): (r: Message)
    requires IsLegalMoveCoordinates(m) ==> TypeOf(At(b, m.start)) == Knight
    ensures IsLegalMoveCoordinates(m) ==>
              && (r == LegalMove <==> KnightShape(m) && GenericOk(b, m) && !ExposesKing(b, m))
              && (r == KingWillBeThreatened <==> KnightShape(m) && GenericOk(b, m) && ExposesKing(b, m))
  {
    if !((Abs(DeltaRow(m)) == 2 && Abs(DeltaCol(m)) == 1) || (Abs(DeltaRow(m)) == 1 && Abs(DeltaCol(m)) == 2)) then InvalidMove
    else IsValidMoveGeneric(b, m)
  }

  /**
   * `spChessGameIsValidMovePawn`: the direction follows the pawn's own
   * colour; legal exactly when the move is one of the pawn's steps, passes
   * the generic test and keeps the mover's king safe.
   */
  function IsValidMovePawn(b: Board, m: Move): (r: Message)
    requires IsLegalMoveCoordinates(m)
    ensures r == LegalMove <==> PawnShape(b, m) && GenericOk(b, m) && !ExposesKing(b, m)
    ensures r == KingWillBeThreatened <==> PawnShape(b, m) && GenericOk(b, m) && ExposesKing(b, m)
  {
    var dr := DeltaRow(m);
    var dc := DeltaCol(m);
    if ColorOf(At(b, m.start)) == Some(Black) then
      if (dr != 1 || dc != 0) && (dr != 2 || dc != 0) && (dr != 1 || (dc != 1 && dc != -1)) then InvalidMove
      else if m.start.row != 1 && dr == 2 then InvalidMove
      else if dr == 1 && (dc == 1 || dc == -1) && !DoesMoveCapturePiece(b, m) then InvalidMove
      else IsValidMoveGeneric(b, m)
    else
      if (dr != -1 || dc != 0) && (dr != -2 || dc != 0) && (dr != -1 || (dc != 1 && dc != -1)) then InvalidMove
      else if m.start.row != 6 && dr == -2 then InvalidMove
      else if dr == -1 && (dc == 1 || dc == -1) && !DoesMoveCapturePiece(b, m) then InvalidMove
      else IsValidMoveGeneric(b, m)
  }

  /**
   * Declarative legality: the piece's shape, the generic test and the
   * self-check gate all pass.
   */
  predicate IsLegal(b: Board, m: Move)
    requires IsLegalMoveCoordinates(m)
  {
    ShapeOk(b, m) && GenericOk(b, m) && !ExposesKing(b, m)
  }

  /**
   * `moveStatus`: dispatch on the type of the piece on the start square. It
   * reports invalid argument exactly off the board, and not-your-piece
   * exactly from a glyph that names no piece.
   */
  function MoveStatus(b: Board, m: Move): (r: Message)
    ensures r == InvalidArgument <==> !IsLegalMoveCoordinates(m)
    ensures r == NotYourPiece <==> IsLegalMoveCoordinates(m) && TypeOf(At(b, m.start)) == Blank
  {
    if !IsLegalMoveCoordinates(m) then InvalidArgument
    else
      match TypeOf(At(b, m.start))
      case Rook => IsValidMoveRook(b, m)
      case Bishop => IsValidMoveBishop(b, m)
      case Knight => IsValidMoveKnight(b, m)
      case Queen => IsValidMoveQueen(b, m)
      case King => IsValidMoveKing(b, m)
      case Pawn => IsValidMovePawn(b, m)
      case Blank => NotYourPiece
  }

  /**
   * `moveStatus` classified: an empty start square or an unknown glyph is
   * not a piece, and otherwise the move is legal exactly when the shape,
   * the generic test and the self-check gate pass.
   */
  lemma MoveStatusClassification(b: Board, m: Move)
    ensures !IsLegalMoveCoordinates(m) ==> MoveStatus(b, m) == InvalidArgument
    ensures IsLegalMoveCoordinates(m) && TypeOf(At(b, m.start)) == Blank ==> MoveStatus(b, m) == NotYourPiece
    ensures IsLegalMoveCoordinates(m) && TypeOf(At(b, m.start)) != Blank ==>
              && (MoveStatus(b, m) == LegalMove <==> IsLegal(b, m))
              && (MoveStatus(b, m) == KingWillBeThreatened <==> ShapeOk(b, m) && GenericOk(b, m) && ExposesKing(b, m))
              && (MoveStatus(b, m) == InvalidMove <==> !(ShapeOk(b, m) && GenericOk(b, m)))
  {
  }

  /** A legal pawn move is a step onto an empty square, a double step from the home rank over an empty square, or a diagonal capture. */
  lemma PawnMoves(b: Board, m: Move)
    requires IsLegalMoveCoordinates(m) && TypeOf(At(b, m.start)) == Pawn && MoveStatus(b, m) == LegalMove
    ensures var fwd := if ColorOf(At(b, m.start)) == Some(Black) then 1 else -1;
            var home := if ColorOf(At(b, m.start)) == Some(Black) then 1 else 6;
            || (DeltaRow(m) == fwd && DeltaCol(m) == 0 && At(b, m.dest) == EmptyEntry)
            || (DeltaRow(m) == 2 * fwd && DeltaCol(m) == 0 && m.start.row == home
                && At(b, Coord(m.start.row + fwd, m.start.col)) == EmptyEntry && At(b, m.dest) == EmptyEntry)
            || (DeltaRow(m) == fwd && Abs(DeltaCol(m)) == 1 && At(b, m.dest) != EmptyEntry
                && ColorOf(At(b, m.dest)) != ColorOf(At(b, m.start)))
  {
    MoveStatusClassification(b, m);
    PawnShapeAndPath(b, m);
  }

  /** A pawn move of the right shape over a clear path, as the three pawn cases. */
  lemma PawnShapeAndPath(b: Board, m: Move)
    requires IsLegalMoveCoordinates(m) && TypeOf(At(b, m.start)) == Pawn
    requires PawnShape(b, m) && GenericOk(b, m)
    ensures var fwd := if ColorOf(At(b, m.start)) == Some(Black) then 1 else -1;
            var home := if ColorOf(At(b, m.start)) == Some(Black) then 1 else 6;
            || (DeltaRow(m) == fwd && DeltaCol(m) == 0 && At(b, m.dest) == EmptyEntry)
            || (DeltaRow(m) == 2 * fwd && DeltaCol(m) == 0 && m.start.row == home
                && At(b, Coord(m.start.row + fwd, m.start.col)) == EmptyEntry && At(b, m.dest) == EmptyEntry)
            || (DeltaRow(m) == fwd && Abs(DeltaCol(m)) == 1 && At(b, m.dest) != EmptyEntry
                && ColorOf(At(b, m.dest)) != ColorOf(At(b, m.start)))
  {
    if Abs(DeltaRow(m)) == 2 {
      assert IsLegalCoord(PathSquare(m, 1));
    }
  }

  /**
   * The knight sweep, with the table as written, never looks two columns to
   * the right: placing an enemy knight there changes nothing, although the
   * corrected sweep then reports the king threatened.
   */
  lemma KnightSweepIgnoresRightJumps(b: Board, k: Coord, d: int)
    requires IsLegalCoord(k) && (d == 1 || d == -1) && IsLegalCoord(Coord(k.row + d, k.col + 2))
    ensures var b' := SetAt(b, Coord(k.row + d, k.col + 2), CreatePiece(EnemyOf(b, k), Knight));
            && ThreatenedByKnightAsWritten(b', k) == ThreatenedByKnightAsWritten(b, k)
            && ThreatenedByKnight(b', k)
  {
    var sq := Coord(k.row + d, k.col + 2);
    var b' := SetAt(b, sq, CreatePiece(EnemyOf(b, k), Knight));
    assert At(b', k) == At(b, k);
    assert KnightShape(PlainMove(k, sq));
  }

  // ---------------------------------------------------------------------
  // Reachability and enumeration

  /**
   * A piece of `color` on `s` has a legal move to `d`. The empty-square test
   * is implied by the colour test; it mirrors the C condition.
   */
  predicate MovesTo(b: Board, s: Coord, d: Coord, color: Color)
    requires IsLegalCoord(s)
  {
    At(b, s) != EmptyEntry && ColorOf(At(b, s)) == Some(color) && MoveStatus(b, PlainMove(s, d)) == LegalMove
  }

  /** Some piece of `color` can legally move to `d`. */
  ghost predicate Reaches(b: Board, d: Coord, color: Color) {
    exists s | IsLegalCoord(s) :: MovesTo(b, s, d, color)
  }

  function CanPlayerMoveToFrom(b: Board, d: Coord, color: Color, k: int): (r: bool)
    requires 0 <= k <= 64
    ensures r <==> exists j | k <= j < 64 :: MovesTo(b, RowMajor(j), d, color)
    decreases 64 - k
  {
    if k == 64 then false
    else
      if MovesTo(b, RowMajor(k), d, color) then true
      else CanPlayerMoveToFrom(b, d, color, k + 1)
  }

  /** `canPlayerMoveTo`: a row-major search for a piece that can move to `d`. */
  function CanPlayerMoveTo(b: Board, d: Coord, color: Color): (r: bool)
    ensures r <==> Reaches(b, d, color)
  {
    ScanReaches(b, d, color);
    CanPlayerMoveToFrom(b, d, color, 0)
  }

  /** The full scan answers yes exactly when some piece of the colour reaches `d`. */
  lemma ScanReaches(b: Board, d: Coord, color: Color)
    ensures CanPlayerMoveToFrom(b, d, color, 0) <==> Reaches(b, d, color)
  {
    if CanPlayerMoveToFrom(b, d, color, 0) {
      var j :| 0 <= j < 64 && MovesTo(b, RowMajor(j), d, color);
      assert IsLegalCoord(RowMajor(j));
    } else {
      forall s | IsLegalCoord(s) ensures !MovesTo(b, s, d, color) {
        assert RowMajor(s.row * 8 + s.col) == s;
      }
    }
  }

  /** The scan position of a square: column by column from A, bottom row first. */
  function ScanIndex(c: Coord): int {
    c.col * 8 + (7 - c.row)
  }

  /** A square of the scan, or the end marker just past H1's column. */
  predicate ScanPos(c: Coord) {
    IsLegalCoord(c) || c == Coord(7, 8)
  }

  /** The square the scan visits after `c`. */
  function NextScan(c: Coord): (r: Coord)
    requires IsLegalCoord(c)
    ensures ScanPos(r) && ScanIndex(r) == ScanIndex(c) + 1
  {
    if c.row > 0 then Coord(c.row - 1, c.col) else Coord(7, c.col + 1)
  }

  /** The two flags are what flagged enumeration computes, or both false. */
  predicate FlagsRight(b: Board, m: Move, flags: bool)
    requires IsLegalMoveCoordinates(m) && At(b, m.start) != EmptyEntry
  {
    if flags then
      && (m.doesCapturePiece <==> DoesMoveCapturePiece(b, m))
      && m.isThreatened == CanPlayerMoveTo(ApplyMove(b, m), m.dest, Opponent(ColorOf(At(b, m.start)).value))
    else !m.doesCapturePiece && !m.isThreatened
  }

  /** The flag computation of `spChessGameGetMoves`: it speculates the move and restores the board. */
  function FlagMove(b: Board, m: Move): (r: (Move, Board))
    requires IsLegalMoveCoordinates(m) && At(b, m.start) != EmptyEntry
    ensures r.1 == b
    ensures r.0.start == m.start && r.0.dest == m.dest && FlagsRight(b, r.0, true)
  {
    var capture := DoesMoveCapturePiece(b, m);
    var removed := At(b, m.dest);
    var after := ApplyMove(b, m);
    var threatened := CanPlayerMoveTo(after, m.dest, Opponent(ColorOf(At(b, m.start)).value));
    UndoApplyRoundTrip(b, m);
    (Move(m.start, m.dest, threatened, capture), UndoMove(after, m, removed))
  }

  /** `m` is a legal move from its start square with correctly computed flags. */
  predicate Enumerated(b: Board, m: Move, flags: bool)
    requires IsLegalMoveCoordinates(m) && At(b, m.start) != EmptyEntry
  {
    MoveStatus(b, PlainMove(m.start, m.dest)) == LegalMove && FlagsRight(b, m, flags)
  }

  /** The destinations from scan position `c` on that pass `legal`, in scan order. */
  function ScanFilter(legal: Coord -> bool, c: Coord): (r: seq<Coord>)
    requires ScanPos(c)
    ensures forall i | 0 <= i < |r| :: IsLegalCoord(r[i]) && ScanIndex(c) <= ScanIndex(r[i]) && legal(r[i])
    decreases 64 - ScanIndex(c)
  {
    if !IsLegalCoord(c) then []
    else (if legal(c) then [c] else []) + ScanFilter(legal, NextScan(c))
  }

  /** The test move enumeration applies to each destination. */
  function LegalFrom(b: Board, start: Coord): Coord -> bool {
    d => MoveStatus(b, PlainMove(start, d)) == LegalMove
  }

  function Dests(ms: seq<Move>): seq<Coord> {
    seq(|ms|, i requires 0 <= i < |ms| => ms[i].dest)
  }

  lemma DestsCons(x: Move, rest: seq<Move>)
    ensures Dests([x] + rest) == [x.dest] + Dests(rest)
  {
    var l, r := Dests([x] + rest), [x.dest] + Dests(rest);
    assert |l| == |r|;
    forall i | 0 <= i < |l| ensures l[i] == r[i] {
      if i > 0 {
        assert ([x] + rest)[i] == rest[i - 1];
      }
    }
  }

  /** The destination loop of `spChessGameGetMoves` from scan position `c` on. */
  function ScanMoves(b: Board, start: Coord, c: Coord, flags: bool): (r: (seq<Move>, Board))
    requires IsLegalCoord(start) && At(b, start) != EmptyEntry && ScanPos(c)
    ensures r.1 == b
    ensures Dests(r.0) == ScanFilter(LegalFrom(b, start), c)
    ensures AllEnumerated(b, start, r.0, flags)
    decreases 64 - ScanIndex(c)
  {
    if !IsLegalCoord(c) then ([], b)
    else
      var m := PlainMove(start, c);
      if MoveStatus(b, m) == LegalMove then
        var fm := if flags then FlagMove(b, m) else (m, b);
        var rest := ScanMoves(fm.1, start, NextScan(c), flags);
        DestsCons(fm.0, rest.0);
        AllEnumeratedCons(b, start, fm.0, rest.0, flags);
        ([fm.0] + rest.0, rest.1)
      else
        ScanMoves(b, start, NextScan(c), flags)
  }

  /** Every move of `ms` is a legal move from `start` with correctly computed flags. */
  predicate AllEnumerated(b: Board, start: Coord, ms: seq<Move>, flags: bool)
    requires IsLegalCoord(start) && At(b, start) != EmptyEntry
  {
    forall m | m in ms :: m.start == start && IsLegalCoord(m.dest) && Enumerated(b, m, flags)
  }

  lemma AllEnumeratedCons(b: Board, start: Coord, x: Move, rest: seq<Move>, flags: bool)
    requires IsLegalCoord(start) && At(b, start) != EmptyEntry
    requires x.start == start && IsLegalCoord(x.dest) && Enumerated(b, x, flags)
    requires AllEnumerated(b, start, rest, flags)
    ensures AllEnumerated(b, start, [x] + rest, flags)
  {
    assert forall m | m in [x] + rest :: m == x || m in rest;
  }

  /** Destinations in strictly increasing scan position. */
  predicate ScanSorted(ds: seq<Coord>) {
    forall i, j | 0 <= i < j < |ds| :: ScanIndex(ds[i]) < ScanIndex(ds[j])
  }

  /** The scan lists destinations in strictly increasing scan position. */
  lemma {:induction false} ScanFilterSorted(legal: Coord -> bool, c: Coord)
    requires ScanPos(c)
    ensures ScanSorted(ScanFilter(legal, c))
    decreases 64 - ScanIndex(c)
  {
    if IsLegalCoord(c) {
      ScanFilterSorted(legal, NextScan(c));
      var rest := ScanFilter(legal, NextScan(c));
      var ds := ScanFilter(legal, c);
      if legal(c) {
        assert ds == [c] + rest;
        forall i, j | 0 <= i < j < |ds| ensures ScanIndex(ds[i]) < ScanIndex(ds[j]) {
          assert ds[j] == rest[j - 1];
          if i > 0 {
            assert ds[i] == rest[i - 1];
          }
        }
      } else {
        assert ds == rest;
      }
    }
  }

  /** The scan from `c` lists every destination at or after `c` that passes the test. */
  lemma {:induction false} ScanFilterComplete(legal: Coord -> bool, c: Coord, d: Coord)
    requires ScanPos(c) && IsLegalCoord(d) && ScanIndex(c) <= ScanIndex(d) && legal(d)
    ensures d in ScanFilter(legal, c)
    decreases 64 - ScanIndex(c)
  {
    if c == d {
      assert ScanFilter(legal, c)[0] == d;
    } else {
      ScanFilterComplete(legal, NextScan(c), d);
    }
  }

  datatype MovesResult = MovesError(msg: Message) | MovesFound(moves: seq<Move>, board: Board)

  /**
   * `spChessGameGetMoves`: every legal destination of the piece on `coord`,
   * in scan order, with the capture and threat flags when asked for.
   */
  function GetMoves(b: Board, coord: Coord, flags: bool): (r: MovesResult)
    ensures !IsLegalCoord(coord) ==> r == MovesError(InvalidArgument)
    ensures IsLegalCoord(coord) && At(b, coord) == EmptyEntry ==> r == MovesError(PositionNotContainPiece)
    ensures IsLegalCoord(coord) && At(b, coord) != EmptyEntry ==>
              && r.MovesFound? && r.board == b
              && AllEnumerated(b, coord, r.moves, flags)
              && ScanSorted(Dests(r.moves))
              && (forall d | IsLegalCoord(d) && MoveStatus(b, PlainMove(coord, d)) == LegalMove :: d in Dests(r.moves))
  {
    if !IsLegalCoord(coord) then MovesError(InvalidArgument)
    else if At(b, coord) == EmptyEntry then MovesError(PositionNotContainPiece)
    else
      var (moves, b') := ScanMoves(b, coord, Coord(7, 0), flags);
      ScanFilterSorted(LegalFrom(b, coord), Coord(7, 0));
      forall d | IsLegalCoord(d) && MoveStatus(b, PlainMove(coord, d)) == LegalMove
        ensures d in Dests(moves)
      {
        ScanFilterComplete(LegalFrom(b, coord), Coord(7, 0), d);
      }
      MovesFound(moves, b')
  }

  /** Some piece of `color` has a legal move. */
  ghost predicate PlayerCanMove(b: Board, color: Color) {
    exists s, d | IsLegalCoord(s) && IsLegalCoord(d) :: MovesTo(b, s, d, color)
  }

  /** An empty enumeration means no legal move from that square. */
  lemma NoMovesListed(b: Board, s: Coord, color: Color)
    requires IsLegalCoord(s)
    requires ColorOf(At(b, s)) == Some(color) ==> |GetMoves(b, s, false).moves| == 0
    ensures forall d | IsLegalCoord(d) :: !MovesTo(b, s, d, color)
  {
  }

  /** A piece of `color` on `s` has some legal move. */
  ghost predicate CanMoveFrom(b: Board, s: Coord, color: Color) {
    IsLegalCoord(s) && exists d | IsLegalCoord(d) :: MovesTo(b, s, d, color)
  }

  /** One square of `spChessGameDoesPlayerHaveValidMoves`: a piece of `color` whose move list is not empty. */
  function HasMovesAt(b: Board, s: Coord, color: Color): (r: bool)
    requires IsLegalCoord(s)
    ensures r <==> CanMoveFrom(b, s, color)
  {
    if ColorOf(At(b, s)) == Some(color) && |GetMoves(b, s, false).moves| != 0 then
      var m := GetMoves(b, s, false).moves[0];
      assert m in GetMoves(b, s, false).moves;
      assert MovesTo(b, s, m.dest, color);
      true
    else
      NoMovesListed(b, s, color);
      false
  }

  function HasValidMovesFrom(b: Board, color: Color, k: int): (r: bool)
    requires 0 <= k <= 64
    ensures r <==> exists j | k <= j < 64 :: CanMoveFrom(b, RowMajor(j), color)
    decreases 64 - k
  {
    if k == 64 then false
    else
      if HasMovesAt(b, RowMajor(k), color) then true
      else HasValidMovesFrom(b, color, k + 1)
  }

  /** `spChessGameDoesPlayerHaveValidMoves`. */
  function DoesPlayerHaveValidMoves(b: Board, color: Color): (r: bool)
    ensures r <==> PlayerCanMove(b, color)
  {
    PlayerCanMoveBySquare(b, color);
    HasValidMovesFrom(b, color, 0)
  }

  /** Some piece can move exactly when some square, in scan order, holds a piece that can. */
  lemma PlayerCanMoveBySquare(b: Board, color: Color)
    ensures PlayerCanMove(b, color) <==> exists j | 0 <= j < 64 :: CanMoveFrom(b, RowMajor(j), color)
  {
    if j :| 0 <= j < 64 && CanMoveFrom(b, RowMajor(j), color) {
      var d :| IsLegalCoord(d) && MovesTo(b, RowMajor(j), d, color);
      assert IsLegalCoord(RowMajor(j));
    }
    if PlayerCanMove(b, color) {
      var s, d :| IsLegalCoord(s) && IsLegalCoord(d) && MovesTo(b, s, d, color);
      assert RowMajor(s.row * 8 + s.col) == s;
      assert CanMoveFrom(b, s, color);
    }
  }
}
