/** The decoding layer between the network's action heads and board moves:
 *  the constant lookup tables that turn an argmax index into a piece, a move
 *  type or a magnitude, the geometry that turns a move type and magnitude into
 *  a destination square, and the conversion of an action into a move. */
module Action {
  import opened PyErrors

  /** The five directions a piece may move in, in the abstract. */
  datatype ActionType = Knightwise | MajorDiag | MinorDiag | Vertically | Horizontal

  datatype PieceColor = White | Black

  /** The piece constructors the piece table refers to. */
  datatype PieceKind = Pawn | Rook | Knight | Bishop | Queen | King

  datatype Option<T> = None | Some(value: T)

  /** Row and column of a square; (-1, -1) is "no square". */
  type Square = (int, int)

  /** The piece table: argmax index to (constructor, piece id), per colour. */
  const WhitePieces: seq<(PieceKind, int)> :=
    [(Pawn, 0), (Pawn, 1), (Pawn, 2), (Pawn, 3), (Pawn, 4),
     (Rook, 5), (Knight, 6), (Bishop, 7), (Queen, 8), (King, 9)]
  const BlackPieces: seq<(PieceKind, int)> :=
    [(Pawn, 10), (Pawn, 11), (Pawn, 12), (Pawn, 13), (Pawn, 14),
     (Rook, 15), (Knight, 16), (Bishop, 17), (Queen, 18), (King, 19)]

  /** The move-type table: argmax index to action type. */
  const ActionTypes: seq<ActionType> := [Knightwise, MajorDiag, MinorDiag, Vertically, Horizontal]

  /** The magnitude table: argmax index to a signed step count. */
  const Magnitudes: seq<int> := [-4, -3, -2, -1, 1, 2, 3, 4]

  /** A dictionary lookup `PIECE_DICT[color][k]`; a missing key raises. */
  function PieceDict(color: PieceColor, k: int): Result<(PieceKind, int)>
  {
    var table := if color == White then WhitePieces else BlackPieces;
    if 0 <= k < |table| then Ok(table[k]) else Raise(KeyError)
  }

  /** A dictionary lookup `TYPE_DICT[k]`. */
  function TypeDict(k: int): Result<ActionType>
  {
    if 0 <= k < |ActionTypes| then Ok(ActionTypes[k]) else Raise(KeyError)
  }

  /** A dictionary lookup `MAG_DICT[k]`. */
  function MagDict(k: int): Result<int>
  {
    if 0 <= k < |Magnitudes| then Ok(Magnitudes[k]) else Raise(KeyError)
  }

  /** The key under which TYPE_DICT holds `t`. */
  function TypeIndex(t: ActionType): nat
  {
    match t
    case Knightwise => 0
    case MajorDiag => 1
    case MinorDiag => 2
    case Vertically => 3
    case Horizontal => 4
  }

  /** The key under which MAG_DICT holds `m`, for a nonzero `m` in [-4, 4]. */
  function MagIndex(m: int): int
  {
    if m < 0 then m + 4 else m + 3
  }

  function Abs(x: int): nat
  {
    if x < 0 then -x else x
  }

  /** A magnitude the knight-wise branch has an offset for. */
  predicate IsKnightMagnitude(m: int)
  {
    m != 0 && -4 <= m <= 4
  }

  /** For a sliding move type, the unit step (row, column) that the magnitude scales. */
  function Direction(t: ActionType): (int, int)
    requires t != Knightwise
  {
    match t
    case MajorDiag => (-1, 1)
    case MinorDiag => (-1, -1)
    case Horizontal => (0, 1)
    case Vertically => (-1, 0)
  }

  /** The destination square of a move of type `t` and magnitude `magnitude`
   *  from (row, col). A knight-wise move whose magnitude has no offset raises. */
  function CalculateNewPos(row: int, col: int, t: ActionType, magnitude: int): Result<Square>
  {
    match t
    case Knightwise =>
      if magnitude == -4 then Ok((row - 2, col - 1))
      else if magnitude == -3 then Ok((row - 1, col - 2))
      else if magnitude == -2 then Ok((row + 1, col - 2))
      else if magnitude == -1 then Ok((row + 2, col - 1))
      else if magnitude == 1 then Ok((row + 2, col + 1))
      else if magnitude == 2 then Ok((row + 1, col + 2))
      else if magnitude == 3 then Ok((row - 1, col + 2))
      else if magnitude == 4 then Ok((row - 2, col + 1))
      else Raise(RuntimeError)
    case MajorDiag => Ok((row - magnitude, col + magnitude))
    case MinorDiag => Ok((row - magnitude, col - magnitude))
    case Horizontal => Ok((row, col + magnitude))
    case Vertically => Ok((row - magnitude, col))
  }

  /** An action: which piece, which kind of move, how far. */
  datatype MiniChessAction<P> = MiniChessAction(piece: P, actionType: ActionType, magnitude: int)

  /** A move from one square to another, with the piece that stands on the source square. */
  datatype Move<P> = Move(src: Square, dst: Square, piece: Option<P>)

  /** The move returned for a piece that is not on the board. */
  function InvalidMove<P>(): Move<P>
  {
    Move((-1, -1), (-1, -1), None)
  }

  /** Convert an action to a move. `findPiece` and `pieceAt` are the board
   *  queries of the game state: where the action's piece stands ((-1, -1) if
   *  it is not on the board) and which piece stands on a square. */
  function ToMiniChessMove<P>(action: MiniChessAction<P>, findPiece: P -> Square, pieceAt: Square -> P): (r: Result<Move<P>>)
    ensures findPiece(action.piece) == (-1, -1) ==> r == Ok(InvalidMove())
    ensures findPiece(action.piece) != (-1, -1) ==>
      var found := findPiece(action.piece);
      var dst := CalculateNewPos(found.0, found.1, action.actionType, action.magnitude);
      && (r.Ok? <==> dst.Ok?)
      && (r.Ok? ==> r.value.src == found && r.value.dst == dst.value && r.value.piece == Some(pieceAt(found)))
  {
    var found := findPiece(action.piece);
    if found == (-1, -1) then Ok(InvalidMove())
    else
      var (row, col) := found;
      var realPiece := pieceAt(found);
      match CalculateNewPos(row, col, action.actionType, action.magnitude)
      case Raise(e) => Raise(e)
      case Ok(dst) => Ok(Move((row, col), dst, Some(realPiece)))
  }

  // ---------------------------------------------------------------------
  // The lookup tables

  /** Both colours' tables have keys 0..9; for every key they name the same
   *  constructor, the white id is the key and the black id is ten more. */
  lemma PieceDictColoursAgree(k: int)
    ensures PieceDict(White, k).Ok? <==> 0 <= k < 10
    ensures PieceDict(Black, k).Ok? <==> 0 <= k < 10
    ensures 0 <= k < 10 ==>
      && PieceDict(White, k).value.0 == PieceDict(Black, k).value.0
      && PieceDict(White, k).value.1 == k
      && PieceDict(Black, k).value.1 == k + 10
  {
  }

  /** Keys 0..4 are pawns, then rook, knight, bishop, queen and king. */
  lemma PieceDictKinds(color: PieceColor, k: int)
    requires 0 <= k < 10
    ensures PieceDict(color, k).value.0 ==
      if k < 5 then Pawn else [Rook, Knight, Bishop, Queen, King][k - 5]
  {
  }

  /** TYPE_DICT is a bijection from 0..4 onto the action types, with TypeIndex as its inverse. */
  lemma TypeDictBijective(k: int, t: ActionType)
    ensures TypeDict(k).Ok? <==> 0 <= k < 5
    ensures TypeDict(TypeIndex(t)) == Ok(t)
    ensures TypeDict(k) == Ok(t) <==> k == TypeIndex(t)
  {
  }

  /** MAG_DICT is strictly increasing on its keys 0..7. */
  lemma MagDictIncreasing(i: int, j: int)
    requires 0 <= i < j < 8
    ensures MagDict(i).Ok? && MagDict(j).Ok? && MagDict(i).value < MagDict(j).value
  {
  }

  /** MAG_DICT maps its keys onto exactly the nonzero integers of [-4, 4]; MagIndex is its inverse. */
  lemma MagDictOnto(k: int, m: int)
    ensures MagDict(k).Ok? <==> 0 <= k < 8
    ensures MagDict(k).Ok? ==> IsKnightMagnitude(MagDict(k).value)
    ensures IsKnightMagnitude(m) ==> MagDict(MagIndex(m)) == Ok(m)
    ensures MagDict(k) == Ok(m) <==> IsKnightMagnitude(m) && k == MagIndex(m)
  {
  }

  // ---------------------------------------------------------------------
  // The geometry of _calculate_new_pos

  /** Each of the eight knight-wise magnitudes is a knight's jump: one square
   *  along one axis and two along the other. */
  lemma KnightwiseIsKnightJump(row: int, col: int, m: int)
    requires IsKnightMagnitude(m)
    ensures CalculateNewPos(row, col, Knightwise, m).Ok?
    ensures var (r, c) := CalculateNewPos(row, col, Knightwise, m).value;
      (Abs(r - row) == 1 && Abs(c - col) == 2) || (Abs(r - row) == 2 && Abs(c - col) == 1)
  {
  }

  /** Distinct knight-wise magnitudes jump to distinct squares. */
  lemma KnightwiseInjective(row: int, col: int, m1: int, m2: int)
    requires IsKnightMagnitude(m1) && IsKnightMagnitude(m2) && m1 != m2
    ensures CalculateNewPos(row, col, Knightwise, m1) != CalculateNewPos(row, col, Knightwise, m2)
  {
  }

  /** Negating a knight-wise magnitude mirrors the jump left to right: same row, opposite column offset. */
  lemma KnightwiseMirror(row: int, col: int, m: int)
    requires IsKnightMagnitude(m)
    ensures var p := CalculateNewPos(row, col, Knightwise, m);
      var q := CalculateNewPos(row, col, Knightwise, -m);
      p.Ok? && q.Ok? && q.value.0 == p.value.0 && q.value.1 - col == col - p.value.1
  {
  }

  /** A knight-wise magnitude outside the eight raises, and only such a magnitude does. */
  lemma KnightwiseRaises(row: int, col: int, m: int)
    ensures CalculateNewPos(row, col, Knightwise, m) == Raise(RuntimeError) <==> !IsKnightMagnitude(m)
    ensures CalculateNewPos(row, col, Knightwise, m).Raise? <==> !IsKnightMagnitude(m)
  {
  }

  /** A sliding move goes `magnitude` steps along its direction; the Chebyshev
   *  distance it covers is |magnitude|. */
  lemma SlidingMoves(row: int, col: int, t: ActionType, m: int)
    requires t != Knightwise
    ensures CalculateNewPos(row, col, t, m).Ok?
    ensures var (r, c) := CalculateNewPos(row, col, t, m).value;
      && r == row + m * Direction(t).0
      && c == col + m * Direction(t).1
      && (if Abs(r - row) < Abs(c - col) then Abs(c - col) else Abs(r - row)) == Abs(m)
  {
  }

  /** Every action decoded through TYPE_DICT and MAG_DICT has a destination,
   *  and it is not the square the piece starts from. */
  lemma DecodedActionsMove(row: int, col: int, k: int, j: int)
    requires 0 <= k < 5 && 0 <= j < 8
    ensures TypeDict(k).Ok? && MagDict(j).Ok?
    ensures var p := CalculateNewPos(row, col, TypeDict(k).value, MagDict(j).value);
      p.Ok? && p.value != (row, col)
  {
    var t, m := TypeDict(k).value, MagDict(j).value;
    MagDictOnto(j, m);
    if t == Knightwise {
      KnightwiseIsKnightJump(row, col, m);
    } else {
      SlidingMoves(row, col, t, m);
    }
  }

  /** A converted action is INVALID_MOVE exactly when its piece is not on the
   *  board, provided its magnitude is nonzero. */
  lemma InvalidOnlyWhenNotFound<P>(action: MiniChessAction<P>, findPiece: P -> Square, pieceAt: Square -> P)
    requires action.magnitude != 0
    ensures ToMiniChessMove(action, findPiece, pieceAt) == Ok(InvalidMove()) <==> findPiece(action.piece) == (-1, -1)
    ensures ToMiniChessMove(action, findPiece, pieceAt).Ok? && findPiece(action.piece) != (-1, -1) ==>
      ToMiniChessMove(action, findPiece, pieceAt).value.src != ToMiniChessMove(action, findPiece, pieceAt).value.dst
  {
    var found := findPiece(action.piece);
    if found != (-1, -1) {
      if action.actionType == Knightwise {
        if IsKnightMagnitude(action.magnitude) {
          KnightwiseIsKnightJump(found.0, found.1, action.magnitude);
        }
      } else {
        SlidingMoves(found.0, found.1, action.actionType, action.magnitude);
      }
    }
  }
}
