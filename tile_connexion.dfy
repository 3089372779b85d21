// The autotile classifier: the 3 x 3 neighbourhood of a cell (true where
// the neighbour holds the same material) decides which of the 47 tile
// shapes is drawn for it.
module TileConnexion {

  /** The 47 shapes. `Full` is a lone tile, `Empty` a tile surrounded on
    * all eight sides; a side name says which side is open (no neighbour of
    * the same material), a corner name which inner corner is open. */
  datatype Connexion =
    | Full
    | Top3 | Down3 | Left3 | Right3
    | Vertical | Horizontal
    | DownRightWithCorner | TopRightWithCorner | DownLeftWithCorner | TopLeftWithCorner
    | TopLeft | DownLeft | TopRight | DownRight
    | LeftCorners2 | RightCorners2 | TopCorners2 | DownCorners2
    | LeftCornerDown | LeftCornerTop | RightCornerTop | RightCornerDown
    | TopCornerDown | TopCornerTop | DownCornerTop | DownCornerDown
    | Left | Right | Top | Down
    | QuadCorners
    | TopLeftCorners3 | TopRightCorners3 | DownLeftCorners3 | DownRightCorners3
    | DiagonalTopRight | DiagonalTopLeft
    | RightCorners | LeftCorners | TopCorners | DownCorners
    | TopRightCorner | TopLeftCorner | DownRightCorner | DownLeftCorner
    | Empty

  /** The eight neighbours of a cell: left, right, top, down and the four
    * corners, true where the neighbour is connected. */
  datatype Neighbours = Neighbours(l: bool, r: bool, t: bool, d: bool, tl: bool, tr: bool, dl: bool, dr: bool)

  /** A 3 x 3 boolean grid stored row by row, cell (x, y) at x + 3 * y. */
  predicate IsLocalMatrix(mat: seq<bool>)
  {
    |mat| == 9
  }

  /** Reads the neighbours out of the grid. */
  function NeighboursOf(mat: seq<bool>): (n: Neighbours)
    requires IsLocalMatrix(mat)
    ensures n.l == mat[3] && n.r == mat[5] && n.t == mat[1] && n.d == mat[7]
    ensures n.tl == mat[0] && n.tr == mat[2] && n.dl == mat[6] && n.dr == mat[8]
  {
    Neighbours(mat[0 + 3 * 1], mat[2 + 3 * 1], mat[1 + 3 * 0], mat[1 + 3 * 2],
               mat[0 + 3 * 0], mat[2 + 3 * 0], mat[0 + 3 * 2], mat[2 + 3 * 2])
  }

  /** `localMatrixToTileConnexionType`: the centre cell must be set. */
  function LocalMatrixToConnexion(mat: seq<bool>): (c: Connexion)
    requires IsLocalMatrix(mat) && mat[1 + 3 * 1]
    ensures c == Classify(NeighboursOf(mat))
  {
    Classify(NeighboursOf(mat))
  }

  /** The ordered decision chain over the eight neighbours. */
  function Classify(n: Neighbours): Connexion
  {
    var Neighbours(l, r, t, d, tl, tr, dl, dr) := n;
    if !l && !r && !t && !d then Full
    else if !l && !r && !t then Top3
    else if !l && !r && !d then Down3
    else if !l && !t && !d then Left3
    else if !r && !t && !d then Right3
    else if !l && !r then Vertical
    else if !t && !d then Horizontal
    else if !l && !t && !dr then DownRightWithCorner
    else if !l && !d && !tr then TopRightWithCorner
    else if !r && !t && !dl then DownLeftWithCorner
    else if !r && !d && !tl then TopLeftWithCorner
    else if !l && !t then TopLeft
    else if !l && !d then DownLeft
    else if !r && !t then TopRight
    else if !r && !d then DownRight
    else if !l && !dr && !tr then LeftCorners2
    else if !r && !dl && !tl then RightCorners2
    else if !t && !dl && !dr then TopCorners2
    else if !d && !tl && !tr then DownCorners2
    else if !l && !dr then LeftCornerDown
    else if !l && !tr then LeftCornerTop
    else if !r && !dl then RightCornerTop
    else if !r && !tl then RightCornerDown
    else if !t && !dl then TopCornerDown
    else if !t && !dr then TopCornerTop
    else if !d && !tl then DownCornerTop
    else if !d && !tr then DownCornerDown
    else if !l then Left
    else if !r then Right
    else if !t then Top
    else if !d then Down
    else if !tl && !tr && !dl && !dr then QuadCorners
    else if !tl && !tr && !dl then TopLeftCorners3
    else if !tl && !tr && !dr then TopRightCorners3
    else if !tl && !dl && !dr then DownLeftCorners3
    else if !tr && !dl && !dr then DownRightCorners3
    else if !tr && !dl then DiagonalTopRight
    else if !tl && !dr then DiagonalTopLeft
    else if !tr && !dr then RightCorners
    else if !tl && !dl then LeftCorners
    else if !tr && !tl then TopCorners
    else if !dr && !dl then DownCorners
    else if !tr then TopRightCorner
    else if !tl then TopLeftCorner
    else if !dr then DownRightCorner
    else if !dl then DownLeftCorner
    else Empty
  }

  /** The neighbourhood with every corner that cannot show set: a corner is
    * drawn only when both sides next to it are connected. */
  function Canonical(n: Neighbours): Neighbours
  {
    n.(tl := n.tl || !(n.t && n.l), tr := n.tr || !(n.t && n.r),
       dl := n.dl || !(n.d && n.l), dr := n.dr || !(n.d && n.r))
  }

  /** The canonical neighbourhood each shape stands for: which sides and
    * which visible corners are open. */
  function Pattern(c: Connexion): Neighbours
  {
    match c
    case Full => Neighbours(false, false, false, false, true, true, true, true)
    case Top3 => Neighbours(false, false, false, true, true, true, true, true)
    case Down3 => Neighbours(false, false, true, false, true, true, true, true)
    case Left3 => Neighbours(false, true, false, false, true, true, true, true)
    case Right3 => Neighbours(true, false, false, false, true, true, true, true)
    case Vertical => Neighbours(false, false, true, true, true, true, true, true)
    case Horizontal => Neighbours(true, true, false, false, true, true, true, true)
    case DownRightWithCorner => Neighbours(false, true, false, true, true, true, true, false)
    case TopRightWithCorner => Neighbours(false, true, true, false, true, false, true, true)
    case DownLeftWithCorner => Neighbours(true, false, false, true, true, true, false, true)
    case TopLeftWithCorner => Neighbours(true, false, true, false, false, true, true, true)
    case TopLeft => Neighbours(false, true, false, true, true, true, true, true)
    case DownLeft => Neighbours(false, true, true, false, true, true, true, true)
    case TopRight => Neighbours(true, false, false, true, true, true, true, true)
    case DownRight => Neighbours(true, false, true, false, true, true, true, true)
    case LeftCorners2 => Neighbours(false, true, true, true, true, false, true, false)
    case RightCorners2 => Neighbours(true, false, true, true, false, true, false, true)
    case TopCorners2 => Neighbours(true, true, false, true, true, true, false, false)
    case DownCorners2 => Neighbours(true, true, true, false, false, false, true, true)
    case LeftCornerDown => Neighbours(false, true, true, true, true, true, true, false)
    case LeftCornerTop => Neighbours(false, true, true, true, true, false, true, true)
    case RightCornerTop => Neighbours(true, false, true, true, true, true, false, true)
    case RightCornerDown => Neighbours(true, false, true, true, false, true, true, true)
    case TopCornerDown => Neighbours(true, true, false, true, true, true, false, true)
    case TopCornerTop => Neighbours(true, true, false, true, true, true, true, false)
    case DownCornerTop => Neighbours(true, true, true, false, false, true, true, true)
    case DownCornerDown => Neighbours(true, true, true, false, true, false, true, true)
    case Left => Neighbours(false, true, true, true, true, true, true, true)
    case Right => Neighbours(true, false, true, true, true, true, true, true)
    case Top => Neighbours(true, true, false, true, true, true, true, true)
    case Down => Neighbours(true, true, true, false, true, true, true, true)
    case QuadCorners => Neighbours(true, true, true, true, false, false, false, false)
    case TopLeftCorners3 => Neighbours(true, true, true, true, false, false, false, true)
    case TopRightCorners3 => Neighbours(true, true, true, true, false, false, true, false)
    case DownLeftCorners3 => Neighbours(true, true, true, true, false, true, false, false)
    case DownRightCorners3 => Neighbours(true, true, true, true, true, false, false, false)
    case DiagonalTopRight => Neighbours(true, true, true, true, true, false, false, true)
    case DiagonalTopLeft => Neighbours(true, true, true, true, false, true, true, false)
    case RightCorners => Neighbours(true, true, true, true, true, false, true, false)
    case LeftCorners => Neighbours(true, true, true, true, false, true, false, true)
    case TopCorners => Neighbours(true, true, true, true, false, false, true, true)
    case DownCorners => Neighbours(true, true, true, true, true, true, false, false)
    case TopRightCorner => Neighbours(true, true, true, true, true, false, true, true)
    case TopLeftCorner => Neighbours(true, true, true, true, false, true, true, true)
    case DownRightCorner => Neighbours(true, true, true, true, true, true, true, false)
    case DownLeftCorner => Neighbours(true, true, true, true, true, true, false, true)
    case Empty => Neighbours(true, true, true, true, true, true, true, true)
  }

  /** The shape drawn names exactly the open sides and the open visible
    * corners of the neighbourhood. */
  lemma ClassifyPattern(n: Neighbours)
    ensures Pattern(Classify(n)) == Canonical(n)
  {
    if n.l && n.r && n.t && n.d {
      ClosedPattern(n);
    } else if n.l && n.r {
      OpenTopOrDownPattern(n);
    } else {
      OpenLeftOrRightPattern(n);
    }
  }

  lemma ClosedPattern(n: Neighbours)
    requires n.l && n.r && n.t && n.d
    ensures Pattern(Classify(n)) == Canonical(n)
  {
  }

  lemma OpenTopOrDownPattern(n: Neighbours)
    requires n.l && n.r && !(n.t && n.d)
    ensures Pattern(Classify(n)) == Canonical(n)
  {
  }

  lemma OpenLeftOrRightPattern(n: Neighbours)
    requires !(n.l && n.r)
    ensures Pattern(Classify(n)) == Canonical(n)
  {
  }

  /** Every shape is reached, by its own pattern. */
  lemma PatternClassify(c: Connexion)
    ensures Classify(Pattern(c)) == c && Canonical(Pattern(c)) == Pattern(c)
  {
    match c
    case Full =>
    case Top3 =>
    case Down3 =>
    case Left3 =>
    case Right3 =>
    case Vertical =>
    case Horizontal =>
    case DownRightWithCorner =>
    case TopRightWithCorner =>
    case DownLeftWithCorner =>
    case TopLeftWithCorner =>
    case TopLeft =>
    case DownLeft =>
    case TopRight =>
    case DownRight =>
    case LeftCorners2 =>
    case RightCorners2 =>
    case TopCorners2 =>
    case DownCorners2 =>
    case LeftCornerDown =>
    case LeftCornerTop =>
    case RightCornerTop =>
    case RightCornerDown =>
    case TopCornerDown =>
    case TopCornerTop =>
    case DownCornerTop =>
    case DownCornerDown =>
    case Left =>
    case Right =>
    case Top =>
    case Down =>
    case QuadCorners =>
    case TopLeftCorners3 =>
    case TopRightCorners3 =>
    case DownLeftCorners3 =>
    case DownRightCorners3 =>
    case DiagonalTopRight =>
    case DiagonalTopLeft =>
    case RightCorners =>
    case LeftCorners =>
    case TopCorners =>
    case DownCorners =>
    case TopRightCorner =>
    case TopLeftCorner =>
    case DownRightCorner =>
    case DownLeftCorner =>
    case Empty =>
  }

  /** Distinct shapes stand for distinct neighbourhoods. */
  lemma PatternInjective(c1: Connexion, c2: Connexion)
    requires Pattern(c1) == Pattern(c2)
    ensures c1 == c2
  {
    PatternClassify(c1);
    PatternClassify(c2);
  }

  /** Two neighbourhoods get the same shape exactly when they agree on the
    * sides and on the visible corners; in particular a corner next to an
    * open side never matters. */
  lemma SameShapeIffSameCanonical(n1: Neighbours, n2: Neighbours)
    ensures Classify(n1) == Classify(n2) <==> Canonical(n1) == Canonical(n2)
  {
    ClassifyPattern(n1);
    ClassifyPattern(n2);
    if Canonical(n1) == Canonical(n2) {
      PatternClassify(Classify(n1));
      PatternClassify(Classify(n2));
    }
  }

  /** Two grids with the same eight neighbours classify alike, whatever the
    * rest of the grid. */
  lemma OnlyNeighboursMatter(m1: seq<bool>, m2: seq<bool>)
    requires IsLocalMatrix(m1) && IsLocalMatrix(m2) && m1[4] && m2[4]
    requires forall i :: 0 <= i < 9 && i != 4 ==> m1[i] == m2[i]
    ensures LocalMatrixToConnexion(m1) == LocalMatrixToConnexion(m2)
  {
    assert NeighboursOf(m1) == NeighboursOf(m2);
  }

  /** No connected side: a lone tile, whatever the corners. */
  lemma NoSideIsFull(n: Neighbours)
    requires !n.l && !n.r && !n.t && !n.d
    ensures Classify(n) == Full
  {
  }

  /** All eight neighbours connected: the inner tile. */
  lemma AllConnectedIsEmpty(n: Neighbours)
    requires n.l && n.r && n.t && n.d && n.tl && n.tr && n.dl && n.dr
    ensures Classify(n) == Empty
  {
  }

  /** Exactly one side connected gives the three-open-sides shape. */
  lemma ThreeOpenSides(n: Neighbours)
    ensures !n.l && !n.r && !n.t && n.d ==> Classify(n) == Top3
    ensures !n.l && !n.r && n.t && !n.d ==> Classify(n) == Down3
    ensures !n.l && n.r && !n.t && !n.d ==> Classify(n) == Left3
    ensures n.l && !n.r && !n.t && !n.d ==> Classify(n) == Right3
  {
  }

  /** Two opposite connected sides give a straight piece. */
  lemma StraightPieces(n: Neighbours)
    ensures !n.l && !n.r && n.t && n.d ==> Classify(n) == Vertical
    ensures n.l && n.r && !n.t && !n.d ==> Classify(n) == Horizontal
  {
  }

  /** Only the left side open: the shape is decided by the two right
    * corners alone. */
  lemma LeftOpenUsesRightCorners(n: Neighbours)
    requires !n.l && n.r && n.t && n.d
    ensures Classify(n) == (if !n.tr && !n.dr then LeftCorners2
                            else if !n.dr then LeftCornerDown
                            else if !n.tr then LeftCornerTop
                            else Left)
  {
  }

  /** All sides connected: the shape is decided by the corners alone, and
    * each corner pattern has its own shape. */
  lemma ClosedSidesUseCorners(n1: Neighbours, n2: Neighbours)
    requires n1.l && n1.r && n1.t && n1.d && n2.l && n2.r && n2.t && n2.d
    ensures Classify(n1) == Classify(n2) <==> (n1.tl, n1.tr, n1.dl, n1.dr) == (n2.tl, n2.tr, n2.dl, n2.dr)
  {
    ClassifyPattern(n1);
    ClassifyPattern(n2);
    assert Canonical(n1) == n1 && Canonical(n2) == n2;
  }

  /** All sides connected and no corner connected: four inner corners. */
  lemma OpenCornersIsQuad(n: Neighbours)
    requires n.l && n.r && n.t && n.d && !n.tl && !n.tr && !n.dl && !n.dr
    ensures Classify(n) == QuadCorners
  {
  }
}
