/** Images as grids of pixels and the five layout transforms of the imaging
    library that the orientation switch of Manipulate uses (FlipH, FlipV,
    Rotate90, Rotate180, Rotate270). Pixels are of an arbitrary type. */
module Geometry {

  /** `height` rows of `width` pixels each; row 0 is the top row and
      column 0 the left column. */
  datatype Picture<T> = Picture(width: nat, height: nat, rows: seq<seq<T>>)
  {
    predicate Wf()
    {
      |rows| == height && forall y :: 0 <= y < |rows| ==> |rows[y]| == width
    }
  }

  /** Two well-formed pictures with the same size and the same pixel at every
      position are the same picture. */
  lemma SamePicture<T>(p: Picture<T>, q: Picture<T>)
    requires p.Wf() && q.Wf() && p.width == q.width && p.height == q.height
    requires forall y, x :: 0 <= y < p.height && 0 <= x < p.width ==> p.rows[y][x] == q.rows[y][x]
    ensures p == q
  {
    forall y | 0 <= y < p.height
      ensures p.rows[y] == q.rows[y]
    {
    }
  }

  /** imaging.FlipH: mirror left to right. */
  function FlipH<T>(p: Picture<T>): (r: Picture<T>)
    requires p.Wf()
    ensures r.Wf() && r.width == p.width && r.height == p.height
    ensures forall y, x :: 0 <= y < r.height && 0 <= x < r.width ==>
      r.rows[y][x] == p.rows[y][p.width - 1 - x]
  {
    Picture(p.width, p.height,
      seq(p.height, y requires 0 <= y < p.height =>
        seq(p.width, x requires 0 <= x < p.width => p.rows[y][p.width - 1 - x])))
  }

  /** imaging.FlipV: mirror top to bottom. */
  function FlipV<T>(p: Picture<T>): (r: Picture<T>)
    requires p.Wf()
    ensures r.Wf() && r.width == p.width && r.height == p.height
    ensures forall y, x :: 0 <= y < r.height && 0 <= x < r.width ==>
      r.rows[y][x] == p.rows[p.height - 1 - y][x]
  {
    Picture(p.width, p.height,
      seq(p.height, y requires 0 <= y < p.height =>
        seq(p.width, x requires 0 <= x < p.width => p.rows[p.height - 1 - y][x])))
  }

  /** imaging.Rotate180. */
  function Rotate180<T>(p: Picture<T>): (r: Picture<T>)
    requires p.Wf()
    ensures r.Wf() && r.width == p.width && r.height == p.height
    ensures forall y, x :: 0 <= y < r.height && 0 <= x < r.width ==>
      r.rows[y][x] == p.rows[p.height - 1 - y][p.width - 1 - x]
  {
    Picture(p.width, p.height,
      seq(p.height, y requires 0 <= y < p.height =>
        seq(p.width, x requires 0 <= x < p.width => p.rows[p.height - 1 - y][p.width - 1 - x])))
  }

  /** imaging.Rotate90: a quarter turn counter-clockwise; the last column
      becomes the top row. */
  function Rotate90<T>(p: Picture<T>): (r: Picture<T>)
    requires p.Wf()
    ensures r.Wf() && r.width == p.height && r.height == p.width
    ensures forall y, x :: 0 <= y < r.height && 0 <= x < r.width ==>
      r.rows[y][x] == p.rows[x][p.width - 1 - y]
  {
    Picture(p.height, p.width,
      seq(p.width, y requires 0 <= y < p.width =>
        seq(p.height, x requires 0 <= x < p.height => p.rows[x][p.width - 1 - y])))
  }

  /** imaging.Rotate270: a quarter turn clockwise; the first column, read
      bottom to top, becomes the top row. */
  function Rotate270<T>(p: Picture<T>): (r: Picture<T>)
    requires p.Wf()
    ensures r.Wf() && r.width == p.height && r.height == p.width
    ensures forall y, x :: 0 <= y < r.height && 0 <= x < r.width ==>
      r.rows[y][x] == p.rows[p.height - 1 - x][y]
  {
    Picture(p.height, p.width,
      seq(p.width, y requires 0 <= y < p.width =>
        seq(p.height, x requires 0 <= x < p.height => p.rows[p.height - 1 - x][y])))
  }

  /** The two quarter turns undo each other. */
  lemma QuarterTurnsCancel<T>(p: Picture<T>)
    requires p.Wf()
    ensures Rotate270(Rotate90(p)) == p
    ensures Rotate90(Rotate270(p)) == p
  {
    SamePicture(Rotate270(Rotate90(p)), p);
    SamePicture(Rotate90(Rotate270(p)), p);
  }

  /** Mirroring is its own inverse, and so is the half turn. */
  lemma SelfInverse<T>(p: Picture<T>)
    requires p.Wf()
    ensures FlipH(FlipH(p)) == p
    ensures FlipV(FlipV(p)) == p
    ensures Rotate180(Rotate180(p)) == p
  {
    SamePicture(FlipH(FlipH(p)), p);
    SamePicture(FlipV(FlipV(p)), p);
    SamePicture(Rotate180(Rotate180(p)), p);
  }

  /** The half turn is both mirrors, and two quarter turns. */
  lemma HalfTurn<T>(p: Picture<T>)
    requires p.Wf()
    ensures FlipV(FlipH(p)) == Rotate180(p)
    ensures Rotate90(Rotate90(p)) == Rotate180(p)
  {
    SamePicture(FlipV(FlipH(p)), Rotate180(p));
    SamePicture(Rotate90(Rotate90(p)), Rotate180(p));
  }
}
