// One ultrasound frame (lib/metaimage.hpp): its pixel grid, pixel spacing and pose, the
// mapping from world to pixel coordinates, the pose header parser and the 4-connected region
// growing used to collect the velocity samples of a vessel cross-section.
//
// Reading the file is I/O: `Read` receives what the image reader returned (sizes, spacing,
// pixel values) and the header as lines of whitespace-separated tokens, and the decimal parser
// std::stod is a function argument.
module Frames {
  import opened Helpers
  import opened Matrices

  /** makehash(x, y) for an image of the given width: x + width * y. */
  function MakeHash(width: int, x: int, y: int): (r: int)
    ensures 0 <= x < width ==> width * y <= r < width * y + width
  {
    x + width * y
  }

  lemma MulMonotone(w: int, a: int, b: int)
    requires w >= 0 && a <= b
    ensures w * a <= w * b
  {
    assert w * b - w * a == w * (b - a);
  }

  /**
   * Inside a width x height grid makehash is a bijection onto 0 .. width*height - 1: it stays
   * in range and distinct pixels get distinct hashes.
   */
  lemma MakeHashInjective(width: int, height: int, x1: int, y1: int, x2: int, y2: int)
    requires 0 <= x1 < width && 0 <= y1 < height && 0 <= x2 < width && 0 <= y2 < height
    ensures 0 <= MakeHash(width, x1, y1) < width * height
    ensures MakeHash(width, x1, y1) == MakeHash(width, x2, y2) <==> x1 == x2 && y1 == y2
  {
    MulMonotone(width, 0, y1);
    MulMonotone(width, y1, height - 1);
    if y1 < y2 {
      MulMonotone(width, y1 + 1, y2);
    } else if y2 < y1 {
      MulMonotone(width, y2 + 1, y1);
    }
  }

  /** The pixels regionGrow pushes after a pixel with hash l: left, right, up, down. */
  function Neighbours(l: int, width: int): seq<int>
  {
    [l - 1, l + 1, l - width, l + width]
  }

  /** `line.find(key) != npos` restricted to one token: key occurs in s. */
  function Contains(s: string, key: string): bool
  {
    if |s| < |key| then false else s[..|key|] == key || Contains(s[1..], key)
  }

  /**
   * A header line mentions key. The key holds no whitespace, so it occurs in the raw line
   * exactly when it occurs in one of the line's tokens.
   */
  function Mentions(line: seq<string>, key: string): bool
  {
    if line == [] then false else Contains(line[0], key) || Mentions(line[1..], key)
  }

  /** The values on a header line: every token after the first two ("Key" and "="), parsed. */
  function Values(line: seq<string>, stod: string -> real): (r: seq<real>)
    ensures |line| <= 2 ==> r == []
    ensures |line| > 2 ==> |r| == |line| - 2 && forall k :: 0 <= k < |r| ==> r[k] == stod(line[k + 2])
  {
    if |line| <= 2 then [] else seq(|line| - 2, k requires 0 <= k < |line| - 2 => stod(line[k + 2]))
  }

  /** Offset values k go to cell (k, 3), in order. */
  function WriteOffsets(m: Matrix4, vals: seq<real>): Matrix4
    requires |vals| <= 4
  {
    if vals == [] then m
    else Set(WriteOffsets(m, vals[..|vals| - 1]), |vals| - 1, 3, vals[|vals| - 1])
  }

  /** TransformMatrix values k go to cell (k mod 3, k div 3): column by column. */
  function WriteRotation(m: Matrix4, vals: seq<real>): Matrix4
    requires |vals| <= 12
  {
    if vals == [] then m
    else
      var k := |vals| - 1;
      Set(WriteRotation(m, vals[..k]), k % 3, k / 3, vals[k])
  }

  /** Writing one more value extends the writes of the shorter prefix by one cell. */
  lemma RotationStep(m: Matrix4, vals: seq<real>, k: int)
    requires 0 <= k < |vals| <= 12
    ensures WriteRotation(m, vals[..k + 1]) == Set(WriteRotation(m, vals[..k]), k % 3, k / 3, vals[k])
  {
    assert vals[..k + 1][..k] == vals[..k];
  }

  lemma DivModThree(x: int, q: int, r: int)
    requires 0 <= r < 3 && x == 3 * q + r
    ensures x % 3 == r && x / 3 == q
  {
  }

  /** What one header line does to the pose: an Offset line, else a TransformMatrix line, else nothing. */
  function ApplyLine(m: Matrix4, line: seq<string>, stod: string -> real): Matrix4
    requires LineFits(line)
  {
    if Mentions(line, "Offset") then Set(WriteOffsets(m, Values(line, stod)), 3, 3, 1.0)
    else if Mentions(line, "TransformMatrix") then WriteRotation(m, Values(line, stod))
    else m
  }

  /**
   * The header lines whose writes stay inside the 4x4 pose: an Offset line with at most four
   * values and a TransformMatrix line with at most twelve. A longer line makes the source write
   * past the matrix, which Eigen checks only in debug builds, so the behaviour is undefined; the
   * model does not cover it.
   */
  predicate LineFits(line: seq<string>)
  {
    (Mentions(line, "Offset") ==> |line| <= 6)
    && (!Mentions(line, "Offset") && Mentions(line, "TransformMatrix") ==> |line| <= 14)
  }

  predicate HeaderFits(header: seq<seq<string>>)
  {
    forall l :: 0 <= l < |header| ==> LineFits(header[l])
  }

  /** setTransform: every header line in file order. */
  function ApplyHeader(m: Matrix4, header: seq<seq<string>>, stod: string -> real): Matrix4
    requires HeaderFits(header)
  {
    if header == [] then m
    else ApplyLine(ApplyHeader(m, header[..|header| - 1], stod), header[|header| - 1], stod)
  }

  /** An Offset line writes its values down column 3 and nothing else but cell (3, 3). */
  lemma {:induction false} WriteOffsetsCells(m: Matrix4, vals: seq<real>)
    requires |vals| <= 4
    ensures forall k :: 0 <= k < |vals| ==> WriteOffsets(m, vals)[k][3] == vals[k]
    ensures forall i, j :: 0 <= i < 4 && 0 <= j < 4 && (j != 3 || i >= |vals|) ==>
              WriteOffsets(m, vals)[i][j] == m[i][j]
  {
    if vals != [] {
      WriteOffsetsCells(m, vals[..|vals| - 1]);
    }
  }

  /** A TransformMatrix line fills the 3x3 block column by column and touches nothing else. */
  lemma {:induction false} WriteRotationCells(m: Matrix4, vals: seq<real>)
    requires |vals| <= 12
    ensures forall k :: 0 <= k < |vals| ==> WriteRotation(m, vals)[k % 3][k / 3] == vals[k]
    ensures forall i, j :: 0 <= i < 4 && 0 <= j < 4 && (i == 3 || 3 * j + i >= |vals|) ==>
              WriteRotation(m, vals)[i][j] == m[i][j]
  {
    if vals != [] {
      var k := |vals| - 1;
      WriteRotationCells(m, vals[..k]);
      forall k' | 0 <= k' < k
        ensures k' % 3 != k % 3 || k' / 3 != k / 3
      {
      }
    }
  }

  /**
   * A header holding a TransformMatrix line with nine values and then an Offset line with three,
   * read into the zero matrix, yields the homogeneous pose: rotation column j is values 3j..3j+2,
   * column 3 is the offset, and the bottom row is 0 0 0 1.
   */
  lemma PoseFromHeader(rotation: seq<string>, offset: seq<string>, stod: string -> real)
    requires |rotation| == 11 && Mentions(rotation, "TransformMatrix") && !Mentions(rotation, "Offset")
    requires |offset| == 5 && Mentions(offset, "Offset")
    ensures HeaderFits([rotation, offset])
    ensures var m := ApplyHeader(Zero(), [rotation, offset], stod);
            (forall i, j :: 0 <= i < 3 && 0 <= j < 3 ==> m[i][j] == stod(rotation[2 + 3 * j + i]))
            && (forall i :: 0 <= i < 3 ==> m[i][3] == stod(offset[2 + i]))
            && m[3] == [0.0, 0.0, 0.0, 1.0]
  {
    var header := [rotation, offset];
    assert header[..1] == [rotation] && [rotation][..0] == [];
    var r := Values(rotation, stod);
    var o := Values(offset, stod);
    var m1 := WriteRotation(Zero(), r);
    WriteRotationCells(Zero(), r);
    assert ApplyHeader(Zero(), [rotation], stod) == m1;
    WriteOffsetsCells(m1, o);
    var m := ApplyHeader(Zero(), header, stod);
    assert m == Set(WriteOffsets(m1, o), 3, 3, 1.0);
    forall i, j | 0 <= i < 3 && 0 <= j < 3
      ensures m[i][j] == stod(rotation[2 + 3 * j + i])
    {
      DivModThree(3 * j + i, j, i);
    }
  }

  /** Every pixel of a width x height grid lies inside the pixel buffer. */
  lemma PixelInBuffer(width: int, height: int, x: int, y: int)
    requires 0 <= x < width && 0 <= y < height
    ensures 0 <= MakeHash(width, x, y) < width * height
  {
    MakeHashInjective(width, height, x, y, x, y);
  }

  /**
   * The region found from a seed: pixel hashes, each nonzero, none twice, and closed under the
   * four neighbours within the buffer.
   */
  ghost predicate ClosedRegion(pixels: seq<real>, width: int, order: seq<int>)
  {
    (forall k :: 0 <= k < |order| ==> 0 <= order[k] < |pixels| && pixels[order[k]] != 0.0)
    && (forall a, b :: 0 <= a < b < |order| ==> order[a] != order[b])
    && (forall k, d :: (0 <= k < |order| && 0 <= d < 4 && 0 <= Neighbours(order[k], width)[d] < |pixels|
                         && pixels[Neighbours(order[k], width)[d]] != 0.0) ==> Neighbours(order[k], width)[d] in order)
  }

  /** A chain of nonzero pixels, each a neighbour of the one before. */
  ghost predicate NonzeroPath(pixels: seq<real>, width: int, path: seq<int>)
  {
    (forall k :: 0 <= k < |path| ==> 0 <= path[k] < |pixels| && pixels[path[k]] != 0.0)
    && forall k :: 0 < k < |path| ==> path[k] in Neighbours(path[k - 1], width)
  }

  /**
   * A closed region that holds the start of a nonzero path holds the whole path: the region
   * grown from a seed contains every pixel connected to it.
   */
  lemma {:induction false} ClosedRegionContainsPath(pixels: seq<real>, width: int, order: seq<int>, path: seq<int>)
    requires ClosedRegion(pixels, width, order) && NonzeroPath(pixels, width, path)
    requires path != [] && path[0] in order
    ensures forall k :: 0 <= k < |path| ==> path[k] in order
  {
    if |path| > 1 {
      var init := path[..|path| - 1];
      assert NonzeroPath(pixels, width, init);
      ClosedRegionContainsPath(pixels, width, order, init);
      var last := path[|path| - 1];
      var prev := path[|path| - 2];
      assert prev in order;
      var k :| 0 <= k < |order| && order[k] == prev;
      var d :| 0 <= d < 4 && Neighbours(prev, width)[d] == last;
      assert path[|path| - 1] in order;
    }
  }

  /**
   * Every reported pixel after the first is a neighbour of one reported before it: the region
   * is grown outward from order[0].
   */
  ghost predicate Rooted(width: int, order: seq<int>)
  {
    forall k :: 0 < k < |order| ==> Adjoins(width, order[..k], order[k])
  }

  /** Pixel p is a 4-neighbour of one of the given pixels. */
  ghost predicate Adjoins(width: int, pixels: seq<int>, p: int)
  {
    exists j :: 0 <= j < |pixels| && p in Neighbours(pixels[j], width)
  }

  /** Pixel `to` is reached from pixel `from` by a chain of nonzero 4-neighbours. */
  ghost predicate Connected(pixels: seq<real>, width: int, from: int, to: int)
  {
    exists path :: NonzeroPath(pixels, width, path) && path != [] && path[0] == from && path[|path| - 1] == to
  }

  /** A nonzero path extended by a nonzero neighbour of its last pixel is a nonzero path. */
  lemma PathExtend(pixels: seq<real>, width: int, path: seq<int>, p: int)
    requires NonzeroPath(pixels, width, path) && path != []
    requires 0 <= p < |pixels| && pixels[p] != 0.0 && p in Neighbours(path[|path| - 1], width)
    ensures NonzeroPath(pixels, width, path + [p])
  {
    var q := path + [p];
    forall k | 0 < k < |q|
      ensures q[k] in Neighbours(q[k - 1], width)
    {
      if k < |path| {
        assert q[k] == path[k] && q[k - 1] == path[k - 1];
      }
    }
  }

  /** A rooted sequence of nonzero pixels holds a nonzero path from its first pixel to each pixel. */
  lemma {:induction false} PathToReported(pixels: seq<real>, width: int, order: seq<int>, k: int)
    returns (path: seq<int>)
    requires forall i :: 0 <= i < |order| ==> 0 <= order[i] < |pixels| && pixels[order[i]] != 0.0
    requires Rooted(width, order) && 0 <= k < |order|
    ensures NonzeroPath(pixels, width, path) && path != [] && path[0] == order[0] && path[|path| - 1] == order[k]
    decreases k
  {
    if k == 0 {
      path := [order[0]];
    } else {
      assert Adjoins(width, order[..k], order[k]);
      var j :| 0 <= j < k && order[k] in Neighbours(order[..k][j], width);
      var p := PathToReported(pixels, width, order, j);
      PathExtend(pixels, width, p, order[k]);
      path := p + [order[k]];
    }
  }

  /**
   * A closed region grown from its first pixel is exactly that pixel's 4-connected component of
   * nonzero pixels: a pixel is reported if and only if it is connected to the first.
   */
  lemma RegionIsComponent(pixels: seq<real>, width: int, order: seq<int>)
    requires ClosedRegion(pixels, width, order) && Rooted(width, order) && order != []
    ensures forall i :: i in order <==> Connected(pixels, width, order[0], i)
  {
    forall i
      ensures i in order <==> Connected(pixels, width, order[0], i)
    {
      if i in order {
        var k :| 0 <= k < |order| && order[k] == i;
        var path := PathToReported(pixels, width, order, k);
      }
      if Connected(pixels, width, order[0], i) {
        var path :| NonzeroPath(pixels, width, path) && path != [] && path[0] == order[0] && path[|path| - 1] == i;
        ClosedRegionContainsPath(pixels, width, order, path);
      }
    }
  }

  /**
   * toImgCoords: the point relative to the image origin (column 3 of the pose), projected on the
   * image x and y axes (columns 0 and 1) and divided by the pixel spacing. The source divides by
   * a zero spacing; that case is None.
   */
  function PixelCoords(m: Matrix4, sx: real, sy: real, p: Vec3): (r: Option<(real, real)>)
    ensures r.None? <==> sx == 0.0 || sy == 0.0
  {
    // innerProduct(column j, p) is m(0,j)*p[0] + m(1,j)*p[1] + m(2,j)*p[2], the sum written out there.
    var x := InnerProduct(Column(m, 0), p);
    var offsetX := InnerProduct(Column(m, 0), Column(m, 3));
    var y := InnerProduct(Column(m, 1), p);
    var offsetY := InnerProduct(Column(m, 1), Column(m, 3));
    if sx == 0.0 || sy == 0.0 then None
    else Some(((x - offsetX) / sx, (y - offsetY) / sy))
  }

  /** The world position of pixel coordinates (u, v): origin plus u spacings along axis 0 and v along axis 1. */
  function WorldPoint(m: Matrix4, sx: real, sy: real, u: real, v: real): Vec3
  {
    Add(Column(m, 3), Add(Scale(u * sx, Column(m, 0)), Scale(v * sy, Column(m, 1))))
  }

  /** The image origin maps to pixel (0, 0). */
  lemma OriginToPixelZero(m: Matrix4, sx: real, sy: real)
    requires sx != 0.0 && sy != 0.0
    ensures PixelCoords(m, sx, sy, Column(m, 3)) == Some((0.0, 0.0))
  {
    assert 0.0 / sx == 0.0 && 0.0 / sy == 0.0;
  }

  lemma PixelCoordsAre(m: Matrix4, sx: real, sy: real, p: Vec3, dx: real, dy: real)
    requires sx != 0.0 && sy != 0.0
    requires dx == InnerProduct(Column(m, 0), p) - InnerProduct(Column(m, 0), Column(m, 3))
    requires dy == InnerProduct(Column(m, 1), p) - InnerProduct(Column(m, 1), Column(m, 3))
    ensures PixelCoords(m, sx, sy, p) == Some((dx / sx, dy / sy))
  {
  }

  /**
   * toImgCoords inverts the pose: when the image axes 0 and 1 are orthonormal, the pixel
   * coordinates of WorldPoint(u, v) are (u, v).
   */
  lemma PixelCoordsInvertPose(m: Matrix4, sx: real, sy: real, u: real, v: real)
    requires sx != 0.0 && sy != 0.0
    requires InnerProduct(Column(m, 0), Column(m, 0)) == 1.0
    requires InnerProduct(Column(m, 1), Column(m, 1)) == 1.0
    requires InnerProduct(Column(m, 0), Column(m, 1)) == 0.0
    ensures PixelCoords(m, sx, sy, WorldPoint(m, sx, sy, u, v)) == Some((u, v))
  {
    var c0, c1, t := Column(m, 0), Column(m, 1), Column(m, 3);
    var a, b := u * sx, v * sy;
    var p := WorldPoint(m, sx, sy, u, v);
    InnerProductSymmetric(c0, c1);
    ProjectOnAxis(c0, t, c0, c1, a, b, 1.0, 0.0);
    ProjectOnAxis(c1, t, c0, c1, a, b, 0.0, 1.0);
    DivideBack(u, sx);
    DivideBack(v, sy);
    PixelCoordsAre(m, sx, sy, p, a, b);
  }

  /** A set of indices below n has at most n elements. */
  lemma {:induction false} IndexSetSize(s: set<int>, n: nat)
    requires forall i :: i in s ==> 0 <= i < n
    ensures |s| <= n
  {
    if n == 0 {
      assert forall i :: i !in s;
      assert s == {};
    } else {
      var rest := s - {n - 1};
      IndexSetSize(rest, n - 1);
      if n - 1 in s {
        assert s == rest + {n - 1};
      } else {
        assert s == rest;
      }
    }
  }

  /**
   * The loop of the TransformMatrix branch on a copy of the pose: token k goes to cell (i, j),
   * i counting 0, 1, 2 and wrapping to 0 while j advances.
   */
  method RotationWrites(m: Matrix4, line: seq<string>, stod: string -> real) returns (t: Matrix4)
    requires |line| <= 14
    ensures t == WriteRotation(m, Values(line, stod))
  {
    var vals := Values(line, stod);
    t := m;
    var i, j := 0, 0;
    var k := 2;
    ghost var v := 0;
    while k < |line|
      invariant 2 <= k <= if |line| < 2 then 2 else |line|
      invariant v == k - 2 && v <= |vals|
      invariant k == 2 ==> i == 0 && j == 0
      invariant k > 2 ==> 1 <= i <= 3 && 3 * j + i == v
      invariant t == WriteRotation(m, vals[..v])
    {
      if i > 2 {
        i := 0;
        j := j + 1;
      }
      assert Set(t, i, j, vals[v]) == WriteRotation(m, vals[..v + 1]) by {
        DivModThree(v, j, i);
        RotationStep(m, vals, v);
      }
      t := Set(t, i, j, vals[k - 2]);
      i := i + 1;
      k := k + 1;
      v := v + 1;
    }
    assert vals[..v] == vals;
  }

  class MetaImage {
    var xsize: int
    var ysize: int
    var xspacing: real
    var yspacing: real
    /** The pose: columns 0..2 are the image axes in world space, column 3 the image origin. */
    var transform: Matrix4
    var idx: int
    /** The pixel values, row after row: pixel (x, y) is pixels[x + xsize * y]. */
    var pixels: seq<real>

    ghost predicate Valid()
      reads this
    {
      xsize >= 0 && ysize >= 0 && |pixels| == xsize * ysize
    }

    /** MetaImage(): an empty 0x0 image with zero spacing, zero pose and index -1. */
    constructor ()
      ensures Valid()
      ensures xsize == 0 && ysize == 0 && xspacing == 0.0 && yspacing == 0.0
      ensures transform == Zero() && idx == -1 && pixels == []
    {
      xsize := 0;
      ysize := 0;
      xspacing := 0.0;
      yspacing := 0.0;
      transform := Zero();
      idx := -1;
      pixels := [];
    }

    method SetIdx(i: int)
      modifies this
      ensures idx == i
      ensures xsize == old(xsize) && ysize == old(ysize) && pixels == old(pixels)
      ensures xspacing == old(xspacing) && yspacing == old(yspacing) && transform == old(transform)
    {
      idx := i;
    }

    /** makehash(x, y). */
    function Hash(x: int, y: int): (r: int)
      reads this
      ensures Valid() && 0 <= x < xsize && 0 <= y < ysize ==> 0 <= r < |pixels|
    {
      if 0 <= x < xsize && 0 <= y < ysize then PixelInBuffer(xsize, ysize, x, y); MakeHash(xsize, x, y)
      else MakeHash(xsize, x, y)
    }

    /** inImage(x, y): the point lies in [0, xsize) x [0, ysize). */
    predicate InImage(x: real, y: real)
      reads this
      ensures InImage(x, y) <==> 0.0 <= x < xsize as real && 0.0 <= y < ysize as real
      ensures InImage(x, y) ==> xsize > 0 && ysize > 0
    {
      !(x < 0.0 || x >= xsize as real || y < 0.0 || y >= ysize as real)
    }

    /** A point inImage accepts truncates to a pixel of the grid, inside the pixel buffer. */
    lemma InImagePixel(x: real, y: real)
      requires Valid() && InImage(x, y)
      ensures 0 <= Trunc(x) < xsize && 0 <= Trunc(y) < ysize
      ensures 0 <= Hash(Trunc(x), Trunc(y)) < |pixels|
    {
      PixelInBuffer(xsize, ysize, Trunc(x), Trunc(y));
    }

    /** toImgCoords(x, y, p) on this image's pose and spacing. */
    function ToImgCoords(p: Vec3): (r: Option<(real, real)>)
      reads this
      ensures r.None? <==> xspacing == 0.0 || yspacing == 0.0
    {
      PixelCoords(transform, xspacing, yspacing, p)
    }

    /** The source's reader: sizes, spacing and pixels from the file, then setTransform. */
    method Read(width: int, height: int, spacingX: real, spacingY: real, data: seq<real>,
                header: seq<seq<string>>, stod: string -> real)
      requires width >= 0 && height >= 0 && |data| == width * height && HeaderFits(header)
      modifies this
      ensures Valid()
      ensures xsize == width && ysize == height && xspacing == spacingX && yspacing == spacingY
      ensures pixels == data && idx == old(idx)
      ensures transform == ApplyHeader(old(transform), header, stod)
    {
      pixels := data;
      xsize := width;
      ysize := height;
      xspacing := spacingX;
      yspacing := spacingY;
      SetTransform(header, stod);
    }

    /** setTransform: the header lines in order, each through ApplyLine. */
    method SetTransform(header: seq<seq<string>>, stod: string -> real)
      requires HeaderFits(header)
      modifies this
      ensures transform == ApplyHeader(old(transform), header, stod)
      ensures xsize == old(xsize) && ysize == old(ysize) && pixels == old(pixels) && idx == old(idx)
      ensures xspacing == old(xspacing) && yspacing == old(yspacing)
    {
      var l := 0;
      while l < |header|
        invariant 0 <= l <= |header|
        invariant transform == ApplyHeader(old(transform), header[..l], stod)
        invariant xsize == old(xsize) && ysize == old(ysize) && pixels == old(pixels) && idx == old(idx)
        invariant xspacing == old(xspacing) && yspacing == old(yspacing)
      {
        var line := header[l];
        assert header[..l + 1][..l] == header[..l];
        if Mentions(line, "Offset") {
          ReadOffsetLine(line, stod);
        } else if Mentions(line, "TransformMatrix") {
          ReadRotationLine(line, stod);
        }
        l := l + 1;
      }
      assert header[..|header|] == header;
    }

    /** The Offset branch: values to (i++, 3), then 1 to (3, 3). */
    method ReadOffsetLine(line: seq<string>, stod: string -> real)
      requires Mentions(line, "Offset") && |line| <= 6
      modifies this
      ensures transform == Set(WriteOffsets(old(transform), Values(line, stod)), 3, 3, 1.0)
      ensures xsize == old(xsize) && ysize == old(ysize) && pixels == old(pixels) && idx == old(idx)
      ensures xspacing == old(xspacing) && yspacing == old(yspacing)
    {
      var vals := Values(line, stod);
      var i := 0;
      var k := 2;
      while k < |line|
        invariant 2 <= k <= if |line| < 2 then 2 else |line|
        invariant i == k - 2
        invariant transform == WriteOffsets(old(transform), vals[..i])
        invariant xsize == old(xsize) && ysize == old(ysize) && pixels == old(pixels) && idx == old(idx)
        invariant xspacing == old(xspacing) && yspacing == old(yspacing)
      {
        assert vals[..i + 1][..i] == vals[..i];
        transform := Set(transform, i, 3, stod(line[k]));
        i := i + 1;
        k := k + 1;
      }
      assert vals[..i] == vals;
      transform := Set(transform, 3, 3, 1.0);
    }

    /** The TransformMatrix branch: value k to (k mod 3, k div 3), wrapping i and advancing j. */
    method ReadRotationLine(line: seq<string>, stod: string -> real)
      requires !Mentions(line, "Offset") && Mentions(line, "TransformMatrix") && |line| <= 14
      modifies this
      ensures transform == WriteRotation(old(transform), Values(line, stod))
      ensures xsize == old(xsize) && ysize == old(ysize) && pixels == old(pixels) && idx == old(idx)
      ensures xspacing == old(xspacing) && yspacing == old(yspacing)
    {
      transform := RotationWrites(transform, line, stod);
    }

    /**
     * regionGrow(ret, imgx, imgy): the values appended to ret. The first is the seed pixel,
     * whatever its value; then every nonzero pixel of the seed's region once, in the order the
     * stack meets them, so a nonzero seed is reported twice. Pixels are addressed by their hash
     * x + xsize * y, as the source does, so the left and right neighbours of a pixel on the
     * image edge are pixels of the adjacent rows.
     */
    method RegionGrow(imgx: int, imgy: int) returns (found: seq<real>, ghost order: seq<int>)
      requires Valid() && 0 <= imgx < xsize && 0 <= imgy < ysize
      ensures 0 <= Hash(imgx, imgy) < |pixels|
      ensures |found| == |order| + 1
      ensures found[0] == pixels[Hash(imgx, imgy)]
      ensures ClosedRegion(pixels, xsize, order) && Rooted(xsize, order)
      ensures forall k :: 0 <= k < |order| ==> found[k + 1] == pixels[order[k]]
      ensures pixels[Hash(imgx, imgy)] != 0.0 ==> order != [] && order[0] == Hash(imgx, imgy)
      ensures pixels[Hash(imgx, imgy)] != 0.0 ==>
                forall i :: i in order <==> Connected(pixels, xsize, Hash(imgx, imgy), i)
      ensures pixels[Hash(imgx, imgy)] == 0.0 ==> order == []
    {
      var n := |pixels|;
      var seed := imgx + imgy * xsize;
      assert seed == Hash(imgx, imgy);
      PixelInBuffer(xsize, ysize, imgx, imgy);
      var stack := [seed];
      found := [pixels[seed]];
      var visited := new bool[Hash(xsize, ysize)](_ => false);
      ghost var seen: set<int> := {};
      order := [];
      GrowStart(pixels, xsize, seed);
      while stack != []
        invariant visited.Length == xsize + xsize * ysize && n <= visited.Length
        invariant forall i :: 0 <= i < visited.Length ==> (visited[i] <==> i in seen)
        invariant Growing(pixels, xsize, seed, stack, seen, order, found)
        invariant forall i :: i in seen ==> 0 <= i < n
        decreases n - |seen|, |stack|
      {
        IndexSetSize(seen, n);
        stack, seen, order, found := GrowPop(pixels, xsize, seed, visited, stack, seen, order, found);
        IndexSetSize(seen, n);
      }
      GrowDone(pixels, xsize, seed, seen, order, found);
    }
  }

  /**
   * One iteration of regionGrow's loop: pop a pixel; skip it when it lies outside the buffer or
   * is a visited nonzero pixel; otherwise report it and push its four neighbours when it is
   * nonzero, and mark it visited. Either a new pixel is visited or the stack shrinks.
   */
  method GrowPop(pixels: seq<real>, width: int, seed: int, visited: array<bool>, stack: seq<int>,
                 ghost seen: set<int>, ghost order: seq<int>, found: seq<real>)
    returns (stack': seq<int>, ghost seen': set<int>, ghost order': seq<int>, found': seq<real>)
    requires |pixels| <= visited.Length && stack != []
    requires forall i :: 0 <= i < visited.Length ==> (visited[i] <==> i in seen)
    requires Growing(pixels, width, seed, stack, seen, order, found)
    modifies visited
    ensures forall i :: 0 <= i < visited.Length ==> (visited[i] <==> i in seen')
    ensures Growing(pixels, width, seed, stack', seen', order', found')
    ensures seen <= seen' && (seen' == seen ==> |stack'| < |stack|) && (seen' != seen ==> |seen| < |seen'|)
  {
    var n := |pixels|;
    var cur := stack[|stack| - 1];
    stack' := stack[..|stack| - 1];
    assert stack == stack' + [cur];
    seen', order', found' := seen, order, found;
    // The source reads the pixel buffer at cur unguarded; outside it the model skips cur.
    if 0 <= cur < n {
      var curpt := pixels[cur];
      if curpt != 0.0 {
        if visited[cur] {
          GrowSkip(pixels, width, seed, stack', cur, seen, order, found);
          return;
        }
        GrowNew(pixels, width, seed, stack', cur, seen, order, found);
        found' := found + [curpt];
        order' := order + [cur];
        stack' := stack' + Neighbours(cur, width);
      } else {
        GrowZero(pixels, width, seed, stack', cur, seen, order, found);
      }
      visited[cur] := true;
      seen' := seen + {cur};
      if cur in seen {
        assert seen' == seen;
      } else {
        assert seen' == seen + {cur} && cur !in seen;
      }
    } else {
      GrowSkip(pixels, width, seed, stack', cur, seen, order, found);
    }
  }

  /**
   * The state of regionGrow's loop: the stack, the visited pixels (seen) and the nonzero ones
   * reported so far (order, with their values after the seed value in found).
   */
  ghost predicate Growing(pixels: seq<real>, width: int, seed: int, stack: seq<int>, seen: set<int>,
                          order: seq<int>, found: seq<real>)
  {
    Reported(pixels, seed, seen, order, found)
    && Frontier(pixels, width, stack, seen, order)
    && Traced(width, seed, stack, order)
    && (pixels[seed] != 0.0 && order == [] ==> stack == [seed] && seen == {})
    && (pixels[seed] != 0.0 && order != [] ==> order[0] == seed)
    && (pixels[seed] == 0.0 ==> order == [] && (stack == [] || stack == [seed]))
  }

  /**
   * The visited pixels are in the buffer; the reported ones are distinct, nonzero and visited,
   * their values follow the seed value in found, and every visited nonzero pixel is reported.
   */
  ghost predicate Reported(pixels: seq<real>, seed: int, seen: set<int>, order: seq<int>, found: seq<real>)
  {
    0 <= seed < |pixels|
    && (forall i :: i in seen ==> 0 <= i < |pixels|)
    && |found| == |order| + 1 && found[0] == pixels[seed]
    && (forall k :: 0 <= k < |order| ==> 0 <= order[k] < |pixels| && pixels[order[k]] != 0.0)
    && (forall k :: 0 <= k < |order| ==> found[k + 1] == pixels[order[k]] && order[k] in seen)
    && (forall i :: 0 <= i < |pixels| && i in seen && pixels[i] != 0.0 ==> i in order)
    && (forall a, b :: 0 <= a < b < |order| ==> order[a] != order[b])
  }

  /** Reporting a new nonzero pixel keeps Reported. */
  lemma ReportedNew(pixels: seq<real>, seed: int, cur: int, seen: set<int>, order: seq<int>, found: seq<real>)
    requires Reported(pixels, seed, seen, order, found)
    requires 0 <= cur < |pixels| && pixels[cur] != 0.0 && cur !in seen
    ensures Reported(pixels, seed, seen + {cur}, order + [cur], found + [pixels[cur]])
  {
    assert cur !in order;
  }

  /** Every nonzero neighbour of a reported pixel is visited or still on the stack. */
  ghost predicate Frontier(pixels: seq<real>, width: int, stack: seq<int>, seen: set<int>, order: seq<int>)
  {
    forall k, d :: (0 <= k < |order| && 0 <= d < 4 && 0 <= Neighbours(order[k], width)[d] < |pixels|
                    && pixels[Neighbours(order[k], width)[d]] != 0.0) ==>
      Neighbours(order[k], width)[d] in seen || Neighbours(order[k], width)[d] in stack
  }

  /** Reporting the popped pixel cur and pushing its neighbours keeps the frontier. */
  lemma FrontierNew(pixels: seq<real>, width: int, stack: seq<int>, cur: int, seen: set<int>, order: seq<int>)
    requires Frontier(pixels, width, stack + [cur], seen, order)
    ensures Frontier(pixels, width, stack + Neighbours(cur, width), seen + {cur}, order + [cur])
  {
    var order', seen', stack' := order + [cur], seen + {cur}, stack + Neighbours(cur, width);
    forall k, d | (0 <= k < |order'| && 0 <= d < 4 && 0 <= Neighbours(order'[k], width)[d] < |pixels|
                   && pixels[Neighbours(order'[k], width)[d]] != 0.0)
      ensures Neighbours(order'[k], width)[d] in seen' || Neighbours(order'[k], width)[d] in stack'
    {
      var nb := Neighbours(order'[k], width)[d];
      if k == |order| {
        assert nb == stack'[|stack| + d];
      } else {
        assert order'[k] == order[k];
        assert nb in seen || nb in stack + [cur];
        if nb in stack {
          var j :| 0 <= j < |stack| && stack[j] == nb;
          assert stack'[j] == nb;
        }
      }
    }
  }

  /** The reported pixels are rooted and every stacked pixel is reached. */
  ghost predicate Traced(width: int, seed: int, stack: seq<int>, order: seq<int>)
  {
    Rooted(width, order) && forall i :: 0 <= i < |stack| ==> Reached(width, seed, order, stack[i])
  }

  /** A stacked pixel is the seed or a neighbour of a reported pixel. */
  ghost predicate Reached(width: int, seed: int, order: seq<int>, p: int)
  {
    p == seed || Adjoins(width, order, p)
  }

  lemma TracedPop(width: int, seed: int, stack: seq<int>, cur: int, order: seq<int>)
    requires Traced(width, seed, stack + [cur], order)
    ensures Traced(width, seed, stack, order)
  {
    ReachedPop(width, seed, order, stack, cur);
  }

  /** Reporting the popped pixel cur, which is not the seed once the seed is reported, keeps the trace. */
  lemma TracedNew(width: int, seed: int, stack: seq<int>, cur: int, order: seq<int>)
    requires Traced(width, seed, stack + [cur], order)
    requires order != [] ==> cur != seed
    ensures Traced(width, seed, stack + Neighbours(cur, width), order + [cur])
  {
    ReachedPop(width, seed, order, stack, cur);
    RootedAppend(width, order, cur);
    ReachedPush(width, seed, order, stack, cur);
  }

  /** Popping the stack keeps every remaining entry reached. */
  lemma ReachedPop(width: int, seed: int, order: seq<int>, stack: seq<int>, cur: int)
    requires forall i :: 0 <= i < |stack + [cur]| ==> Reached(width, seed, order, (stack + [cur])[i])
    ensures forall i :: 0 <= i < |stack| ==> Reached(width, seed, order, stack[i])
    ensures Reached(width, seed, order, cur)
  {
    assert cur == (stack + [cur])[|stack|];
    forall i | 0 <= i < |stack|
      ensures Reached(width, seed, order, stack[i])
    {
      assert stack[i] == (stack + [cur])[i];
    }
  }

  /** Reporting a neighbour of a reported pixel, or a first pixel, keeps the sequence rooted. */
  lemma RootedAppend(width: int, order: seq<int>, cur: int)
    requires Rooted(width, order)
    requires order == [] || Adjoins(width, order, cur)
    ensures Rooted(width, order + [cur])
  {
    var order' := order + [cur];
    forall k | 0 < k < |order'|
      ensures Adjoins(width, order'[..k], order'[k])
    {
      if k < |order| {
        assert order'[..k] == order[..k] && order'[k] == order[k];
      } else {
        assert order'[..k] == order && order'[k] == cur;
      }
    }
  }

  /** After reporting cur, the old stack entries and cur's four neighbours are all reached. */
  lemma ReachedPush(width: int, seed: int, order: seq<int>, stack: seq<int>, cur: int)
    requires forall i :: 0 <= i < |stack| ==> Reached(width, seed, order, stack[i])
    ensures forall i :: 0 <= i < |stack + Neighbours(cur, width)| ==>
              Reached(width, seed, order + [cur], (stack + Neighbours(cur, width))[i])
  {
    var order', stack' := order + [cur], stack + Neighbours(cur, width);
    forall i | 0 <= i < |stack'|
      ensures Reached(width, seed, order', stack'[i])
    {
      if i < |stack| {
        assert stack'[i] == stack[i];
        if stack[i] != seed {
          var j :| 0 <= j < |order| && stack[i] in Neighbours(order[j], width);
          assert order'[j] == order[j];
          assert Adjoins(width, order', stack[i]);
        }
      } else {
        assert order'[|order|] == cur;
        assert stack'[i] == Neighbours(cur, width)[i - |stack|];
        assert Adjoins(width, order', stack'[i]);
      }
    }
  }

  lemma LastOfSingleton(s: seq<int>, x: int, y: int)
    ensures s + [x] == [y] <==> s == [] && x == y
  {
    if s + [x] == [y] {
      assert |s| == 0;
      assert (s + [x])[0] == x;
    }
  }

  /** With the stack empty, the reported pixels form a closed region around the seed. */
  lemma GrowDone(pixels: seq<real>, width: int, seed: int, seen: set<int>, order: seq<int>, found: seq<real>)
    requires Growing(pixels, width, seed, [], seen, order, found)
    ensures |found| == |order| + 1 && found[0] == pixels[seed]
    ensures ClosedRegion(pixels, width, order) && Rooted(width, order)
    ensures forall k :: 0 <= k < |order| ==> found[k + 1] == pixels[order[k]]
    ensures pixels[seed] != 0.0 ==> order != [] && order[0] == seed
    ensures pixels[seed] != 0.0 ==> forall i :: i in order <==> Connected(pixels, width, seed, i)
    ensures pixels[seed] == 0.0 ==> order == []
  {
    if order != [] {
      RegionIsComponent(pixels, width, order);
    }
  }

  lemma GrowStart(pixels: seq<real>, width: int, seed: int)
    requires 0 <= seed < |pixels|
    ensures Growing(pixels, width, seed, [seed], {}, [], [pixels[seed]])
  {
  }

  /** Popping a pixel outside the buffer, or one already visited, changes nothing else. */
  lemma GrowSkip(pixels: seq<real>, width: int, seed: int, stack: seq<int>, cur: int, seen: set<int>,
                 order: seq<int>, found: seq<real>)
    requires Growing(pixels, width, seed, stack + [cur], seen, order, found)
    requires !(0 <= cur < |pixels|) || cur in seen
    ensures Growing(pixels, width, seed, stack, seen, order, found)
  {
    LastOfSingleton(stack, cur, seed);
    TracedPop(width, seed, stack, cur, order);
    forall k, d | (0 <= k < |order| && 0 <= d < 4 && 0 <= Neighbours(order[k], width)[d] < |pixels|
                   && pixels[Neighbours(order[k], width)[d]] != 0.0)
      ensures Neighbours(order[k], width)[d] in seen || Neighbours(order[k], width)[d] in stack
    {
      var nb := Neighbours(order[k], width)[d];
      assert nb in seen || nb in stack + [cur];
    }
  }

  /** Popping a zero pixel marks it visited. */
  lemma GrowZero(pixels: seq<real>, width: int, seed: int, stack: seq<int>, cur: int, seen: set<int>,
                 order: seq<int>, found: seq<real>)
    requires Growing(pixels, width, seed, stack + [cur], seen, order, found)
    requires 0 <= cur < |pixels| && pixels[cur] == 0.0
    ensures Growing(pixels, width, seed, stack, seen + {cur}, order, found)
  {
    LastOfSingleton(stack, cur, seed);
    TracedPop(width, seed, stack, cur, order);
    forall k, d | (0 <= k < |order| && 0 <= d < 4 && 0 <= Neighbours(order[k], width)[d] < |pixels|
                   && pixels[Neighbours(order[k], width)[d]] != 0.0)
      ensures Neighbours(order[k], width)[d] in seen + {cur} || Neighbours(order[k], width)[d] in stack
    {
      var nb := Neighbours(order[k], width)[d];
      assert nb in seen || nb in stack + [cur];
    }
  }

  /** Popping an unvisited nonzero pixel reports it, marks it and pushes its four neighbours. */
  lemma GrowNew(pixels: seq<real>, width: int, seed: int, stack: seq<int>, cur: int, seen: set<int>,
                order: seq<int>, found: seq<real>)
    requires Growing(pixels, width, seed, stack + [cur], seen, order, found)
    requires 0 <= cur < |pixels| && pixels[cur] != 0.0 && cur !in seen
    ensures Growing(pixels, width, seed, stack + Neighbours(cur, width), seen + {cur}, order + [cur],
                    found + [pixels[cur]])
  {
    ReportedNew(pixels, seed, cur, seen, order, found);
    LastOfSingleton(stack, cur, seed);
    assert order != [] ==> order[0] in seen;
    TracedNew(width, seed, stack, cur, order);
    FrontierNew(pixels, width, stack, cur, seen, order);
  }

  lemma DivideBack(u: real, s: real)
    requires s != 0.0
    ensures (u * s) / s == u
  {
  }

  /** The projection of t + a x + b y on axis c, relative to t, when c.x == cx and c.y == cy. */
  lemma ProjectOnAxis(c: Vec3, t: Vec3, x: Vec3, y: Vec3, a: real, b: real, cx: real, cy: real)
    requires InnerProduct(c, x) == cx && InnerProduct(c, y) == cy
    ensures InnerProduct(c, Add(t, Add(Scale(a, x), Scale(b, y)))) - InnerProduct(c, t) == a * cx + b * cy
  {
    Bilinear(c, t, x, y, a, b);
  }

  /** innerProduct(c, t + a x + b y) splits into its three parts. */
  lemma Bilinear(c: Vec3, t: Vec3, x: Vec3, y: Vec3, a: real, b: real)
    ensures InnerProduct(c, Add(t, Add(Scale(a, x), Scale(b, y))))
         == InnerProduct(c, t) + a * InnerProduct(c, x) + b * InnerProduct(c, y)
  {
  }
}
