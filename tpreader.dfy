// The .tp pose reader (lib/tpreader.hpp, lib/tpreader.cpp). The file is a stream of numbers;
// every complete group of twelve fills the top three rows of a 4x4 pose matrix row by row, the
// bottom row is forced to (0, 0, 0, 1), and the matrix is appended to the reader's list. The
// file stream is replaced by the sequence of numbers it yields.
module TpReading {
  import opened Matrices

  /** The pose matrix made of one group of twelve numbers, read row by row. */
  function GroupMatrix(g: seq<real>): (m: Matrix4)
    requires |g| == 12
    ensures forall k :: 0 <= k < 12 ==> m[k / 4][k % 4] == g[k]
    ensures m[3] == [0.0, 0.0, 0.0, 1.0]
  {
    [g[0..4], g[4..8], g[8..12], [0.0, 0.0, 0.0, 1.0]]
  }

  /** The matrices a stream of numbers yields: one per complete group, in stream order. */
  function GroupMatrices(nums: seq<real>): seq<Matrix4>
  {
    if |nums| < 12 then []
    else
      var b := (|nums| / 12 - 1) * 12;
      GroupMatrices(nums[..b]) + [GroupMatrix(nums[b..b + 12])]
  }

  /**
   * One matrix per complete group, the trailing incomplete group dropped; matrix g holds
   * numbers 12g .. 12g+11 in row-major order above the bottom row (0, 0, 0, 1).
   */
  lemma {:induction false} GroupMatricesCells(nums: seq<real>)
    ensures |GroupMatrices(nums)| == |nums| / 12
    ensures forall g, k :: 0 <= g < |nums| / 12 && 0 <= k < 12 ==>
              GroupMatrices(nums)[g][k / 4][k % 4] == nums[12 * g + k]
    ensures forall g :: 0 <= g < |nums| / 12 ==> GroupMatrices(nums)[g][3] == [0.0, 0.0, 0.0, 1.0]
  {
    if |nums| >= 12 {
      var b := (|nums| / 12 - 1) * 12;
      var init := nums[..b];
      GroupMatricesCells(init);
      assert |init| / 12 == |nums| / 12 - 1;
      forall g, k | 0 <= g < |nums| / 12 && 0 <= k < 12
        ensures GroupMatrices(nums)[g][k / 4][k % 4] == nums[12 * g + k]
      {
        if g < |init| / 12 {
          assert 12 * g + k < b;
          assert GroupMatrices(nums)[g] == GroupMatrices(init)[g];
        } else {
          assert g == |nums| / 12 - 1;
          assert GroupMatrices(nums)[g] == GroupMatrix(nums[b..b + 12]);
        }
      }
    }
  }

  /** Dropping the trailing incomplete group does not change the result. */
  lemma {:induction false} DropIncomplete(nums: seq<real>)
    ensures GroupMatrices(nums[..|nums| - |nums| % 12]) == GroupMatrices(nums)
  {
    var q := |nums| / 12;
    var p := nums[..|nums| - |nums| % 12];
    assert |p| == 12 * q;
    assert |p| / 12 == q;
    if q >= 1 {
      var b := (q - 1) * 12;
      assert p[..b] == nums[..b];
      assert p[b..b + 12] == nums[b..b + 12];
    }
  }

  /**
   * How the stream read() extracts from ends. EndOfData: the last number runs into the end of
   * the file (or the file did not open), so the stream is no longer good and no further
   * extraction happens. TrailingSpace: whitespace follows the last number (a final newline,
   * or an empty file); one more extraction skips it, meets the end of the file in its sentry
   * and stores nothing. BadToken: a token that is not a number follows; the extraction fails
   * on it and stores 0, as a failed numeric `operator>>` does since C++11.
   */
  datatype StreamEnd = EndOfData | TrailingSpace | BadToken

  /**
   * What cell k of the scratch matrix holds before the extraction into it: the number read into
   * it for the previous group, or, in the first group, the scratch matrix's initial contents
   * (Eigen::Matrix4d() leaves them uninitialized, so they are a parameter).
   */
  function Leftover(vals: seq<real>, scratch: Matrix4, base: int, k: int): real
    requires 0 <= k < 12 && base + k < |vals| + 12
  {
    if base >= 12 && base - 12 + k >= 0 then vals[base - 12 + k] else scratch[k / 4][k % 4]
  }

  /**
   * The values the scratch matrix cells receive, in order: the numbers extracted, then for a
   * failed last extraction the value its cell ends up with, 0 after a bad token, the leftover
   * value of the cell when nothing is stored.
   */
  function Extracted(numbers: seq<real>, end: StreamEnd, scratch: Matrix4): (r: seq<real>)
    ensures end == EndOfData ==> r == numbers
    ensures end != EndOfData ==> |r| == |numbers| + 1 && r[..|numbers|] == numbers
    ensures end == BadToken ==> r[|numbers|] == 0.0
    ensures end == TrailingSpace && |numbers| >= 12 ==> r[|numbers|] == numbers[|numbers| - 12]
    ensures end == TrailingSpace && |numbers| < 12 ==> r[|numbers|] == scratch[|numbers| / 4][|numbers| % 4]
  {
    match end
    case EndOfData => numbers
    case BadToken => numbers + [0.0]
    case TrailingSpace =>
      var c := |numbers| % 12;
      numbers + [Leftover(numbers, scratch, |numbers| - c, c)]
  }

  /**
   * As written: a stream of 12g + 11 numbers whose read ends on a failed extraction yields
   * g + 1 matrices where its complete groups give g. The extra matrix is completed by the
   * failed read: its cell (2, 3) holds 0 after a bad token, and after trailing whitespace the
   * value left there by the previous group's last number (numbers[12g - 1]), or the scratch
   * matrix's initial value when g = 0.
   */
  lemma {:induction false} FailedReadCompletesGroup(numbers: seq<real>, end: StreamEnd, scratch: Matrix4)
    requires |numbers| % 12 == 11 && end != EndOfData
    ensures |GroupMatrices(numbers)| == |numbers| / 12
    ensures |GroupMatrices(Extracted(numbers, end, scratch))| == |numbers| / 12 + 1
    ensures GroupMatrices(Extracted(numbers, end, scratch))[|numbers| / 12][2][3]
         == if end == BadToken then 0.0
            else if |numbers| >= 12 then numbers[|numbers| - 12]
            else scratch[2][3]
  {
    var e := Extracted(numbers, end, scratch);
    GroupMatricesCells(numbers);
    GroupMatricesCells(e);
    assert |e| / 12 == |numbers| / 12 + 1;
    assert 12 * (|numbers| / 12) + 11 == |numbers|;
    assert 11 / 4 == 2 && 11 % 4 == 3;
  }

  /** At any other length the failed extraction only starts an incomplete group and adds nothing. */
  lemma {:induction false} FailedReadHarmless(numbers: seq<real>, end: StreamEnd, scratch: Matrix4)
    requires |numbers| % 12 != 11
    ensures GroupMatrices(Extracted(numbers, end, scratch)) == GroupMatrices(numbers)
  {
    var e := Extracted(numbers, end, scratch);
    if end != EndOfData {
      DropIncomplete(numbers);
      DropIncomplete(e);
      var len := |numbers| - |numbers| % 12;
      CompleteGroups(|e|, |numbers| / 12, |numbers| % 12 + 1);
      assert e[..len] == numbers[..len];
    }
  }

  /** Two matrices with the same cells are the same matrix. */
  lemma SameCells(a: Matrix4, b: Matrix4)
    requires forall i, j :: 0 <= i < 4 && 0 <= j < 4 ==> a[i][j] == b[i][j]
    ensures a == b
  {
    assert forall i :: 0 <= i < 4 ==> a[i] == b[i];
  }

  class TpReader {
    /** m_filename: only the stream it names matters to the model. */
    var filename: string
    /** m_matrices. */
    var matrices: seq<Matrix4>

    /** TpReader(filename): no matrices yet. */
    constructor (name: string)
      ensures filename == name && matrices == []
    {
      filename := name;
      matrices := [];
    }

    /** setFilename. */
    method SetFilename(name: string)
      modifies this
      ensures filename == name && matrices == old(matrices)
    {
      filename := name;
    }

    /**
     * read(). The stream is the numbers it yields and how it ends; a failed last extraction
     * still advances the cell and may complete a matrix. The scratch matrix starts as
     * `scratch`. Matrices from an earlier read stay in front.
     */
    method Read(numbers: seq<real>, end: StreamEnd, scratch: Matrix4)
      modifies this
      ensures filename == old(filename)
      ensures matrices == old(matrices) + GroupMatrices(Extracted(numbers, end, scratch))
    {
      var vals := Extracted(numbers, end, scratch);
      var stored := if end == TrailingSpace then |numbers| else |vals|;
      ExtractedKeeps(numbers, end, scratch);
      ReadValues(vals, stored, scratch);
    }

    /**
     * The loop of read(): while the stream is good, extract into cell (i, j), then advance j,
     * and after twelve cells append the matrix. `vals` are the values the cells end up with,
     * one per extraction; the extractions from `stored` on store nothing.
     */
    method ReadValues(vals: seq<real>, stored: int, scratch: Matrix4)
      requires Unstored(vals, scratch, stored)
      modifies this
      ensures filename == old(filename)
      ensures matrices == old(matrices) + GroupMatrices(vals)
    {
      var tmp := scratch;
      var i := 0;
      var j := 0;
      var n := 0;
      var base := 0;
      ghost var groups := 0;
      ghost var c := 0;
      while n < |vals|
        invariant 0 <= groups && base == 12 * groups
        invariant 0 <= i < 3 && 0 <= j < 4 && c == 4 * i + j && n == base + c && n <= |vals|
        invariant matrices == old(matrices) + GroupMatrices(vals[..base])
        invariant Filled(tmp, vals, base, c) && Pending(tmp, vals, scratch, stored, base, c)
        invariant filename == old(filename)
      {
        tmp := Extract(tmp, i, j, vals, scratch, stored, base, groups, c);
        c := c + 1;
        j := j + 1;
        n := n + 1;
        if j == 4 {
          i := i + 1;
          j := 0;
          if i == 3 {
            AppendGroup(vals, groups, tmp);
            GroupPending(tmp, vals, scratch, stored, base);
            tmp := StoreMatrix(tmp);
            i := 0;
            j := 0;
            base := base + 12;
            groups := groups + 1;
            c := 0;
          }
        }
      }
      CompleteGroups(|vals|, groups, c);
      DropIncomplete(vals);
    }

    /**
     * read() as evidently intended: the loop tests each extraction before using it
     * (`while (is >> x)`), so a failed read stores nothing and only complete groups of
     * numbers become matrices.
     */
    method ReadChecked(numbers: seq<real>)
      modifies this
      ensures filename == old(filename)
      ensures matrices == old(matrices) + GroupMatrices(numbers)
      ensures |matrices| == |old(matrices)| + |numbers| / 12
    {
      Read(numbers, EndOfData, Zero());
      GroupMatricesCells(numbers);
    }

    /** The end of a group: the bottom row is written and the matrix pushed onto m_matrices. */
    method StoreMatrix(tmp: Matrix4) returns (m: Matrix4)
      modifies this
      ensures m == WithBottomRow(tmp)
      ensures filename == old(filename) && matrices == old(matrices) + [m]
    {
      m := WithBottomRow(tmp);
      matrices := matrices + [m];
    }
  }

  /** A stream of groups complete groups and c < 12 extra numbers ends its last group at 12 groups. */
  lemma CompleteGroups(len: int, groups: int, c: int)
    requires 0 <= c < 12 && len == 12 * groups + c
    ensures 12 * groups == len - len % 12
  {
  }

  /** The bottom row read() writes once twelve numbers are in: 0, 0, 0, 1. */
  function WithBottomRow(tmp: Matrix4): (r: Matrix4)
    ensures forall i, j :: 0 <= i < 3 && 0 <= j < 4 ==> r[i][j] == tmp[i][j]
    ensures r[3][0] == 0.0 && r[3][1] == 0.0 && r[3][2] == 0.0 && r[3][3] == 1.0
  {
    Set(Set(Set(Set(tmp, 3, 0, 0.0), 3, 1, 0.0), 3, 2, 0.0), 3, 3, 1.0)
  }

  /** The first c cells of the scratch matrix hold the numbers from base on, row by row. */
  ghost predicate Filled(tmp: Matrix4, numbers: seq<real>, base: int, c: int)
  {
    0 <= base && 0 <= c <= 12 && base + c <= |numbers|
    && forall k :: 0 <= k < c ==> tmp[k / 4][k % 4] == numbers[base + k]
  }

  /** The extraction into cell (i, j) of the group from base stores the next number. */
  function FillCell(tmp: Matrix4, i: int, j: int, numbers: seq<real>, base: int): (r: Matrix4)
    requires 0 <= i < 3 && 0 <= j < 4 && base + 4 * i + j < |numbers| && Filled(tmp, numbers, base, 4 * i + j)
    ensures Filled(r, numbers, base, 4 * i + j + 1)
  {
    var r := Set(tmp, i, j, numbers[base + 4 * i + j]);
    assert forall k :: 0 <= k < 4 * i + j ==> k / 4 != i || k % 4 != j;
    r
  }

  /** A completed scratch matrix is the matrix of the group it was filled from. */
  lemma AppendGroup(numbers: seq<real>, groups: nat, tmp: Matrix4)
    requires Filled(tmp, numbers, 12 * groups, 12)
    ensures GroupMatrices(numbers[..12 * groups + 12]) == GroupMatrices(numbers[..12 * groups]) + [WithBottomRow(tmp)]
  {
    var base := 12 * groups;
    assert (base + 12) / 12 - 1 == groups;
    var g := numbers[base..base + 12];
    var m := WithBottomRow(tmp);
    forall i, j | 0 <= i < 4 && 0 <= j < 4
      ensures m[i][j] == GroupMatrix(g)[i][j]
    {
      if i < 3 {
        var k := 4 * i + j;
        assert k / 4 == i && k % 4 == j;
      }
    }
    SameCells(m, GroupMatrix(g));
    var p := numbers[..base + 12];
    assert p[..base] == numbers[..base];
    assert p[base..base + 12] == g;
  }

  /**
   * The extractions from `stored` on store nothing: there is at most one, the last, and its
   * value is the one already in its cell.
   */
  ghost predicate Unstored(vals: seq<real>, scratch: Matrix4, stored: int)
  {
    0 <= stored <= |vals| <= stored + 1
    && (stored < |vals| ==> vals[stored] == Leftover(vals, scratch, stored - stored % 12, stored % 12))
  }

  /**
   * Extracted gives the failed extraction after trailing whitespace the value already in its
   * cell.
   */
  lemma ExtractedKeeps(numbers: seq<real>, end: StreamEnd, scratch: Matrix4)
    ensures Unstored(Extracted(numbers, end, scratch), scratch,
                     if end == TrailingSpace then |numbers| else |Extracted(numbers, end, scratch)|)
  {
  }

  /**
   * While the group from base has not reached it, the cell of the extraction that stores nothing
   * still holds its leftover value.
   */
  ghost predicate Pending(tmp: Matrix4, vals: seq<real>, scratch: Matrix4, stored: int, base: int, c: int)
  {
    stored < |vals| && 0 <= c && base + c <= stored < base + 12 && 0 <= base ==>
      tmp[(stored - base) / 4][(stored - base) % 4] == Leftover(vals, scratch, base, stored - base)
  }

  /**
   * `is >> tmp(i, j)`, the extraction of vals[base + c]: it stores the value, unless the sentry
   * meets the end of the file (from `stored` on), when the cell keeps what it holds.
   */
  method Extract(tmp: Matrix4, i: int, j: int, vals: seq<real>, scratch: Matrix4, stored: int, base: int,
                 ghost groups: nat, ghost c: int) returns (r: Matrix4)
    requires Unstored(vals, scratch, stored)
    requires 0 <= i < 3 && 0 <= j < 4 && c == 4 * i + j && base == 12 * groups && base + c < |vals|
    requires Filled(tmp, vals, base, c) && Pending(tmp, vals, scratch, stored, base, c)
    ensures r == if base + c < stored then Set(tmp, i, j, vals[base + c]) else tmp
    ensures Filled(r, vals, base, c + 1) && Pending(r, vals, scratch, stored, base, c + 1)
  {
    if base + 4 * i + j < stored {
      FillPending(tmp, i, j, vals, scratch, stored, base, c);
      r := FillCell(tmp, i, j, vals, base);
    } else {
      KeepCell(tmp, i, j, vals, scratch, stored, groups, base, c);
      r := tmp;
    }
  }

  /** Storing into a cell before the pending one leaves the pending one alone. */
  lemma FillPending(tmp: Matrix4, i: int, j: int, vals: seq<real>, scratch: Matrix4, stored: int, base: int, c: int)
    requires 0 <= i < 3 && 0 <= j < 4 && c == 4 * i + j && base + c < stored
    requires base + c < |vals| && Filled(tmp, vals, base, c)
    requires Pending(tmp, vals, scratch, stored, base, c)
    ensures Filled(FillCell(tmp, i, j, vals, base), vals, base, c + 1)
    ensures Pending(FillCell(tmp, i, j, vals, base), vals, scratch, stored, base, c + 1)
  {
    var k := stored - base;
    if stored < |vals| && k < 12 {
      assert k / 4 != i || k % 4 != j;
    }
  }

  /**
   * The extraction that stores nothing finds in its cell the value it is taken to have: the
   * cell is then filled up to and including it.
   */
  lemma KeepCell(tmp: Matrix4, i: int, j: int, vals: seq<real>, scratch: Matrix4, stored: int,
                 groups: nat, base: int, c: int)
    requires Unstored(vals, scratch, stored)
    requires 0 <= i < 3 && 0 <= j < 4 && c == 4 * i + j && base == 12 * groups && stored <= base + c < |vals|
    requires Filled(tmp, vals, base, c) && Pending(tmp, vals, scratch, stored, base, c)
    ensures Filled(tmp, vals, base, c + 1) && Pending(tmp, vals, scratch, stored, base, c + 1)
  {
    assert stored == base + c;
    assert stored % 12 == c && stored - stored % 12 == base;
    assert c / 4 == i && c % 4 == j;
  }

  /** Once a group is complete, the pending cell of the next group holds this group's number. */
  lemma GroupPending(tmp: Matrix4, vals: seq<real>, scratch: Matrix4, stored: int, base: int)
    requires Filled(tmp, vals, base, 12)
    ensures Pending(WithBottomRow(tmp), vals, scratch, stored, base + 12, 0)
  {
    var k := stored - base - 12;
    if stored < |vals| && 0 <= k < 12 {
      assert k / 4 < 3;
    }
  }
}
