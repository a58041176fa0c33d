/** Statistics of a binary mask: the area and the bounding box that the
    formatter obtains from pycocotools (mask.area, mask.toBbox). The
    run-length encoding itself is not modelled; both statistics are given
    as functions of the raster. */
module MaskGeometry {

  /** A binary mask: one sequence of pixels per row, `true` where the
      object is. */
  type Mask = seq<seq<bool>>

  /** An axis-aligned box: top-left corner (x = column, y = row), width, height. */
  datatype Box = Box(x: int, y: int, width: int, height: int)

  /** Pixel (r, c) exists and belongs to the object. */
  predicate Fg(m: Mask, r: int, c: int)
  {
    0 <= r < |m| && 0 <= c < |m[r]| && m[r][c]
  }

  ghost predicate AnyFg(m: Mask)
  {
    exists r, c :: Fg(m, r, c)
  }

  ghost predicate RowHas(m: Mask, r: int)
  {
    exists c :: Fg(m, r, c)
  }

  ghost predicate ColHas(m: Mask, c: int)
  {
    exists r :: Fg(m, r, c)
  }

  /** Number of set pixels in one row. */
  function CountRow(row: seq<bool>): nat
  {
    if row == [] then 0
    else CountRow(row[..|row| - 1]) + (if row[|row| - 1] then 1 else 0)
  }

  /** The area of a mask: the number of its foreground pixels. */
  function Area(m: Mask): nat
  {
    if m == [] then 0 else Area(m[..|m| - 1]) + CountRow(m[|m| - 1])
  }

  /** The length of the longest row. */
  function MaxWidth(m: Mask): (w: nat)
    ensures forall r :: 0 <= r < |m| ==> |m[r]| <= w
  {
    if m == [] then 0
    else
      var w := MaxWidth(m[..|m| - 1]);
      if |m[|m| - 1]| < w then w else |m[|m| - 1]|
  }

  /** Projection of the mask on its rows: which rows hold a foreground pixel. */
  function RowProfile(m: Mask): (p: seq<bool>)
    ensures |p| == |m|
    ensures forall r :: 0 <= r < |m| ==> (p[r] <==> RowHas(m, r))
  {
    seq(|m|, r requires 0 <= r < |m| => exists c | 0 <= c < |m[r]| :: Fg(m, r, c))
  }

  /** Projection of the mask on its columns: which columns hold a foreground pixel. */
  function ColProfile(m: Mask): (p: seq<bool>)
    ensures forall r, c :: Fg(m, r, c) ==> c < |p|
    ensures forall c :: 0 <= c < |p| ==> (p[c] <==> ColHas(m, c))
  {
    var w := MaxWidth(m);
    seq(w, c requires 0 <= c < w => exists r | 0 <= r < |m| :: Fg(m, r, c))
  }

  /** Index of the first `true`. */
  function FirstTrue(p: seq<bool>): (i: nat)
    requires true in p
    ensures i < |p| && p[i]
    ensures forall j :: 0 <= j < i ==> !p[j]
  {
    if p[0] then 0 else 1 + FirstTrue(p[1..])
  }

  /** Index of the last `true`. */
  function LastTrue(p: seq<bool>): (i: nat)
    requires true in p
    ensures i < |p| && p[i]
    ensures forall j :: i < j < |p| ==> !p[j]
  {
    if p[|p| - 1] then |p| - 1 else LastTrue(p[..|p| - 1])
  }

  /** The tight bounding box of the foreground, (0, 0, 0, 0) for an empty mask. */
  function BBox(m: Mask): (b: Box)
    ensures b.x >= 0 && b.y >= 0 && b.width >= 0 && b.height >= 0
  {
    var rows := RowProfile(m);
    var cols := ColProfile(m);
    if true in rows && true in cols then
      var x0, x1 := FirstTrue(cols), LastTrue(cols);
      var y0, y1 := FirstTrue(rows), LastTrue(rows);
      Box(x0, y0, x1 - x0 + 1, y1 - y0 + 1)
    else
      Box(0, 0, 0, 0)
  }

  /** The box holds every foreground pixel and touches the foreground on all
      four sides; an empty mask has the all-zero box. */
  lemma BBoxTight(m: Mask)
    ensures AnyFg(m) ==>
      var b := BBox(m);
      && b.width > 0 && b.height > 0
      && (forall r, c :: Fg(m, r, c) ==> b.x <= c < b.x + b.width && b.y <= r < b.y + b.height)
      && ColHas(m, b.x) && ColHas(m, b.x + b.width - 1)
      && RowHas(m, b.y) && RowHas(m, b.y + b.height - 1)
    ensures !AnyFg(m) ==> BBox(m) == Box(0, 0, 0, 0)
  {
    if AnyFg(m) {
      BBoxContains(m);
      BBoxTouches(m);
    } else {
      BBoxEmpty(m);
    }
  }

  lemma BBoxContains(m: Mask)
    requires AnyFg(m)
    ensures var b := BBox(m);
      && b.width > 0 && b.height > 0
      && forall r, c :: Fg(m, r, c) ==> b.x <= c < b.x + b.width && b.y <= r < b.y + b.height
  {
    var rows, cols := RowProfile(m), ColProfile(m);
    var r, c :| Fg(m, r, c);
    assert rows[r] && cols[c];
    forall r', c' | Fg(m, r', c')
      ensures FirstTrue(cols) <= c' <= LastTrue(cols) && FirstTrue(rows) <= r' <= LastTrue(rows)
    {
      assert rows[r'] && cols[c'];
    }
  }

  lemma BBoxTouches(m: Mask)
    requires AnyFg(m)
    ensures var b := BBox(m);
      && ColHas(m, b.x) && ColHas(m, b.x + b.width - 1)
      && RowHas(m, b.y) && RowHas(m, b.y + b.height - 1)
  {
    var rows, cols := RowProfile(m), ColProfile(m);
    var r, c :| Fg(m, r, c);
    assert rows[r] && cols[c];
    var x0, x1, y0, y1 := FirstTrue(cols), LastTrue(cols), FirstTrue(rows), LastTrue(rows);
    assert BBox(m) == Box(x0, y0, x1 - x0 + 1, y1 - y0 + 1);
    assert cols[x0] && cols[x1] && rows[y0] && rows[y1];
  }

  lemma BBoxEmpty(m: Mask)
    requires !AnyFg(m)
    ensures BBox(m) == Box(0, 0, 0, 0)
  {
    var rows := RowProfile(m);
    assert forall r :: 0 <= r < |rows| ==> !rows[r];
  }

  lemma {:induction false} CountRowZero(row: seq<bool>)
    ensures CountRow(row) == 0 <==> forall c :: 0 <= c < |row| ==> !row[c]
  {
    if row != [] {
      CountRowZero(row[..|row| - 1]);
      assert forall c :: 0 <= c < |row| - 1 ==> row[..|row| - 1][c] == row[c];
    }
  }

  /** A mask has area 0 exactly when it has no foreground pixel. */
  lemma {:induction false} AreaZeroIff(m: Mask)
    ensures Area(m) == 0 <==> !AnyFg(m)
  {
    if m != [] {
      var init := m[..|m| - 1];
      AreaZeroIff(init);
      CountRowZero(m[|m| - 1]);
      assert forall r, c :: 0 <= r < |m| - 1 ==> (Fg(init, r, c) <==> Fg(m, r, c));
      if Area(m) == 0 {
        forall r, c ensures !Fg(m, r, c) {
          if r < |m| - 1 {
            assert !Fg(init, r, c);
          }
        }
      } else if CountRow(m[|m| - 1]) > 0 {
        var c :| 0 <= c < |m[|m| - 1]| && m[|m| - 1][c];
        assert Fg(m, |m| - 1, c);
      } else {
        var r, c :| Fg(init, r, c);
        assert Fg(m, r, c);
      }
    }
  }

  /** A row whose set pixels all lie in columns [lo, hi) has at most hi - lo of them. */
  lemma {:induction false} CountRowWithin(row: seq<bool>, lo: int, hi: int)
    requires forall c :: 0 <= c < |row| && row[c] ==> lo <= c < hi
    ensures CountRow(row) <= if hi < lo then 0 else hi - lo
  {
    if row != [] {
      var n := |row|;
      var init := row[..n - 1];
      assert forall c :: 0 <= c < n - 1 ==> init[c] == row[c];
      if row[n - 1] {
        CountRowWithin(init, lo, n - 1);
      } else {
        CountRowWithin(init, lo, hi);
      }
    }
  }

  lemma {:induction false} AreaWithin(m: Mask, x: int, w: nat, y: int, h: nat, k: nat)
    requires k <= |m|
    requires forall r, c :: Fg(m, r, c) ==> x <= c < x + w && y <= r < y + h
    ensures Area(m[..k]) <= w * (if k <= y then 0 else if k <= y + h then k - y else h)
  {
    if k > 0 {
      var pre := m[..k];
      assert pre[..k - 1] == m[..k - 1];
      AreaWithin(m, x, w, y, h, k - 1);
      var row := m[k - 1];
      assert pre[k - 1] == row;
      if y <= k - 1 < y + h {
        assert forall c :: 0 <= c < |row| && row[c] ==> Fg(m, k - 1, c);
        CountRowWithin(row, x, x + w);
        var n := k - 1 - y;
        assert w * (n + 1) == w * n + w;
      } else {
        assert forall c :: 0 <= c < |row| && row[c] ==> Fg(m, k - 1, c);
        CountRowZero(row);
      }
    }
  }

  /** The area never exceeds the area of the bounding box, and it is
      positive exactly when the box is non-empty. */
  lemma AreaFitsBox(m: Mask)
    ensures Area(m) <= BBox(m).width * BBox(m).height
    ensures Area(m) > 0 <==> BBox(m).width > 0
  {
    AreaZeroIff(m);
    if AnyFg(m) {
      var b := BBox(m);
      BBoxContains(m);
      BBoxTouches(m);
      var c :| Fg(m, b.y + b.height - 1, c);
      AreaWithinRect(m, b.x, b.width, b.y, b.height);
    } else {
      BBoxEmpty(m);
    }
  }

  /** A mask whose foreground lies in a w-by-h rectangle ending above its
      last row has at most w * h foreground pixels. */
  lemma AreaWithinRect(m: Mask, x: int, w: nat, y: int, h: nat)
    requires y + h <= |m|
    requires forall r, c :: Fg(m, r, c) ==> x <= c < x + w && y <= r < y + h
    ensures Area(m) <= w * h
  {
    var n := |m|;
    AreaWithin(m, x, w, y, h, n);
    assert m[..n] == m;
    assert (if n <= y then 0 else if n <= y + h then n - y else h) == h;
  }
}
