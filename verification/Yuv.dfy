/**
 Conversion between the NV12 and I420 plane layouts, and point scaling.  Memory is one array of bytes and
 a pointer is an index into it, so planes may be parts of one buffer or of several.
 */
module Yuv {
  import opened Arithmetic
  import opened Sequences

  // ---------- planes in memory ----------

  /** A plane: `rows` rows of `width` bytes, `stride` apart, the first one at `base`. */
  datatype Plane = Plane(base: nat, stride: nat, width: nat, rows: nat)

  /** Where row `y` starts. */
  function Start(l: Plane, y: nat): nat {
    l.base + Times(y, l.stride)
  }

  /** The plane points into a memory of `size` bytes, and every row lies within it. */
  predicate Fits(l: Plane, size: nat) {
    l.base <= size && forall y :: 0 <= y < l.rows ==> Start(l, y) + l.width <= size
  }

  /** A plane to write to also keeps its own rows apart. */
  predicate Writable(l: Plane, size: nat) {
    Fits(l, size) && l.width <= l.stride
  }

  function Row(s: seq<Byte>, l: Plane, y: nat): (r: seq<Byte>)
    requires Fits(l, |s|) && y < l.rows
    ensures |r| == l.width
  {
    s[Start(l, y)..Start(l, y) + l.width]
  }

  /** The image that the plane holds. */
  function Rows(s: seq<Byte>, l: Plane): (r: seq<seq<Byte>>)
    requires Fits(l, |s|)
    ensures |r| == l.rows && Rectangular(r, l.width)
  {
    seq(l.rows, y requires 0 <= y < l.rows => Row(s, l, y))
  }

  /** All rows have the given width. */
  ghost predicate Rectangular(image: seq<seq<Byte>>, width: nat) {
    forall y :: 0 <= y < |image| ==> |image[y]| == width
  }

  /** Two ranges of bytes have none in common. */
  predicate Disjoint(a: nat, n: nat, b: nat, m: nat) {
    n == 0 || m == 0 || a + n <= b || b + m <= a
  }

  /** No byte belongs to both planes; the padding of one may hold rows of the other. */
  predicate Apart(l: Plane, m: Plane) {
    forall i, j :: 0 <= i < l.rows && 0 <= j < m.rows ==> Disjoint(Start(l, i), l.width, Start(m, j), m.width)
  }

  predicate InRow(l: Plane, y: nat, p: nat) {
    Start(l, y) <= p < Start(l, y) + l.width
  }

  /** Position `p` belongs to one of the first `n` rows. */
  ghost predicate InRows(l: Plane, n: nat, p: nat) {
    exists y: nat :: y < n && InRow(l, y, p)
  }

  /** From the first byte of the first row to the last byte of the last one. */
  function Extent(l: Plane): nat {
    if l.rows == 0 then 0 else Times(l.rows - 1, l.stride) + l.width
  }

  lemma LaterRow(l: Plane, i: nat, j: nat)
    requires i <= j
    ensures Start(l, i) <= Start(l, j)
    ensures i < j ==> Start(l, i) + l.stride <= Start(l, j)
  {
    MonotoneTimes(l.stride, i, j);
    if i < j {
      MonotoneTimes(l.stride, i + 1, j);
      assert l.stride * (i + 1) == l.stride * i + l.stride;
    }
  }

  /** The rows of a writable plane do not meet. */
  lemma OwnRows(l: Plane, i: nat, j: nat)
    requires l.width <= l.stride && i != j
    ensures Disjoint(Start(l, i), l.width, Start(l, j), l.width)
  {
    hide Start;
    LaterRow(l, if i < j then i else j, if i < j then j else i);
  }

  /** Planes in separate ranges of memory are apart. */
  lemma RangesApart(l: Plane, m: Plane)
    requires Disjoint(l.base, Extent(l), m.base, Extent(m))
    ensures Apart(l, m)
  {
    forall i, j | 0 <= i < l.rows && 0 <= j < m.rows
      ensures Disjoint(Start(l, i), l.width, Start(m, j), m.width)
    {
      LaterRow(l, i, l.rows - 1);
      LaterRow(m, j, m.rows - 1);
    }
  }

  /** The last row decides whether a plane fits. */
  lemma FitsByExtent(l: Plane, size: nat)
    requires l.base + Extent(l) <= size
    ensures Fits(l, size)
  {
    forall y | 0 <= y < l.rows ensures Start(l, y) + l.width <= size {
      LaterRow(l, y, l.rows - 1);
    }
  }

  /** The three planes that the encoder lays out one after the other in its buffer at `base`. */
  lemma EncoderBuffer(base: nat, width: nat, height: nat)
    ensures var chroma := Times(height / 2, width / 2);
            var y := Plane(base, width, width, height);
            var u := Plane(base + Times(height, width), width / 2, width / 2, height / 2);
            var v := Plane(base + Times(height, width) + chroma, width / 2, width / 2, height / 2);
            var size := base + Times(height, width) + 2 * chroma;
            && Writable(y, size) && Writable(u, size) && Writable(v, size)
            && Apart(y, u) && Apart(y, v) && Apart(u, v)
  {
    hide Times, Apart, Fits;
    var chroma := Times(height / 2, width / 2);
    var y := Plane(base, width, width, height);
    var u := Plane(base + Times(height, width), width / 2, width / 2, height / 2);
    var v := Plane(base + Times(height, width) + chroma, width / 2, width / 2, height / 2);
    var size := base + Times(height, width) + 2 * chroma;
    TightExtent(y);
    TightExtent(u);
    TightExtent(v);
    FitsByExtent(y, size);
    FitsByExtent(u, size);
    FitsByExtent(v, size);
    RangesApart(y, u);
    RangesApart(y, v);
    RangesApart(u, v);
  }

  lemma TightExtent(l: Plane)
    requires l.stride == l.width
    ensures Extent(l) == Times(l.rows, l.width)
  {
    if l.rows > 0 {
      assert (l.rows - 1) * l.width + l.width == l.rows * l.width;
    }
  }

  // ---------- writing rows ----------

  function Overwrite(s: seq<Byte>, at: nat, bytes: seq<Byte>): (r: seq<Byte>)
    requires at + |bytes| <= |s|
    ensures |r| == |s|
  {
    s[..at] + bytes + s[at + |bytes|..]
  }

  /** The first `n` rows of the plane are those of the image. */
  ghost predicate Holds(s: seq<Byte>, l: Plane, image: seq<seq<Byte>>, n: nat)
    requires Fits(l, |s|) && n <= l.rows && n <= |image|
  {
    forall y :: 0 <= y < n ==> Row(s, l, y) == image[y]
  }

  lemma AllHeld(s: seq<Byte>, l: Plane, image: seq<seq<Byte>>)
    requires Fits(l, |s|) && |image| == l.rows
    ensures Holds(s, l, image, l.rows) <==> Rows(s, l) == image
  {
    assert forall y :: 0 <= y < l.rows ==> Rows(s, l)[y] == Row(s, l, y);
  }

  lemma SliceKept(s: seq<Byte>, at: nat, bytes: seq<Byte>, low: nat, n: nat)
    requires at + |bytes| <= |s| && low + n <= |s| && Disjoint(at, |bytes|, low, n)
    ensures Overwrite(s, at, bytes)[low..low + n] == s[low..low + n]
  {
    var after := Overwrite(s, at, bytes);
    var (got, wanted) := (after[low..low + n], s[low..low + n]);
    forall i | 0 <= i < n ensures got[i] == wanted[i] {
      assert after[low + i] == s[low + i];
    }
  }

  lemma SliceWritten(s: seq<Byte>, at: nat, bytes: seq<Byte>)
    requires at + |bytes| <= |s|
    ensures Overwrite(s, at, bytes)[at..at + |bytes|] == bytes
  {
    var after := Overwrite(s, at, bytes);
    var got := after[at..at + |bytes|];
    forall i | 0 <= i < |bytes| ensures got[i] == bytes[i] {
      assert after[at + i] == bytes[i];
    }
  }

  /** A write outside the rows of a plane leaves them alone. */
  lemma HoldsKept(s: seq<Byte>, at: nat, bytes: seq<Byte>, l: Plane, image: seq<seq<Byte>>, n: nat)
    requires at + |bytes| <= |s| && Fits(l, |s|) && n <= l.rows && n <= |image| && Holds(s, l, image, n)
    requires forall y :: 0 <= y < n ==> Disjoint(at, |bytes|, Start(l, y), l.width)
    ensures Holds(Overwrite(s, at, bytes), l, image, n)
  {
    hide Overwrite, Start, Disjoint;
    forall y | 0 <= y < n ensures Row(Overwrite(s, at, bytes), l, y) == image[y] {
      SliceKept(s, at, bytes, Start(l, y), l.width);
      assert Row(s, l, y) == image[y];
    }
  }

  /** Writing row `n` extends the part of the image that is there. */
  lemma HoldsNext(s: seq<Byte>, l: Plane, image: seq<seq<Byte>>, n: nat)
    requires Writable(l, |s|) && n < l.rows && n < |image| && |image[n]| == l.width && Holds(s, l, image, n)
    ensures Holds(Overwrite(s, Start(l, n), image[n]), l, image, n + 1)
  {
    hide Overwrite, Start, Disjoint;
    forall y | 0 <= y < n ensures Disjoint(Start(l, n), l.width, Start(l, y), l.width) {
      OwnRows(l, n, y);
    }
    HoldsKept(s, Start(l, n), image[n], l, image, n);
    SliceWritten(s, Start(l, n), image[n]);
  }

  /** Bytes outside the first `n` rows of the plane are as they were. */
  ghost predicate Kept(before: seq<Byte>, after: seq<Byte>, l: Plane, n: nat) {
    |after| == |before| && forall p :: 0 <= p < |before| && !InRows(l, n, p) ==> after[p] == before[p]
  }

  lemma NoRowsYet(s: seq<Byte>, l: Plane, image: seq<seq<Byte>>)
    requires Fits(l, |s|)
    ensures Kept(s, s, l, 0) && Holds(s, l, image, 0)
  {
  }

  lemma KeptNext(before: seq<Byte>, after: seq<Byte>, l: Plane, n: nat, row: seq<Byte>)
    requires Kept(before, after, l, n) && Start(l, n) + l.width <= |after| && |row| == l.width
    ensures Kept(before, Overwrite(after, Start(l, n), row), l, n + 1)
  {
    hide Start;
    forall p: nat | p < |before| && !InRows(l, n + 1, p) ensures Overwrite(after, Start(l, n), row)[p] == before[p] {
      assert !InRow(l, n, p);
      assert !InRows(l, n, p) by {
        if y: nat :| y < n && InRow(l, y, p) { }
      }
    }
  }

  ghost predicate InImage(l: Plane, p: nat) {
    InRows(l, l.rows, p)
  }

  /** Bytes outside the images of all the planes are as they were, stride padding included. */
  ghost predicate KeptBut(before: seq<Byte>, after: seq<Byte>, planes: set<Plane>) {
    && |after| == |before|
    && forall p :: 0 <= p < |before| && (forall l :: l in planes ==> !InImage(l, p)) ==> after[p] == before[p]
  }

  lemma KeptIsKeptBut(before: seq<Byte>, after: seq<Byte>, l: Plane)
    requires Kept(before, after, l, l.rows)
    ensures KeptBut(before, after, {l})
  {
  }

  lemma KeptButCompose(a: seq<Byte>, b: seq<Byte>, c: seq<Byte>, ps: set<Plane>, qs: set<Plane>)
    requires KeptBut(a, b, ps) && KeptBut(b, c, qs)
    ensures KeptBut(a, c, ps + qs)
  {
  }

  lemma NotInBoth(l: Plane, m: Plane, y: nat, p: nat)
    requires Apart(l, m) && y < m.rows && InRow(m, y, p)
    ensures !InImage(l, p)
  {
    hide Start;
  }

  /** Planes apart from everything written still hold their images. */
  lemma RowsUntouched(before: seq<Byte>, after: seq<Byte>, planes: set<Plane>, m: Plane)
    requires KeptBut(before, after, planes) && Fits(m, |before|) && forall l :: l in planes ==> Apart(l, m)
    ensures Rows(after, m) == Rows(before, m)
  {
    hide Start;
    forall y | 0 <= y < m.rows ensures Rows(after, m)[y] == Rows(before, m)[y] {
      forall p | Start(m, y) <= p < Start(m, y) + m.width ensures after[p] == before[p] {
        forall l | l in planes ensures !InImage(l, p) {
          NotInBoth(l, m, y, p);
        }
      }
    }
  }

  /** The whole effect of writing an image into a plane. */
  ghost predicate Written(before: seq<Byte>, after: seq<Byte>, l: Plane, image: seq<seq<Byte>>) {
    Fits(l, |after|) && Rows(after, l) == image && KeptBut(before, after, {l})
  }

  /** Nothing is left open: two ways to write the same image leave the same memory. */
  lemma WrittenUnique(before: seq<Byte>, a: seq<Byte>, b: seq<Byte>, l: Plane, image: seq<seq<Byte>>)
    requires Written(before, a, l, image) && Written(before, b, l, image)
    ensures a == b
  {
    forall p | 0 <= p < |before| ensures a[p] == b[p] {
      if InImage(l, p) {
        var y: nat :| y < l.rows && InRow(l, y, p);
        assert Row(a, l, y) == Rows(a, l)[y] == image[y] == Rows(b, l)[y] == Row(b, l, y);
        assert Row(a, l, y)[p - Start(l, y)] == a[p] && Row(b, l, y)[p - Start(l, y)] == b[p];
      }
    }
  }

  // ---------- copying ----------

  /** memcpy within memory; the two ranges must not overlap. */
  method Memcpy(memory: array<Byte>, at: nat, start: nat, n: nat)
    requires at + n <= memory.Length && start + n <= memory.Length && Disjoint(at, n, start, n)
    modifies memory
    ensures memory[..] == Overwrite(old(memory[..]), at, old(memory[start..start + n]))
  {
    forall i | 0 <= i < n {
      memory[at + i] := memory[start + i];
    }
  }

  /** Row `y` of a plane without padding is a slice of one block. */
  lemma TightRow(l: Plane, y: nat)
    requires l.stride == l.width && y < l.rows
    ensures Start(l, y) == l.base + Times(y, l.width) && Times(y, l.width) + l.width <= Times(l.rows, l.width)
  {
    MonotoneTimes(l.width, y + 1, l.rows);
    assert l.width * (y + 1) == y * l.width + l.width;
  }

  /** In a plane without padding every byte of the block belongs to a row. */
  lemma TightCovers(l: Plane, k: nat) returns (y: nat)
    requires l.stride == l.width && k < Times(l.rows, l.width)
    ensures y < l.rows && InRow(l, y, l.base + k)
  {
    y := k / l.width;
    assert k == l.width * y + k % l.width;
    if y >= l.rows {
      MonotoneTimes(l.width, l.rows, y);
    }
  }

  /** Planes without padding that are apart occupy disjoint blocks. */
  lemma TightApart(l: Plane, m: Plane)
    requires l.stride == l.width && m.stride == m.width && Apart(l, m)
    ensures Disjoint(l.base, Times(l.rows, l.width), m.base, Times(m.rows, m.width))
  {
    if !Disjoint(l.base, Times(l.rows, l.width), m.base, Times(m.rows, m.width)) {
      var p := if l.base <= m.base then m.base else l.base;
      hide Times;
      var i := TightCovers(l, p - l.base);
      var j := TightCovers(m, p - m.base);
    }
  }

  /** Without padding, one block copy writes all rows. */
  lemma BlockIsRows(s: seq<Byte>, from: Plane, to: Plane)
    requires Fits(from, |s|) && Fits(to, |s|) && from.width == to.width && from.rows == to.rows
    requires from.stride == from.width && to.stride == to.width
    requires from.base + Times(from.rows, from.width) <= |s| && to.base + Times(to.rows, to.width) <= |s|
    ensures var block := s[from.base..from.base + Times(from.rows, from.width)];
            Written(s, Overwrite(s, to.base, block), to, Rows(s, from))
  {
    hide Times, Start, Overwrite, InRows, Fits;
    var n := Times(from.rows, from.width);
    var block := s[from.base..from.base + n];
    var after := Overwrite(s, to.base, block);
    forall y | 0 <= y < to.rows ensures Row(after, to, y) == Rows(s, from)[y] {
      TightRow(from, y);
      TightRow(to, y);
      BlockSlice(s, to.base, from.base, n, Times(y, from.width), from.width);
    }
    forall p: nat | p < |s| && !InRows(to, to.rows, p) ensures after[p] == s[p] {
      OutsideBlock(s, to, block, p);
    }
    assert Kept(s, after, to, to.rows);
    hide Kept;
    KeptIsKeptBut(s, after, to);
  }

  lemma OutsideBlock(s: seq<Byte>, l: Plane, block: seq<Byte>, p: nat)
    requires l.stride == l.width && |block| == Times(l.rows, l.width) && l.base + |block| <= |s|
    requires p < |s| && !InRows(l, l.rows, p)
    ensures Overwrite(s, l.base, block)[p] == s[p]
  {
    if l.base <= p < l.base + |block| {
      hide Times;
      var y := TightCovers(l, p - l.base);
    }
  }

  lemma BlockSlice(s: seq<Byte>, at: nat, start: nat, n: nat, k: nat, w: nat)
    requires at + n <= |s| && start + n <= |s| && k + w <= n
    ensures Overwrite(s, at, s[start..start + n])[at + k..at + k + w] == s[start + k..start + k + w]
  {
    var after := Overwrite(s, at, s[start..start + n]);
    var (got, wanted) := (after[at + k..at + k + w], s[start + k..start + k + w]);
    forall i | 0 <= i < w ensures got[i] == wanted[i] {
      assert after[at + (k + i)] == s[start..start + n][k + i];
    }
  }

  /** A plane without padding that fits has room for the whole block. */
  lemma TightFits(l: Plane, size: nat)
    requires l.stride == l.width && Fits(l, size)
    ensures l.base + Times(l.rows, l.width) <= size
  {
    TightExtent(l);
    if l.rows > 0 {
      assert Start(l, l.rows - 1) + l.width <= size;
    }
  }

  method CopyPlane(memory: array<Byte>, src: Plane, dst: Plane)
    requires Fits(src, memory.Length) && Writable(dst, memory.Length) && Apart(src, dst)
    requires src.width == dst.width && src.rows == dst.rows
    modifies memory
    ensures Written(old(memory[..]), memory[..], dst, Rows(old(memory[..]), src))
  {
    hide Overwrite, Start, Rows, Row, Times;
    ghost var before := memory[..];
    if src.stride == src.width && dst.stride == src.width {
      TightFits(src, memory.Length);
      TightFits(dst, memory.Length);
      TightApart(src, dst);
      BlockIsRows(before, src, dst);
      Memcpy(memory, dst.base, src.base, Times(src.rows, src.width));
      return;
    }
    ghost var image := Rows(before, src);
    AllHeld(before, src, image);
    for y := 0 to src.rows
      invariant Holds(memory[..], src, image, src.rows)
      invariant Holds(memory[..], dst, image, y) && Kept(before, memory[..], dst, y)
    {
      CopyRowStep(before, memory[..], src, dst, image, y);
      SameSlice(memory, Start(src, y), Start(src, y) + src.width);
      Memcpy(memory, Start(dst, y), Start(src, y), src.width);
    }
    AllHeld(memory[..], dst, image);
    KeptIsKeptBut(before, memory[..], dst);
  }

  lemma SameSlice(a: array<Byte>, low: nat, high: nat)
    requires low <= high <= a.Length
    ensures a[..][low..high] == a[low..high]
  {
  }

  /** One turn of the row loop. */
  lemma CopyRowStep(before: seq<Byte>, s: seq<Byte>, src: Plane, dst: Plane, image: seq<seq<Byte>>, y: nat)
    requires Fits(src, |s|) && Writable(dst, |s|) && Apart(src, dst) && src.width == dst.width && src.rows == dst.rows
    requires |image| == src.rows && y < src.rows && Rectangular(image, src.width)
    requires Holds(s, src, image, src.rows) && Holds(s, dst, image, y) && Kept(before, s, dst, y)
    ensures s[Start(src, y)..Start(src, y) + src.width] == image[y]
    ensures Disjoint(Start(dst, y), src.width, Start(src, y), src.width)
    ensures var t := Overwrite(s, Start(dst, y), image[y]);
            Holds(t, src, image, src.rows) && Holds(t, dst, image, y + 1) && Kept(before, t, dst, y + 1)
  {
    hide Overwrite, Start;
    assert Row(s, src, y) == image[y];
    forall i | 0 <= i < src.rows ensures Disjoint(Start(dst, y), src.width, Start(src, i), src.width) {
      assert Disjoint(Start(src, i), src.width, Start(dst, y), dst.width);
    }
    HoldsKept(s, Start(dst, y), image[y], src, image, src.rows);
    HoldsNext(s, dst, image, y);
    KeptNext(before, s, dst, y, image[y]);
  }

  // ---------- interleaving ----------

  function Evens(row: seq<Byte>): (r: seq<Byte>) ensures |r| == |row| / 2 {
    seq(|row| / 2, x requires 0 <= x < |row| / 2 => row[2 * x])
  }

  function Odds(row: seq<Byte>): (r: seq<Byte>) ensures |r| == |row| / 2 {
    seq(|row| / 2, x requires 0 <= x < |row| / 2 => row[2 * x + 1])
  }

  function Interleave(u: seq<Byte>, v: seq<Byte>): (r: seq<Byte>)
    requires |u| == |v|
    ensures |r| == 2 * |u|
  {
    seq(2 * |u|, k requires 0 <= k < 2 * |u| => if k % 2 == 0 then u[k / 2] else v[k / 2])
  }

  /** Splitting and joining are inverse on rows of even length. */
  lemma InterleaveInverse(row: seq<Byte>)
    requires |row| % 2 == 0
    ensures Interleave(Evens(row), Odds(row)) == row
  {
  }

  function EvenRows(image: seq<seq<Byte>>): (r: seq<seq<Byte>>) ensures |r| == |image| {
    seq(|image|, y requires 0 <= y < |image| => Evens(image[y]))
  }

  function OddRows(image: seq<seq<Byte>>): (r: seq<seq<Byte>>) ensures |r| == |image| {
    seq(|image|, y requires 0 <= y < |image| => Odds(image[y]))
  }

  function InterleaveRows(us: seq<seq<Byte>>, vs: seq<seq<Byte>>): (r: seq<seq<Byte>>)
    requires |us| == |vs| && forall y :: 0 <= y < |us| ==> |us[y]| == |vs[y]|
    ensures |r| == |us|
  {
    seq(|us|, y requires 0 <= y < |us| => Interleave(us[y], vs[y]))
  }

  lemma PairAt(row: seq<Byte>, x: nat)
    requires x < |row| / 2
    ensures Evens(row)[x] == row[2 * x] && Odds(row)[x] == row[2 * x + 1]
  {
  }

  lemma NothingYet(s: seq<Byte>, at: nat, bytes: seq<Byte>)
    requires at <= |s|
    ensures Overwrite(s, at, bytes[..0]) == s
  {
  }

  /** Two more bytes of a row taken apart, at `x`, when the first `x` are done. */
  lemma SplitElement(s: seq<Byte>, row: seq<Byte>, start: nat, u: nat, v: nat, n: nat, x: nat)
    requires start + 2 * n <= |s| && u + n <= |s| && v + n <= |s| && row == s[start..start + 2 * n] && x < n
    requires Disjoint(u, n, start, 2 * n) && Disjoint(v, n, start, 2 * n) && Disjoint(u, n, v, n)
    ensures var t := Overwrite(Overwrite(s, u, Evens(row)[..x]), v, Odds(row)[..x]);
            && t[start + 2 * x] == Evens(row)[x] && t[start + 2 * x + 1] == Odds(row)[x]
            && t[u + x := Evens(row)[x]][v + x := Odds(row)[x]]
               == Overwrite(Overwrite(s, u, Evens(row)[..x + 1]), v, Odds(row)[..x + 1])
  {
    hide Evens, Odds, Overwrite;
    PairAt(row, x);
    var (evens, odds) := (Evens(row), Odds(row));
    var half := Overwrite(s, u, evens[..x]);
    ReadKept(s, u, evens[..x], start + 2 * x);
    ReadKept(s, u, evens[..x], start + 2 * x + 1);
    ReadKept(half, v, odds[..x], start + 2 * x);
    ReadKept(half, v, odds[..x], start + 2 * x + 1);
    NextByte(s, u, evens, x);
    NextByte(Overwrite(s, u, evens[..x + 1]), v, odds, x);
    SetCommutes(half, u + x, evens[x], v, odds[..x]);
  }

  lemma ReadKept(s: seq<Byte>, at: nat, bytes: seq<Byte>, k: nat)
    requires at + |bytes| <= |s| && k < |s| && !(at <= k < at + |bytes|)
    ensures Overwrite(s, at, bytes)[k] == s[k]
  {
  }

  lemma NextByte(s: seq<Byte>, at: nat, bytes: seq<Byte>, x: nat)
    requires at + |bytes| <= |s| && x < |bytes|
    ensures Overwrite(s, at, bytes[..x])[at + x := bytes[x]] == Overwrite(s, at, bytes[..x + 1])
  {
  }

  lemma SetCommutes(s: seq<Byte>, k: nat, b: Byte, at: nat, bytes: seq<Byte>)
    requires k < |s| && at + |bytes| <= |s| && !(at <= k < at + |bytes|)
    ensures Overwrite(s, at, bytes)[k := b] == Overwrite(s[k := b], at, bytes)
  {
  }

  /** One chroma row taken apart, element by element. */
  method SplitRow(memory: array<Byte>, start: nat, u: nat, v: nat, n: nat)
    requires start + 2 * n <= memory.Length && u + n <= memory.Length && v + n <= memory.Length
    requires Disjoint(u, n, start, 2 * n) && Disjoint(v, n, start, 2 * n) && Disjoint(u, n, v, n)
    modifies memory
    ensures var row := old(memory[start..start + 2 * n]);
            memory[..] == Overwrite(Overwrite(old(memory[..]), u, Evens(row)), v, Odds(row))
  {
    hide Overwrite, Evens, Odds;
    ghost var before, row := memory[..], memory[start..start + 2 * n];
    NothingYet(before, u, Evens(row));
    NothingYet(before, v, Odds(row));
    for x := 0 to n
      invariant memory[..] == Overwrite(Overwrite(before, u, Evens(row)[..x]), v, Odds(row)[..x])
    {
      SplitElement(before, row, start, u, v, n, x);
      memory[u + x] := memory[start + 2 * x];
      memory[v + x] := memory[start + 2 * x + 1];
    }
    assert Evens(row)[..n] == Evens(row) && Odds(row)[..n] == Odds(row);
  }

  lemma JoinedAt(u: seq<Byte>, v: seq<Byte>, x: nat)
    requires |u| == |v| && x < |u|
    ensures Interleave(u, v)[2 * x] == u[x] && Interleave(u, v)[2 * x + 1] == v[x]
  {
  }

  lemma JoinElement(s: seq<Byte>, us: seq<Byte>, vs: seq<Byte>, u: nat, v: nat, at: nat, n: nat, x: nat)
    requires u + n <= |s| && v + n <= |s| && at + 2 * n <= |s| && us == s[u..u + n] && vs == s[v..v + n] && x < n
    requires Disjoint(at, 2 * n, u, n) && Disjoint(at, 2 * n, v, n)
    ensures var t := Overwrite(s, at, Interleave(us, vs)[..2 * x]);
            && t[u + x] == us[x] && t[v + x] == vs[x]
            && t[at + 2 * x := us[x]][at + 2 * x + 1 := vs[x]] == Overwrite(s, at, Interleave(us, vs)[..2 * x + 2])
  {
    hide Interleave, Overwrite;
    var row := Interleave(us, vs);
    JoinedAt(us, vs, x);
    ReadKept(s, at, row[..2 * x], u + x);
    ReadKept(s, at, row[..2 * x], v + x);
    NextByte(s, at, row, 2 * x);
    NextByte(s, at, row, 2 * x + 1);
  }

  /** One chroma row put together, element by element. */
  method JoinRow(memory: array<Byte>, u: nat, v: nat, at: nat, n: nat)
    requires u + n <= memory.Length && v + n <= memory.Length && at + 2 * n <= memory.Length
    requires Disjoint(at, 2 * n, u, n) && Disjoint(at, 2 * n, v, n)
    modifies memory
    ensures memory[..] == Overwrite(old(memory[..]), at, Interleave(old(memory[u..u + n]), old(memory[v..v + n])))
  {
    hide Overwrite, Interleave;
    ghost var before, us, vs := memory[..], memory[u..u + n], memory[v..v + n];
    NothingYet(before, at, Interleave(us, vs));
    for x := 0 to n
      invariant memory[..] == Overwrite(before, at, Interleave(us, vs)[..2 * x])
    {
      JoinElement(before, us, vs, u, v, at, n, x);
      memory[at + 2 * x] := memory[u + x];
      memory[at + 2 * x + 1] := memory[v + x];
    }
    assert Interleave(us, vs)[..2 * n] == Interleave(us, vs);
  }

  /** Bytes outside the first `n` rows of both planes are as they were. */
  ghost predicate KeptBoth(before: seq<Byte>, after: seq<Byte>, l: Plane, m: Plane, n: nat) {
    && |after| == |before|
    && forall p :: 0 <= p < |before| && !InRows(l, n, p) && !InRows(m, n, p) ==> after[p] == before[p]
  }

  /** One turn of the splitting loop: row `y` of both target planes. */
  lemma SplitRowStep(s: seq<Byte>, uv: Plane, u: Plane, v: Plane, image: seq<seq<Byte>>, y: nat)
    requires Fits(uv, |s|) && Writable(u, |s|) && Writable(v, |s|) && Apart(u, uv) && Apart(v, uv) && Apart(u, v)
    requires uv.width == 2 * u.width && v.width == u.width && uv.rows == u.rows == v.rows == |image| && y < |image|
    requires Holds(s, uv, image, uv.rows) && Holds(s, u, EvenRows(image), y) && Holds(s, v, OddRows(image), y)
    ensures Row(s, uv, y) == image[y]
    ensures var t := Overwrite(Overwrite(s, Start(u, y), Evens(image[y])), Start(v, y), Odds(image[y]));
            && Holds(t, uv, image, uv.rows)
            && Holds(t, u, EvenRows(image), y + 1) && Holds(t, v, OddRows(image), y + 1)
  {
    hide Overwrite, Start, Disjoint, Evens, Odds;
    assert Row(s, uv, y) == image[y];
    var (evens, odds) := (Evens(image[y]), Odds(image[y]));
    var mid := Overwrite(s, Start(u, y), evens);
    HoldsKept(s, Start(u, y), evens, uv, image, uv.rows);
    HoldsKept(mid, Start(v, y), odds, uv, image, uv.rows);
    HoldsNext(s, u, EvenRows(image), y);
    ApartSwaps(u, v);
    HoldsKept(mid, Start(v, y), odds, u, EvenRows(image), y + 1);
    HoldsKept(s, Start(u, y), evens, v, OddRows(image), y);
    HoldsNext(mid, v, OddRows(image), y);
  }

  lemma ApartSwaps(l: Plane, m: Plane)
    requires Apart(l, m)
    ensures Apart(m, l)
  {
  }

  lemma KeptBothNext(before: seq<Byte>, s: seq<Byte>, u: Plane, v: Plane, y: nat, evens: seq<Byte>, odds: seq<Byte>)
    requires KeptBoth(before, s, u, v, y) && |evens| == u.width && |odds| == v.width
    requires Start(u, y) + u.width <= |s| && Start(v, y) + v.width <= |s|
    ensures KeptBoth(before, Overwrite(Overwrite(s, Start(u, y), evens), Start(v, y), odds), u, v, y + 1)
  {
    hide Start;
    var after := Overwrite(Overwrite(s, Start(u, y), evens), Start(v, y), odds);
    forall p: nat | p < |before| && !InRows(u, y + 1, p) && !InRows(v, y + 1, p) ensures after[p] == before[p] {
      InFewerRows(u, y, p);
      InFewerRows(v, y, p);
    }
  }

  lemma InFewerRows(l: Plane, n: nat, p: nat)
    ensures InRows(l, n + 1, p) <==> InRows(l, n, p) || InRow(l, n, p)
  {
  }

  lemma BothAreKept(before: seq<Byte>, after: seq<Byte>, u: Plane, v: Plane)
    requires KeptBoth(before, after, u, v, u.rows) && u.rows == v.rows
    ensures KeptBut(before, after, {u, v})
  {
    assert forall p :: (forall l :: l in {u, v} ==> !InImage(l, p)) ==> !InImage(u, p) && !InImage(v, p);
  }

  /** Splits the chroma plane; the loop over rows. */
  method SplitChroma(memory: array<Byte>, uv: Plane, u: Plane, v: Plane)
    requires Fits(uv, memory.Length) && Writable(u, memory.Length) && Writable(v, memory.Length)
    requires Apart(u, uv) && Apart(v, uv) && Apart(u, v)
    requires uv.width == 2 * u.width && v.width == u.width && uv.rows == u.rows == v.rows
    modifies memory
    ensures Rows(memory[..], u) == EvenRows(Rows(old(memory[..]), uv))
    ensures Rows(memory[..], v) == OddRows(Rows(old(memory[..]), uv))
    ensures KeptBut(old(memory[..]), memory[..], {u, v})
  {
    hide Overwrite, Start, Rows, Evens, Odds, EvenRows, OddRows, KeptBoth, Holds;
    ghost var before := memory[..];
    ghost var image := Rows(before, uv);
    ghost var evens, odds := EvenRows(image), OddRows(image);
    NoRowsYet(before, u, evens);
    NoRowsYet(before, v, odds);
    NoneOfBoth(before, u, v);
    AllHeld(before, uv, image);
    for y := 0 to uv.rows
      invariant Holds(memory[..], uv, image, uv.rows)
      invariant Holds(memory[..], u, evens, y) && Holds(memory[..], v, odds, y)
      invariant KeptBoth(before, memory[..], u, v, y)
    {
      SplitRowStep(memory[..], uv, u, v, image, y);
      KeptBothNext(before, memory[..], u, v, y, Evens(image[y]), Odds(image[y]));
      SameSlice(memory, Start(uv, y), Start(uv, y) + uv.width);
      SplitRow(memory, Start(uv, y), Start(u, y), Start(v, y), u.width);
    }
    AllHeld(memory[..], u, evens);
    AllHeld(memory[..], v, odds);
    BothAreKept(before, memory[..], u, v);
  }

  lemma NoneOfBoth(s: seq<Byte>, u: Plane, v: Plane)
    ensures KeptBoth(s, s, u, v, 0)
  {
  }

  /** One turn of the joining loop. */
  lemma JoinRowStep(s: seq<Byte>, u: Plane, v: Plane, uv: Plane,
                    us: seq<seq<Byte>>, vs: seq<seq<Byte>>, image: seq<seq<Byte>>, y: nat)
    requires Fits(u, |s|) && Fits(v, |s|) && Writable(uv, |s|) && Apart(uv, u) && Apart(uv, v)
    requires uv.width == 2 * u.width && v.width == u.width && uv.rows == u.rows == v.rows == |us| == |vs| && y < |us|
    requires Rectangular(us, u.width) && Rectangular(vs, v.width) && image == InterleaveRows(us, vs)
    requires Holds(s, u, us, u.rows) && Holds(s, v, vs, v.rows) && Holds(s, uv, image, y)
    ensures Row(s, u, y) == us[y] && Row(s, v, y) == vs[y] && image[y] == Interleave(us[y], vs[y])
    ensures var t := Overwrite(s, Start(uv, y), image[y]);
            Holds(t, u, us, u.rows) && Holds(t, v, vs, v.rows) && Holds(t, uv, image, y + 1)
  {
    hide Overwrite, Start, Disjoint, Interleave;
    assert Row(s, u, y) == us[y] && Row(s, v, y) == vs[y];
    HoldsKept(s, Start(uv, y), image[y], u, us, u.rows);
    HoldsKept(s, Start(uv, y), image[y], v, vs, v.rows);
    HoldsNext(s, uv, image, y);
  }

  /** Joins the chroma planes; the loop over rows. */
  method JoinChroma(memory: array<Byte>, u: Plane, v: Plane, uv: Plane)
    requires Fits(u, memory.Length) && Fits(v, memory.Length) && Writable(uv, memory.Length)
    requires Apart(uv, u) && Apart(uv, v)
    requires uv.width == 2 * u.width && v.width == u.width && uv.rows == u.rows == v.rows
    modifies memory
    ensures Written(old(memory[..]), memory[..], uv,
                    InterleaveRows(Rows(old(memory[..]), u), Rows(old(memory[..]), v)))
  {
    hide Overwrite, Start, Rows, Interleave, InterleaveRows, Kept, Holds;
    ghost var before := memory[..];
    ghost var us, vs := Rows(before, u), Rows(before, v);
    ghost var image := InterleaveRows(us, vs);
    NoRowsYet(before, uv, image);
    AllHeld(before, u, us);
    AllHeld(before, v, vs);
    for y := 0 to uv.rows
      invariant Holds(memory[..], u, us, u.rows) && Holds(memory[..], v, vs, v.rows)
      invariant Holds(memory[..], uv, image, y) && Kept(before, memory[..], uv, y)
    {
      JoinRowStep(memory[..], u, v, uv, us, vs, image, y);
      KeptNext(before, memory[..], uv, y, image[y]);
      SameSlice(memory, Start(u, y), Start(u, y) + u.width);
      SameSlice(memory, Start(v, y), Start(v, y) + v.width);
      JoinRow(memory, Start(u, y), Start(v, y), Start(uv, y), u.width);
    }
    AllHeld(memory[..], uv, image);
    KeptIsKeptBut(before, memory[..], uv);
  }

  // ---------- whole images ----------

  predicate Nv12Shape(y: Plane, uv: Plane, width: nat, height: nat) {
    y.width == width && y.rows == height && uv.width == 2 * (width / 2) && uv.rows == height / 2
  }

  predicate I420Shape(y: Plane, u: Plane, v: Plane, width: nat, height: nat) {
    && y.width == width && y.rows == height
    && u.width == v.width == width / 2 && u.rows == v.rows == height / 2
  }

  /** Written planes must not meet each other nor what is still to be read; luma is read before chroma is written. */
  method Nv12ToI420(memory: array<Byte>, srcY: Plane, srcUv: Plane, dstY: Plane, dstU: Plane, dstV: Plane,
                    width: nat, height: nat)
    requires Nv12Shape(srcY, srcUv, width, height) && I420Shape(dstY, dstU, dstV, width, height)
    requires Fits(srcY, memory.Length) && Fits(srcUv, memory.Length)
    requires Writable(dstY, memory.Length) && Writable(dstU, memory.Length) && Writable(dstV, memory.Length)
    requires Apart(srcY, dstY) && Apart(dstY, srcUv) && Apart(dstU, srcUv) && Apart(dstV, srcUv)
    requires Apart(dstU, dstY) && Apart(dstV, dstY) && Apart(dstU, dstV)
    modifies memory
    ensures Rows(memory[..], dstY) == Rows(old(memory[..]), srcY)
    ensures Rows(memory[..], dstU) == EvenRows(Rows(old(memory[..]), srcUv))
    ensures Rows(memory[..], dstV) == OddRows(Rows(old(memory[..]), srcUv))
    ensures KeptBut(old(memory[..]), memory[..], {dstY, dstU, dstV})
  {
    hide Rows, EvenRows, OddRows, Apart, KeptBut, Fits;
    ghost var before := memory[..];
    CopyPlane(memory, srcY, dstY);
    ghost var between := memory[..];
    RowsUntouched(before, between, {dstY}, srcUv);
    SplitChroma(memory, srcUv, dstU, dstV);
    RowsUntouched(between, memory[..], {dstU, dstV}, dstY);
    KeptButCompose(before, between, memory[..], {dstY}, {dstU, dstV});
    assert {dstY} + {dstU, dstV} == {dstY, dstU, dstV};
  }

  method I420ToNv12(memory: array<Byte>, srcY: Plane, srcU: Plane, srcV: Plane, dstY: Plane, dstUv: Plane,
                    width: nat, height: nat)
    requires I420Shape(srcY, srcU, srcV, width, height) && Nv12Shape(dstY, dstUv, width, height)
    requires Fits(srcY, memory.Length) && Fits(srcU, memory.Length) && Fits(srcV, memory.Length)
    requires Writable(dstY, memory.Length) && Writable(dstUv, memory.Length)
    requires Apart(srcY, dstY) && Apart(dstY, srcU) && Apart(dstY, srcV) && Apart(dstUv, srcU) && Apart(dstUv, srcV)
    requires Apart(dstUv, dstY)
    modifies memory
    ensures Rows(memory[..], dstY) == Rows(old(memory[..]), srcY)
    ensures Rows(memory[..], dstUv) == InterleaveRows(Rows(old(memory[..]), srcU), Rows(old(memory[..]), srcV))
    ensures KeptBut(old(memory[..]), memory[..], {dstY, dstUv})
  {
    hide Rows, InterleaveRows, Apart, KeptBut, Fits;
    ghost var before := memory[..];
    CopyPlane(memory, srcY, dstY);
    ghost var between := memory[..];
    RowsUntouched(before, between, {dstY}, srcU);
    RowsUntouched(before, between, {dstY}, srcV);
    JoinChroma(memory, srcU, srcV, dstUv);
    RowsUntouched(between, memory[..], {dstUv}, dstY);
    KeptButCompose(before, between, memory[..], {dstY}, {dstUv});
    assert {dstY} + {dstUv} == {dstY, dstUv};
  }

  lemma ChromaRestored(image: seq<seq<Byte>>, n: nat)
    requires Rectangular(image, 2 * n)
    ensures Rectangular(EvenRows(image), n) && Rectangular(OddRows(image), n)
    ensures InterleaveRows(EvenRows(image), OddRows(image)) == image
  {
    forall y | 0 <= y < |image| ensures Interleave(Evens(image[y]), Odds(image[y])) == image[y] {
      InterleaveInverse(image[y]);
    }
    hide Evens, Odds, Interleave;
  }

  /**
   Converting an NV12 image to I420 and back restores every byte of both planes, for all sizes and
   strides, and writes nothing but image bytes.  The target may even be the source.
   */
  method ThereAndBack(memory: array<Byte>, srcY: Plane, srcUv: Plane, y: Plane, u: Plane, v: Plane,
                      dstY: Plane, dstUv: Plane, width: nat, height: nat)
    requires Nv12Shape(srcY, srcUv, width, height) && Nv12Shape(dstY, dstUv, width, height)
    requires I420Shape(y, u, v, width, height)
    requires Fits(srcY, memory.Length) && Fits(srcUv, memory.Length)
    requires Writable(y, memory.Length) && Writable(u, memory.Length) && Writable(v, memory.Length)
    requires Writable(dstY, memory.Length) && Writable(dstUv, memory.Length)
    requires Apart(srcY, y) && Apart(y, srcUv) && Apart(u, srcUv) && Apart(v, srcUv)
    requires Apart(u, y) && Apart(v, y) && Apart(u, v)
    requires Apart(y, dstY) && Apart(dstY, u) && Apart(dstY, v) && Apart(dstUv, u) && Apart(dstUv, v)
    requires Apart(dstUv, dstY)
    modifies memory
    ensures Rows(memory[..], dstY) == Rows(old(memory[..]), srcY)
    ensures Rows(memory[..], dstUv) == Rows(old(memory[..]), srcUv)
    ensures KeptBut(old(memory[..]), memory[..], {y, u, v, dstY, dstUv})
  {
    hide Rows, EvenRows, OddRows, InterleaveRows, Apart, KeptBut, Fits;
    ghost var before := memory[..];
    Nv12ToI420(memory, srcY, srcUv, y, u, v, width, height);
    ghost var between := memory[..];
    ChromaRestored(Rows(before, srcUv), width / 2);
    I420ToNv12(memory, y, u, v, dstY, dstUv, width, height);
    KeptButCompose(before, between, memory[..], {y, u, v}, {dstY, dstUv});
    assert {y, u, v} + {dstY, dstUv} == {y, u, v, dstY, dstUv};
  }

  // ---------- point scaling ----------

  /** The source position for destination position `i`. */
  function Nearest(i: nat, from: nat, size: nat): (k: nat)
    requires i < size && from > 0
    ensures k < from && size * k <= i * from < size * (k + 1)
  {
    ScaleBound(i, from, size);
    i * from / size
  }

  lemma ScaleBound(i: nat, from: nat, size: nat)
    requires i < size && from > 0
    ensures var q := i * from / size; 0 <= q < from && size * q <= i * from < size * (q + 1)
  {
    MonotoneTimes(from, 0, i);
    MonotoneTimes(from, i + 1, size);
    var q := i * from / size;
    assert i * from == size * q + i * from % size;
    assert size * (q + 1) == size * q + size;
    if q >= from {
      MonotoneTimes(size, from, q);
    }
  }

  /** Positions keep their order. */
  lemma NearestMonotone(i: nat, j: nat, from: nat, size: nat)
    requires i <= j < size && from > 0
    ensures Nearest(i, from, size) <= Nearest(j, from, size)
  {
    var a, b := Nearest(i, from, size), Nearest(j, from, size);
    MonotoneTimes(from, i, j);
    if a > b {
      MonotoneTimes(size, b + 1, a);
    }
  }

  /** Every scaled byte is the source byte whose cell holds its position, in both directions. */
  lemma ScaledPixel(image: seq<seq<Byte>>, from: nat, width: nat, height: nat, x: nat, y: nat)
      returns (sx: nat, sy: nat)
    requires image != [] && from > 0 && Rectangular(image, from) && x < width && y < height
    ensures sx < from && width * sx <= x * from < width * (sx + 1)
    ensures sy < |image| && height * sy <= y * |image| < height * (sy + 1)
    ensures ScaledRows(image, width, height)[y][x] == image[sy][sx]
  {
    hide Nearest;
    sx, sy := Nearest(x, from, width), Nearest(y, |image|, height);
    NearestRow(image, width, height, y);
  }

  lemma SameSize(i: nat, n: nat)
    requires i < n
    ensures Nearest(i, n, n) == i
  {
    DivideProduct(n, i);
    assert n * i == i * n;
  }

  function ScaledRow(row: seq<Byte>, width: nat): (r: seq<Byte>)
    requires width > 0 ==> row != []
    ensures |r| == width
  {
    seq(width, x requires 0 <= x < width => row[Nearest(x, |row|, width)])
  }

  function ScaledRows(image: seq<seq<Byte>>, width: nat, height: nat): (r: seq<seq<Byte>>)
    requires width > 0 && height > 0 ==> image != [] && forall y :: 0 <= y < |image| ==> image[y] != []
    ensures |r| == height && forall y :: 0 <= y < height ==> |r[y]| == width
  {
    seq(height, y requires 0 <= y < height =>
      if width == 0 then [] else ScaledRow(image[Nearest(y, |image|, height)], width))
  }

  /** Scaling to the same size is the identity, so the plain copy for equal sizes is no special case. */
  lemma ScaleSameSize(image: seq<seq<Byte>>, width: nat)
    requires Rectangular(image, width)
    ensures ScaledRows(image, width, |image|) == image
  {
    hide Nearest;
    forall y | 0 <= y < |image| && width > 0
      ensures ScaledRow(image[Nearest(y, |image|, |image|)], width) == image[y]
    {
      SameSize(y, |image|);
      forall x | 0 <= x < width ensures ScaledRow(image[y], width)[x] == image[y][x] {
        SameSize(x, width);
      }
    }
  }

  lemma ScaleElement(s: seq<Byte>, row: seq<Byte>, start: nat, at: nat, width: nat, x: nat)
    requires start + |row| <= |s| && row == s[start..start + |row|] && row != [] && at + width <= |s| && x < width
    requires Disjoint(at, width, start, |row|)
    ensures var t := Overwrite(s, at, ScaledRow(row, width)[..x]);
            var k := start + Nearest(x, |row|, width);
            t[at + x := t[k]] == Overwrite(s, at, ScaledRow(row, width)[..x + 1])
  {
    hide Nearest, Overwrite;
    assert ScaledRow(row, width)[x] == row[Nearest(x, |row|, width)];
    hide ScaledRow;
    ReadKept(s, at, ScaledRow(row, width)[..x], start + Nearest(x, |row|, width));
    NextByte(s, at, ScaledRow(row, width), x);
  }

  method ScaleRow(memory: array<Byte>, start: nat, srcWidth: nat, at: nat, width: nat)
    requires start + srcWidth <= memory.Length && at + width <= memory.Length && (width > 0 ==> srcWidth > 0)
    requires Disjoint(at, width, start, srcWidth)
    modifies memory
    ensures memory[..] == Overwrite(old(memory[..]), at, ScaledRow(old(memory[start..start + srcWidth]), width))
  {
    hide Nearest, Overwrite, ScaledRow;
    ghost var before, row := memory[..], memory[start..start + srcWidth];
    NothingYet(before, at, ScaledRow(row, width));
    for x := 0 to width
      invariant memory[..] == Overwrite(before, at, ScaledRow(row, width)[..x])
    {
      ScaleElement(before, row, start, at, width, x);
      memory[at + x] := memory[start + Nearest(x, srcWidth, width)];
    }
    assert ScaledRow(row, width)[..width] == ScaledRow(row, width);
  }

  /** One turn of the scaling loop. */
  lemma ScaleRowStep(before: seq<Byte>, s: seq<Byte>, src: Plane, dst: Plane,
                     image: seq<seq<Byte>>, scaled: seq<seq<Byte>>, sy: nat, y: nat)
    requires Fits(src, |s|) && Writable(dst, |s|) && Apart(dst, src)
    requires sy < src.rows == |image| && y < dst.rows == |scaled| && Rectangular(scaled, dst.width)
    requires Holds(s, src, image, src.rows) && Holds(s, dst, scaled, y) && Kept(before, s, dst, y)
    ensures Row(s, src, sy) == image[sy]
    ensures var t := Overwrite(s, Start(dst, y), scaled[y]);
            Holds(t, src, image, src.rows) && Holds(t, dst, scaled, y + 1) && Kept(before, t, dst, y + 1)
  {
    hide Overwrite, Start, Disjoint;
    HoldsKept(s, Start(dst, y), scaled[y], src, image, src.rows);
    HoldsNext(s, dst, scaled, y);
    KeptNext(before, s, dst, y, scaled[y]);
  }

  lemma NoColumns(s: seq<Byte>, l: Plane, image: seq<seq<Byte>>)
    requires Fits(l, |s|) && l.width == 0 && |image| == l.rows && Rectangular(image, 0)
    ensures Written(s, s, l, image)
  {
    assert forall y :: 0 <= y < l.rows ==> Rows(s, l)[y] == Row(s, l, y);
  }

  lemma NearestRow(image: seq<seq<Byte>>, width: nat, height: nat, y: nat)
    requires image != [] && width > 0 && y < height && forall i :: 0 <= i < |image| ==> image[i] != []
    ensures ScaledRows(image, width, height)[y] == ScaledRow(image[Nearest(y, |image|, height)], width)
  {
  }

  method ScalePlanePoint(memory: array<Byte>, src: Plane, dst: Plane)
    requires Fits(src, memory.Length) && Writable(dst, memory.Length) && Apart(src, dst)
    requires dst.width > 0 && dst.rows > 0 ==> src.width > 0 && src.rows > 0
    modifies memory
    ensures Written(old(memory[..]), memory[..], dst, ScaledRows(Rows(old(memory[..]), src), dst.width, dst.rows))
  {
    hide Overwrite, Start, Rows, Nearest, ScaledRow, ScaledRows, Kept, Holds;
    ghost var before := memory[..];
    ghost var image := Rows(before, src);
    if src.width == dst.width && src.rows == dst.rows {
      ScaleSameSize(image, dst.width);
      CopyPlane(memory, src, dst);
      return;
    }
    ghost var scaled := ScaledRows(image, dst.width, dst.rows);
    NoRowsYet(before, dst, scaled);
    AllHeld(before, src, image);
    ApartSwaps(src, dst);
    if dst.width == 0 {  // the loop over columns is empty for every row
      NoColumns(before, dst, scaled);
      return;
    }
    for y := 0 to dst.rows
      invariant Holds(memory[..], src, image, src.rows)
      invariant Holds(memory[..], dst, scaled, y) && Kept(before, memory[..], dst, y)
    {
      var sy := Nearest(y, src.rows, dst.rows);
      NearestRow(image, dst.width, dst.rows, y);
      ScaleRowStep(before, memory[..], src, dst, image, scaled, sy, y);
      SameSlice(memory, Start(src, sy), Start(src, sy) + src.width);
      ScaleRow(memory, Start(src, sy), src.width, Start(dst, y), dst.width);
    }
    AllHeld(memory[..], dst, scaled);
    KeptIsKeptBut(before, memory[..], dst);
  }
}
