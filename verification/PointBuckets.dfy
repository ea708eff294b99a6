/** The bounded row queue and the torque point buckets built from it. */
module PointBuckets {
  import opened Sequences

  type Row = seq<real>

  // ---------- the ring buffer ----------

  /** What the array setter may be given. */
  datatype ArrayLike = Matrix(rows: seq<Row>, cols: nat) | OtherShape

  /** Appending to the last `n` elements and keeping `n` is the same as keeping the last `n` of the longer list. */
  lemma LastNAppend<T>(s: seq<T>, x: T, n: nat)
    requires n > 0
    ensures LastN(s + [x], n) == LastN(LastN(s, n) + [x], n)
    ensures LastN(s + [x], n) == (if |LastN(s, n)| < n then LastN(s, n) else LastN(s, n)[1..]) + [x]
  {
  }

  /** Elements of a ring of rows, oldest first. */
  function Ring(rows: seq<Row>, start: nat, len: nat): (r: seq<Row>)
    requires start < |rows| && len <= |rows|
    ensures |r| == len
  {
    if start + len <= |rows| then rows[start..start + len] else rows[start..] + rows[..start + len - |rows|]
  }

  lemma RingFromZero(rows: seq<Row>, len: nat)
    requires 0 < |rows| && len <= |rows|
    ensures Ring(rows, 0, len) == rows[..len]
  {
  }

  /** A ring that is not full starts at slot 0, and writing after the newest element appends it. */
  lemma RingGrows(rows: seq<Row>, len: nat, pt: Row)
    requires len < |rows|
    ensures Ring(rows[len := pt], 0, len + 1) == Ring(rows, 0, len) + [pt]
  {
  }

  /** In a full ring the oldest element is overwritten by the newest. */
  lemma RingTurns(rows: seq<Row>, start: nat, pt: Row)
    requires start < |rows|
    ensures var next := if start + 1 == |rows| then 0 else start + 1;
            Ring(rows[start := pt], next, |rows|) == Ring(rows, start, |rows|)[1..] + [pt]
  {
    var after := rows[start := pt];
    assert Ring(rows, start, |rows|)[1..] == rows[start + 1..] + rows[..start];
    assert after[..start + 1] == rows[..start] + [pt] && after[start + 1..] == rows[start + 1..];
  }

  lemma Wrap(i: nat, n: nat)
    requires 0 < n
    ensures i < n ==> i % n == i && (i + n) % n == i
    ensures i == n ==> i % n == 0
  {
  }

  /** A new buffer of `n` rows that starts with `kept`; the other rows are left unset. */
  method CopyRows(kept: seq<Row>, n: nat) returns (stored: array<Row>)
    requires |kept| <= n
    ensures fresh(stored) && stored.Length == n && stored[..][..|kept|] == kept
  {
    stored := new Row[n];
    for i := 0 to |kept|
      invariant stored[..i] == kept[..i]
    {
      stored[i] := kept[i];
    }
  }

  class NPQueue {
    const maxlen: nat
    const rowsize: nat
    var rows: array<Row>
    var len: nat
    var start: nat
    ghost var history: seq<Row>  // the plain list that the queue stands for

    ghost predicate Valid()
      reads this, rows
    {
      && rows.Length == maxlen && len <= maxlen
      && (maxlen == 0 ==> start == 0)
      && (maxlen > 0 ==>
            && start < maxlen && (len < maxlen ==> start == 0)
            && Ring(rows[..], start, len) == LastN(history, maxlen))
    }

    /** What the queue holds. */
    ghost function Contents(): seq<Row>
      reads this
    {
      LastN(history, maxlen)
    }

    constructor (maxlen: nat, rowsize: nat)
      ensures Valid() && this.maxlen == maxlen && this.rowsize == rowsize && history == [] && fresh(rows)
    {
      this.maxlen := maxlen;
      this.rowsize := rowsize;
      rows := new Row[maxlen];
      len, start, history := 0, 0, [];
    }

    /** The stored rows: the last `maxlen` of everything appended since the last assignment. */
    method Arr() returns (a: seq<Row>)
      requires Valid()
      ensures a == LastN(history, maxlen)
    {
      if len == 0 {
        return [];
      }
      if len < maxlen || start == 0 {
        return rows[..len];
      }
      a := rows[start..] + rows[..start];
    }

    method SetArr(arr: ArrayLike) returns (ok: bool)
      requires Valid() && maxlen > 0
      modifies this
      ensures Valid() && (rows == old(rows) || fresh(rows))
      ensures ok <==> arr.Matrix? && arr.cols == rowsize
      ensures history == if ok then arr.rows else old(history)
    {
      if arr.OtherShape? || arr.cols != rowsize {
        return false;
      }
      var kept := if |arr.rows| > maxlen then arr.rows[|arr.rows| - maxlen..] else arr.rows;
      assert kept == LastN(arr.rows, maxlen);
      hide LastN, Ring;
      var stored := CopyRows(kept, maxlen);
      RingFromZero(stored[..], |kept|);
      rows, len, start := stored, |kept|, 0;
      history := arr.rows;
      ok := true;
    }

    method Append(pt: Row)
      requires Valid() && maxlen > 0 && |pt| == rowsize
      modifies this, rows
      ensures Valid() && rows == old(rows)
      ensures history == old(history) + [pt]
    {
      hide Ring, LastN;
      LastNAppend(history, pt, maxlen);
      Wrap(start, maxlen);
      Wrap(len, maxlen);
      Wrap(start + 1, maxlen);
      var idx := (start + len) % maxlen;
      ghost var before := rows[..];
      rows[idx] := pt;
      assert rows[..] == before[idx := pt];
      if len < maxlen {
        RingGrows(before, len, pt);
        len := len + 1;
      } else {
        RingTurns(before, start, pt);
        start := (start + 1) % maxlen;
      }
      history := history + [pt];
    }
  }

  // ---------- torque buckets ----------

  datatype Bounds = Bounds(low: real, high: real)

  type Point = (real, real)

  predicate Within(b: Bounds, x: real) {
    b.low <= x < b.high
  }

  /** The first bucket that takes `x`, or the number of buckets. */
  function Find(bounds: seq<Bounds>, x: real): (k: nat)
    ensures k <= |bounds|
    ensures k < |bounds| ==> Within(bounds[k], x)
    ensures forall j :: 0 <= j < k ==> !Within(bounds[j], x)
  {
    if bounds == [] then 0 else if Within(bounds[0], x) then 0 else 1 + Find(bounds[1..], x)
  }

  lemma FindHere(bounds: seq<Bounds>, x: real, k: nat)
    requires k < |bounds| && k <= Find(bounds, x)
    ensures Within(bounds[k], x) <==> Find(bounds, x) == k
  {
  }

  /** Contents of the queues after one more point; a point outside all bounds is dropped. */
  function AddPoint(bounds: seq<Bounds>, cap: nat, queues: seq<seq<Row>>, p: Point): (r: seq<seq<Row>>)
    requires |queues| == |bounds|
    ensures |r| == |bounds|
  {
    var k := Find(bounds, p.0);
    if k == |bounds| then queues else queues[k := LastN(queues[k] + [[p.0, 1.0, p.1]], cap)]
  }

  function AddAll(bounds: seq<Bounds>, cap: nat, queues: seq<seq<Row>>, points: seq<Point>): (r: seq<seq<Row>>)
    requires |queues| == |bounds|
    ensures |r| == |bounds|
    decreases |points|
  {
    if points == [] then queues else AddAll(bounds, cap, AddPoint(bounds, cap, queues, points[0]), points[1..])
  }

  lemma {:induction false} AddAllConcat(
      bounds: seq<Bounds>, cap: nat, queues: seq<seq<Row>>, a: seq<Point>, b: seq<Point>)
    requires |queues| == |bounds|
    ensures AddAll(bounds, cap, queues, a + b) == AddAll(bounds, cap, AddAll(bounds, cap, queues, a), b)
    decreases |a|
  {
    if a == [] {
      assert a + b == b;
    } else {
      assert (a + b)[1..] == a[1..] + b;
      AddAllConcat(bounds, cap, AddPoint(bounds, cap, queues, a[0]), a[1..], b);
    }
  }

  function Empty(n: nat): seq<seq<Row>> {
    seq(n, i => [])
  }

  predicate StoredRow(bounds: seq<Bounds>, k: nat, r: Row) {
    |r| == 3 && r[1] == 1.0 && Find(bounds, r[0]) == k
  }

  /** Every stored row is a point of its own bucket, and no bucket is over its capacity. */
  ghost predicate Stored(bounds: seq<Bounds>, cap: nat, queues: seq<seq<Row>>) {
    && |queues| == |bounds|
    && forall k :: 0 <= k < |queues| ==>
         |queues[k]| <= cap && forall j :: 0 <= j < |queues[k]| ==> StoredRow(bounds, k, queues[k][j])
  }

  lemma AddPointStored(bounds: seq<Bounds>, cap: nat, queues: seq<seq<Row>>, p: Point)
    requires Stored(bounds, cap, queues)
    ensures Stored(bounds, cap, AddPoint(bounds, cap, queues, p))
  {
  }

  lemma {:induction false} AddAllStored(bounds: seq<Bounds>, cap: nat, queues: seq<seq<Row>>, points: seq<Point>)
    requires Stored(bounds, cap, queues)
    ensures Stored(bounds, cap, AddAll(bounds, cap, queues, points))
    decreases |points|
  {
    assert |queues| == |bounds|;
    hide Stored, AddPoint;
    if points != [] {
      AddPointStored(bounds, cap, queues, points[0]);
      AddAllStored(bounds, cap, AddPoint(bounds, cap, queues, points[0]), points[1..]);
    }
  }

  /** The (x, y) columns that go into the cache. */
  function Columns(rows: seq<Row>): seq<Point>
    requires forall j :: 0 <= j < |rows| ==> |rows[j]| == 3
  {
    seq(|rows|, j requires 0 <= j < |rows| => (rows[j][0], rows[j][2]))
  }

  lemma ColumnsConcat(a: seq<Row>, b: seq<Row>)
    requires forall j :: 0 <= j < |a| ==> |a[j]| == 3
    requires forall j :: 0 <= j < |b| ==> |b[j]| == 3
    ensures forall j :: 0 <= j < |a + b| ==> |(a + b)[j]| == 3
    ensures Columns(a + b) == Columns(a) + Columns(b)
  {
  }

  /** `queues` with bucket `k` cut to its first `j` rows and the later ones empty. */
  function Partial(queues: seq<seq<Row>>, k: nat, j: nat): (r: seq<seq<Row>>)
    requires k < |queues| ==> j <= |queues[k]|
    ensures |r| == |queues|
  {
    seq(|queues|, i requires 0 <= i < |queues| => if i < k then queues[i] else if i == k then queues[i][..j] else [])
  }

  lemma LoadRow(bounds: seq<Bounds>, cap: nat, queues: seq<seq<Row>>, k: nat, j: nat)
    requires Stored(bounds, cap, queues) && k < |queues| && j < |queues[k]|
    ensures AddPoint(bounds, cap, Partial(queues, k, j), (queues[k][j][0], queues[k][j][2]))
         == Partial(queues, k, j + 1)
  {
    hide Find;
    var r := queues[k][j];
    assert StoredRow(bounds, k, r);
    assert [r[0], 1.0, r[2]] == r;
    assert queues[k][..j] + [r] == queues[k][..j + 1];
  }

  lemma {:induction false} LoadBucket(bounds: seq<Bounds>, cap: nat, queues: seq<seq<Row>>, k: nat, j: nat)
    requires Stored(bounds, cap, queues) && k < |queues| && j <= |queues[k]|
    ensures forall i :: j <= i < |queues[k]| ==> |queues[k][i]| == 3
    ensures AddAll(bounds, cap, Partial(queues, k, j), Columns(queues[k][j..])) == Partial(queues, k + 1, 0)
    decreases |queues[k]| - j
  {
    hide AddPoint;
    assert forall i :: j <= i < |queues[k]| ==> StoredRow(bounds, k, queues[k][i]);
    if j == |queues[k]| {
      assert queues[k][..j] == queues[k] && queues[k][j..] == [];
      assert k + 1 < |queues| ==> queues[k + 1][..0] == [];
      assert Partial(queues, k, j) == Partial(queues, k + 1, 0);
    } else {
      LoadRow(bounds, cap, queues, k, j);
      LoadBucket(bounds, cap, queues, k, j + 1);
      var r, later := queues[k][j], queues[k][j + 1..];
      assert queues[k][j..] == [r] + later;
      ColumnsConcat([r], later);
      assert Columns([r]) == [(r[0], r[2])];
    }
  }

  lemma {:induction false} LoadBuckets(bounds: seq<Bounds>, cap: nat, queues: seq<seq<Row>>, k: nat)
    requires Stored(bounds, cap, queues) && k <= |queues|
    ensures forall i :: 0 <= i < |Flatten(queues[k..])| ==> |Flatten(queues[k..])[i]| == 3
    ensures AddAll(bounds, cap, Partial(queues, k, 0), Columns(Flatten(queues[k..]))) == queues
    decreases |queues| - k
  {
    if k == |queues| {
      assert Partial(queues, k, 0) == queues;
    } else {
      LoadBucket(bounds, cap, queues, k, 0);
      LoadBuckets(bounds, cap, queues, k + 1);
      var first, later := queues[k], Flatten(queues[k + 1..]);
      assert queues[k..][1..] == queues[k + 1..];
      assert Flatten(queues[k..]) == first + later;
      assert first[0..] == first;
      hide Flatten, Stored, AddAll, Partial;
      ColumnsConcat(first, later);
      AddAllConcat(bounds, cap, Partial(queues, k, 0), Columns(first), Columns(later));
    }
  }

  /**
   Saving the points and loading them into fresh buckets rebuilds the same buckets in the same order,
   whatever points were added before.  The bounds need not even be disjoint: the first match decides both times.
   */
  lemma SaveLoadRoundTrip(bounds: seq<Bounds>, cap: nat, history: seq<Point>)
    ensures var queues := AddAll(bounds, cap, Empty(|bounds|), history);
            && (forall j :: 0 <= j < |Flatten(queues)| ==> |Flatten(queues)[j]| == 3)
            && AddAll(bounds, cap, Empty(|bounds|), Columns(Flatten(queues))) == queues
  {
    var queues := AddAll(bounds, cap, Empty(|bounds|), history);
    assert Stored(bounds, cap, Empty(|bounds|));
    AddAllStored(bounds, cap, Empty(|bounds|), history);
    LoadBuckets(bounds, cap, queues, 0);
    assert queues[0..] == queues;
    assert Partial(queues, 0, 0) == Empty(|bounds|);
  }

  /** The rows that a list of points puts into bucket `k`. */
  function RowsFor(bounds: seq<Bounds>, points: seq<Point>, k: nat): seq<Row> {
    if points == [] then []
    else
      var init, p := points[..|points| - 1], points[|points| - 1];
      RowsFor(bounds, init, k) + if Find(bounds, p.0) == k then [[p.0, 1.0, p.1]] else []
  }

  lemma AddAllSnoc(bounds: seq<Bounds>, cap: nat, queues: seq<seq<Row>>, points: seq<Point>, p: Point)
    requires |queues| == |bounds|
    ensures AddAll(bounds, cap, queues, points + [p])
         == AddPoint(bounds, cap, AddAll(bounds, cap, queues, points), p)
  {
    hide AddPoint;
    AddAllConcat(bounds, cap, queues, points, [p]);
    var mid := AddAll(bounds, cap, queues, points);
    assert AddAll(bounds, cap, mid, [p]) == AddAll(bounds, cap, AddPoint(bounds, cap, mid, p), []);
  }

  /** Each bucket holds the last `cap` of its own points, as rows x, 1, y in order of arrival. */
  lemma {:induction false} BucketContents(bounds: seq<Bounds>, cap: nat, points: seq<Point>, k: nat)
    requires k < |bounds| && cap > 0
    ensures AddAll(bounds, cap, Empty(|bounds|), points)[k] == LastN(RowsFor(bounds, points, k), cap)
    decreases |points|
  {
    hide AddAll, LastN, Find;
    if points == [] {
      NothingAdded(bounds, cap);
      LastNone(cap);
    } else {
      var init, p := points[..|points| - 1], points[|points| - 1];
      assert points == init + [p];
      BucketContents(bounds, cap, init, k);
      AddAllSnoc(bounds, cap, Empty(|bounds|), init, p);
      LastNAppend(RowsFor(bounds, init, k), [p.0, 1.0, p.1], cap);
      assert RowsFor(bounds, init, k) + [] == RowsFor(bounds, init, k);
    }
  }

  lemma NothingAdded(bounds: seq<Bounds>, cap: nat)
    ensures AddAll(bounds, cap, Empty(|bounds|), []) == Empty(|bounds|)
  {
  }

  const STEER_BUCKET_BOUNDS: seq<Bounds> := [
    Bounds(-0.5, -0.3), Bounds(-0.3, -0.2), Bounds(-0.2, -0.1), Bounds(-0.1, 0.0),
    Bounds(0.0, 0.1), Bounds(0.1, 0.2), Bounds(0.2, 0.3), Bounds(0.3, 0.5)]

  /** The steer buckets partition [-0.5, 0.5): a torque lands in exactly one, or in none outside. */
  lemma SteerBucketsPartition(x: real)
    ensures forall j, k | 0 <= j < 8 && 0 <= k < 8 ::
              Within(STEER_BUCKET_BOUNDS[j], x) && Within(STEER_BUCKET_BOUNDS[k], x) ==> j == k
    ensures Find(STEER_BUCKET_BOUNDS, x) ==
            if x < -0.5 || x >= 0.5 then 8 else if x < -0.3 then 0 else if x < -0.2 then 1 else if x < -0.1 then 2
            else if x < 0.0 then 3 else if x < 0.1 then 4 else if x < 0.2 then 5 else if x < 0.3 then 6 else 7
  {
    hide Find;
    var b := STEER_BUCKET_BOUNDS;
    var k := Find(b, x);
    assert -0.5 <= x < 0.5 ==>
        Within(b[0], x) || Within(b[1], x) || Within(b[2], x) || Within(b[3], x)
        || Within(b[4], x) || Within(b[5], x) || Within(b[6], x) || Within(b[7], x);
    assert k < 8 ==> Within(b[k], x);
  }

  /** What each queue holds. */
  ghost function ContentsOf(queues: seq<NPQueue>): (r: seq<seq<Row>>)
    reads queues
    ensures |r| == |queues|
  {
    seq(|queues|, k requires 0 <= k < |queues| reads queues => queues[k].Contents())
  }

  /** Queues of the same size that share neither objects nor buffers. */
  ghost predicate Separate(queues: seq<NPQueue>, cap: nat)
    reads queues, set q | q in queues :: q.rows
  {
    && (forall k :: 0 <= k < |queues| ==> queues[k].Valid() && queues[k].maxlen == cap && queues[k].rowsize == 3)
    && forall j, k :: 0 <= j < k < |queues| ==> queues[j] != queues[k] && queues[j].rows != queues[k].rows
  }

  method MakeQueues(n: nat, cap: nat) returns (queues: seq<NPQueue>)
    ensures |queues| == n && Separate(queues, cap) && ContentsOf(queues) == Empty(n)
    ensures forall q :: q in queues ==> fresh(q) && fresh(q.rows)
  {
    hide NPQueue.Valid, LastN;
    queues := [];
    for k := 0 to n
      invariant |queues| == k && Separate(queues, cap) && forall i :: 0 <= i < k ==> queues[i].Contents() == []
      invariant forall q :: q in queues ==> fresh(q) && fresh(q.rows)
    {
      var q := new NPQueue(cap, 3);
      LastNone(cap);
      queues := queues + [q];
    }
  }

  lemma LastNone(n: nat)
    ensures LastN<Row>([], n) == []
  {
  }

  /** Appends to one of the queues; the others keep what they hold. */
  method AppendTo(queues: seq<NPQueue>, k: nat, row: Row, cap: nat)
    requires Separate(queues, cap) && k < |queues| && cap > 0 && |row| == 3
    modifies queues[k], queues[k].rows
    ensures Separate(queues, cap) && forall q :: q in queues ==> q.rows == old(q.rows)
    ensures ContentsOf(queues) == old(ContentsOf(queues))[k := LastN(old(ContentsOf(queues))[k] + [row], cap)]
  {
    hide NPQueue.Valid, LastN;
    LastNAppend(queues[k].history, row, cap);
    queues[k].Append(row);
  }

  class TorqueBuckets {
    const bounds: seq<Bounds>
    const pointsPerBucket: nat
    const queues: seq<NPQueue>

    ghost predicate Valid()
      reads queues, set q | q in queues :: q.rows
    {
      && |queues| == |bounds| && Separate(queues, pointsPerBucket)
      && Stored(bounds, pointsPerBucket, ContentsOf(queues))
    }

    constructor (bounds: seq<Bounds>, pointsPerBucket: nat)
      ensures Valid() && this.bounds == bounds && this.pointsPerBucket == pointsPerBucket
      ensures forall q :: q in queues ==> fresh(q) && fresh(q.rows)
      ensures ContentsOf(queues) == Empty(|bounds|)
    {
      hide Separate, ContentsOf;
      var made := MakeQueues(|bounds|, pointsPerBucket);
      this.bounds := bounds;
      this.pointsPerBucket := pointsPerBucket;
      queues := made;
    }

    method Add(p: Point)
      requires Valid() && pointsPerBucket > 0
      modifies queues, set q | q in queues :: q.rows
      ensures Valid() && forall q :: q in queues ==> q.rows == old(q.rows)
      ensures ContentsOf(queues) == AddPoint(bounds, pointsPerBucket, old(ContentsOf(queues)), p)
    {
      hide Stored, LastN, Find, Within, Separate, ContentsOf;
      AddPointStored(bounds, pointsPerBucket, ContentsOf(queues), p);
      for k := 0 to |bounds|
        invariant k <= Find(bounds, p.0)
        invariant Separate(queues, pointsPerBucket) && ContentsOf(queues) == old(ContentsOf(queues))
        invariant forall q :: q in queues ==> q.rows == old(q.rows)
      {
        FindHere(bounds, p.0, k);
        if Within(bounds[k], p.0) {
          AppendTo(queues, k, [p.0, 1.0, p.1], pointsPerBucket);
          break;
        }
      }
    }

    method LoadPoints(points: seq<Point>)
      requires Valid() && pointsPerBucket > 0
      modifies queues, set q | q in queues :: q.rows
      ensures Valid() && forall q :: q in queues ==> q.rows == old(q.rows)
      ensures ContentsOf(queues) == AddAll(bounds, pointsPerBucket, old(ContentsOf(queues)), points)
    {
      hide Stored, AddPoint, Separate, ContentsOf;
      ghost var before := ContentsOf(queues);
      assert points[0..] == points;
      for i := 0 to |points|
        invariant Valid() && forall q :: q in queues ==> q.rows == old(q.rows)
        invariant AddAll(bounds, pointsPerBucket, ContentsOf(queues), points[i..])
               == AddAll(bounds, pointsPerBucket, before, points)
      {
        assert points[i..][1..] == points[i + 1..];
        Add(points[i]);
      }
      assert points[|points|..] == [];
    }

    /** All rows of all buckets, bucket by bucket, oldest first. */
    method GetPoints() returns (points: seq<Row>)
      requires Valid()
      ensures points == Flatten(ContentsOf(queues))
    {
      hide Flatten, Stored;
      points := [];
      FlattenNone();
      ghost var contents := ContentsOf(queues);
      for k := 0 to |queues|
        invariant points == Flatten(contents[..k])
      {
        var rows := queues[k].Arr();
        assert contents[..k + 1] == contents[..k] + [contents[k]];
        FlattenSnoc(contents[..k], contents[k]);
        points := points + rows;
      }
      assert contents[..|queues|] == contents;
    }
  }

  lemma FlattenNone()
    ensures Flatten<Row>([]) == []
  {
  }

  /** New buckets that have been given the points, as when a cache is restored. */
  method Collect(bounds: seq<Bounds>, cap: nat, points: seq<Point>) returns (b: TorqueBuckets)
    requires cap > 0
    ensures b.Valid() && b.bounds == bounds && b.pointsPerBucket == cap
    ensures ContentsOf(b.queues) == AddAll(bounds, cap, Empty(|bounds|), points)
  {
    hide ContentsOf, AddAll, Stored;
    b := new TorqueBuckets(bounds, cap);
    b.LoadPoints(points);
  }

  /** The cache path end to end: collect, save the two columns, and restore into new buckets. */
  method SaveAndRestore(bounds: seq<Bounds>, cap: nat, history: seq<Point>)
      returns (live: TorqueBuckets, restored: TorqueBuckets)
    requires cap > 0
    ensures live.Valid() && restored.Valid()
    ensures ContentsOf(live.queues) == AddAll(bounds, cap, Empty(|bounds|), history)
    ensures ContentsOf(restored.queues) == ContentsOf(live.queues)
  {
    hide ContentsOf, AddAll, Flatten, Columns, Separate, Stored;
    live := Collect(bounds, cap, history);
    SaveLoadRoundTrip(bounds, cap, history);
    var points := live.GetPoints();
    restored := Collect(bounds, cap, Columns(points));
  }
}
