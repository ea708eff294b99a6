/** Splitting a bound profile package into the pieces sent to the eUICC (section 5.7.6 of GSMA SGP.22). */
module BoundProfile {
  import opened Sequences
  import opened Tlv

  const TAG_BPP := 0xBF36
  const TAG_BPP_COMMAND := 0xBF23

  // ---------- the shortcut for header lengths ----------

  /** Indexing in the source fails on anything shorter. */
  predicate HasHeader(data: seq<Byte>) {
    |data| >= 2 && (data[0] % 32 == 31 ==> |data| >= 3)
  }

  function ParseTlvHeaderLen(data: seq<Byte>): nat
    requires HasHeader(data)
  {
    var tagLen := if data[0] % 32 == 31 then 2 else 1;
    var lengthByte := data[tagLen];
    tagLen + if lengthByte >= 128 then 1 + lengthByte % 128 else 1
  }

  /** The shortcut agrees with the parser on every element whose tag has at most two bytes. */
  lemma HeaderLenAgrees(s: seq<Byte>)
    requires ReadHead(s).Head? && ReadHead(s).tag < 0x1_0000
    ensures HasHeader(s[..ReadHead(s).end])
    ensures ParseTlvHeaderLen(s[..ReadHead(s).end]) == ReadHead(s).valueStart
  {
  }

  // ---------- elements of a parsed list ----------

  /** `it` is exactly the element that the parser finds at its start position in `s`. */
  ghost predicate ElementAt(s: seq<Byte>, it: Item) {
    && it.start < it.end <= |s| && |it.value| <= it.end - it.start
    && ReadHead(s[it.start..]) == Head(it.tag, it.end - it.start - |it.value|, it.end - it.start)
    && it.value == s[it.end - |it.value|..it.end]
  }

  lemma {:induction false} ItemsAreElements(s: seq<Byte>, base: nat, k: nat)
    requires base <= |s| && k < |Items(s[base..], base)|
    ensures ElementAt(s, Items(s[base..], base)[k])
    ensures Items(s[base..], base)[k].start == if k == 0 then base else Items(s[base..], base)[k - 1].end
    decreases k
  {
    hide ReadHead;
    var h := ReadHead(s[base..]);
    var next := base + h.end;
    assert s[base..][h.end..] == s[next..];
    assert s[base..][h.valueStart..h.end] == s[base + h.valueStart..next];
    if k > 0 {
      ItemsAreElements(s, next, k - 1);
    }
  }

  ghost predicate AllElements(s: seq<Byte>, items: seq<Item>) {
    forall k :: 0 <= k < |items| ==> ElementAt(s, items[k])
  }

  lemma ParsedElements(s: seq<Byte>)
    ensures AllElements(s, Items(s, 0))
  {
    hide ElementAt;
    assert s[0..] == s;
    forall k | 0 <= k < |Items(s, 0)| ensures ElementAt(s, Items(s, 0)[k]) {
      ItemsAreElements(s, 0, k);
    }
  }

  /** Parsed elements follow each other without gaps. */
  lemma ParsedContiguous(s: seq<Byte>, k: nat)
    requires k < |Items(s, 0)|
    ensures Items(s, 0)[k].start == if k == 0 then 0 else Items(s, 0)[k - 1].end
  {
    assert s[0..] == s;
    ItemsAreElements(s, 0, k);
  }

  /** The header of an element with a short tag. */
  lemma ElementHeader(s: seq<Byte>, it: Item)
    requires ElementAt(s, it) && it.tag < 0x1_0000
    ensures HasHeader(s[it.start..it.end])
    ensures ParseTlvHeaderLen(s[it.start..it.end]) == it.end - it.start - |it.value|
  {
    assert s[it.start..][..it.end - it.start] == s[it.start..it.end];
    HeaderLenAgrees(s[it.start..]);
    hide ReadHead, HasHeader, ParseTlvHeaderLen;
  }

  /** The bytes of each element. */
  function Slices(s: seq<Byte>, items: seq<Item>): seq<seq<Byte>>
    requires AllElements(s, items)
    decreases |items|
  {
    if items == [] then []
    else Slices(s, items[..|items| - 1]) + [s[items[|items| - 1].start..items[|items| - 1].end]]
  }

  /** Element by element, the slices are the parsed prefix. */
  lemma {:induction false} SlicesCover(s: seq<Byte>, k: nat)
    requires AllElements(s, Items(s, 0)) && k <= |Items(s, 0)|
    ensures Flatten(Slices(s, Items(s, 0)[..k])) == s[..EndOf(Items(s, 0)[..k], 0)]
    decreases k
  {
    hide ElementAt, Items, Flatten;
    var items := Items(s, 0);
    if k == 0 {
      FlattenNothing();
    } else {
      var last := items[k - 1];
      SliceBounds(s, last);
      ParsedContiguous(s, k - 1);
      assert items[..k][..k - 1] == items[..k - 1];
      SlicesCover(s, k - 1);
      FlattenSnoc(Slices(s, items[..k - 1]), s[last.start..last.end]);
      assert s[..last.start] + s[last.start..last.end] == s[..last.end];
    }
  }

  lemma SliceBounds(s: seq<Byte>, it: Item)
    requires ElementAt(s, it)
    ensures it.start < it.end <= |s| && |it.value| <= it.end - it.start
  {
  }

  lemma SlicesAreParsedPrefix(s: seq<Byte>)
    ensures AllElements(s, Items(s, 0))
    ensures Flatten(Slices(s, Items(s, 0))) == s[..Consumed(s)]
  {
    ParsedElements(s);
    SlicesCover(s, |Items(s, 0)|);
    assert Items(s, 0)[..|Items(s, 0)|] == Items(s, 0);
    ConsumedEnds(s, 0);
  }

  // ---------- splitting ----------

  /** Position of the first item with this tag, or the number of items. */
  function FirstWithTag(items: seq<Item>, tag: nat): (k: nat)
    ensures k <= |items|
    ensures k < |items| ==> items[k].tag == tag
    ensures forall j :: 0 <= j < k ==> items[j].tag != tag
  {
    if items == [] then 0 else if items[0].tag == tag then 0 else 1 + FirstWithTag(items[1..], tag)
  }

  /** The child `c` lies in `bpp` at its position in `root` moved by `valStart`. */
  ghost predicate ChildOf(bpp: seq<Byte>, valStart: nat, root: seq<Byte>, c: Item) {
    valStart + |root| <= |bpp| && bpp[valStart..valStart + |root|] == root && ElementAt(root, c)
  }

  lemma ChildBounds(bpp: seq<Byte>, valStart: nat, root: seq<Byte>, c: Item)
    requires ChildOf(bpp, valStart, root, c)
    ensures c.start < c.end <= |root| && |c.value| <= c.end - c.start && valStart + |root| <= |bpp|
    ensures bpp[valStart..valStart + |root|] == root && c.value == root[c.end - |c.value|..c.end] && ElementAt(root, c)
  {
  }

  /** The header of a constructed child, and the elements of its value. */
  function NestedChunksOf(bpp: seq<Byte>, valStart: nat, root: seq<Byte>, c: Item): seq<seq<Byte>>
    requires ChildOf(bpp, valStart, root, c) && c.tag < 0x1_0000
  {
    ElementHeader(root, c);
    ParsedElements(c.value);
    var headerLen := ParseTlvHeaderLen(root[c.start..c.end]);
    [bpp[valStart + c.start..valStart + c.start + headerLen]] + Slices(c.value, Items(c.value, 0))
  }

  /** The pieces of one child of the package. */
  function ChunksOf(bpp: seq<Byte>, valStart: nat, root: seq<Byte>, c: Item): seq<seq<Byte>>
    requires ChildOf(bpp, valStart, root, c)
  {
    if c.tag == TAG_BPP_COMMAND then [bpp[..valStart + c.end]]
    else if c.tag == 0xA0 || c.tag == 0xA2 then [bpp[valStart + c.start..valStart + c.end]]
    else if c.tag == 0xA1 || c.tag == 0xA3 then NestedChunksOf(bpp, valStart, root, c)
    else []
  }

  function AllChunks(bpp: seq<Byte>, valStart: nat, root: seq<Byte>, children: seq<Item>): seq<seq<Byte>>
    requires forall k :: 0 <= k < |children| ==> ChildOf(bpp, valStart, root, children[k])
    decreases |children|
  {
    if children == [] then []
    else AllChunks(bpp, valStart, root, children[..|children| - 1])
         + ChunksOf(bpp, valStart, root, children[|children| - 1])
  }

  /** Where the value of the package starts. */
  function ValueStart(bpp: seq<Byte>, package: Item): (n: nat)
    requires ElementAt(bpp, package) && package.tag == TAG_BPP
    ensures n + |package.value| == package.end && bpp[n..package.end] == package.value
  {
    ElementHeader(bpp, package);
    package.start + ParseTlvHeaderLen(bpp[package.start..package.end])
  }

  lemma PackageChildren(bpp: seq<Byte>, package: Item)
    requires ElementAt(bpp, package) && package.tag == TAG_BPP
    ensures forall k :: 0 <= k < |Items(package.value, 0)| ==>
              ChildOf(bpp, ValueStart(bpp, package), package.value, Items(package.value, 0)[k])
  {
    hide ElementAt, Items;
    ParsedElements(package.value);
    SliceBounds(bpp, package);
  }

  /** The chunks of a package, or an error when there is none. */
  function SplitBpp(bpp: seq<Byte>): Option<seq<seq<Byte>>> {
    var k := FirstWithTag(Items(bpp, 0), TAG_BPP);
    if k == |Items(bpp, 0)| then None
    else
      ParsedElements(bpp);
      var package := Items(bpp, 0)[k];
      PackageChildren(bpp, package);
      Some(AllChunks(bpp, ValueStart(bpp, package), package.value, Items(package.value, 0)))
  }

  method SplitPackage(bpp: seq<Byte>) returns (r: Option<seq<seq<Byte>>>)
    ensures r == SplitBpp(bpp)
  {
    hide Items, ElementAt, ChunksOf;
    var items := IterTlv(bpp);
    ParsedElements(bpp);
    var k := 0;
    while k < |items| && items[k].tag != TAG_BPP
      invariant 0 <= k <= |items|
      invariant forall j :: 0 <= j < k ==> items[j].tag != TAG_BPP
    {
      k := k + 1;
    }
    if k == |items| {
      return None;
    }
    var package := items[k];
    var root := package.value;
    ElementHeader(bpp, package);
    PackageChildren(bpp, package);
    SliceBounds(bpp, package);
    var valStart := package.start + ParseTlvHeaderLen(bpp[package.start..package.end]);
    var chunks: seq<seq<Byte>> := [];
    var children := IterTlv(root);
    for c := 0 to |children|
      invariant chunks == AllChunks(bpp, valStart, root, children[..c])
    {
      assert children[..c + 1][..c] == children[..c];
      var pieces := SplitChild(bpp, valStart, root, children[c]);
      chunks := chunks + pieces;
    }
    assert children[..|children|] == children;
    r := Some(chunks);
  }

  /** The pieces that one child appends. */
  method SplitChild(bpp: seq<Byte>, valStart: nat, root: seq<Byte>, c: Item) returns (pieces: seq<seq<Byte>>)
    requires ChildOf(bpp, valStart, root, c)
    ensures pieces == ChunksOf(bpp, valStart, root, c)
  {
    hide Items, ParseTlvHeaderLen, HasHeader, Slices, ElementAt;
    ChildBounds(bpp, valStart, root, c);
    pieces := [];
    if c.tag == TAG_BPP_COMMAND {
      pieces := [bpp[..valStart + c.end]];
    } else if c.tag == 0xA0 || c.tag == 0xA2 {
      pieces := [bpp[valStart + c.start..valStart + c.end]];
    } else if c.tag == 0xA1 || c.tag == 0xA3 {
      ElementHeader(root, c);
      var headerLen := ParseTlvHeaderLen(root[c.start..c.end]);
      var inner := SliceElements(c.value);
      pieces := [bpp[valStart + c.start..valStart + c.start + headerLen]] + inner;
    }
  }

  method SliceElements(value: seq<Byte>) returns (slices: seq<seq<Byte>>)
    ensures AllElements(value, Items(value, 0)) && slices == Slices(value, Items(value, 0))
  {
    hide Items, ElementAt;
    var inner := IterTlv(value);
    ParsedElements(value);
    slices := [];
    for k := 0 to |inner|
      invariant slices == Slices(value, inner[..k])
    {
      assert inner[..k + 1][..k] == inner[..k];
      SliceBounds(value, inner[k]);
      slices := slices + [value[inner[k].start..inner[k].end]];
    }
    assert inner[..|inner|] == inner;
  }

  // ---------- the chunks re-tile the package ----------

  /** A child that the splitter passes on whole. */
  predicate Kept(c: Item) {
    c.tag in {0xA0, 0xA1, 0xA2, 0xA3} && (c.tag in {0xA1, 0xA3} ==> FullyTiled(c.value))
  }

  lemma NestedSlice(bpp: seq<Byte>, valStart: nat, root: seq<Byte>, lo: nat, hi: nat)
    requires valStart + |root| <= |bpp| && bpp[valStart..valStart + |root|] == root && lo <= hi <= |root|
    ensures root[lo..hi] == bpp[valStart + lo..valStart + hi]
  {
    forall i | lo <= i < hi ensures root[i] == bpp[valStart + i] {
      assert bpp[valStart..valStart + |root|][i] == bpp[valStart + i];
    }
  }

  lemma FlattenOne<T>(x: seq<T>)
    ensures Flatten([x]) == x
  {
  }

  /** A nested child yields its header and the parsed part of its value. */
  lemma NestedPieces(bpp: seq<Byte>, valStart: nat, root: seq<Byte>, c: Item)
    requires ChildOf(bpp, valStart, root, c) && c.tag < 0x1_0000
    ensures |c.value| <= c.end && valStart + c.end <= |bpp| && c.start + |c.value| <= c.end
    ensures Flatten(NestedChunksOf(bpp, valStart, root, c)) ==
            bpp[valStart + c.start..valStart + c.end - |c.value|] + c.value[..Consumed(c.value)]
  {
    hide ChildOf, Items, Consumed, Slices, AllElements, ElementAt, ParseTlvHeaderLen, HasHeader, Flatten;
    ChildBounds(bpp, valStart, root, c);
    ElementHeader(root, c);
    SlicesAreParsedPrefix(c.value);
    var header := bpp[valStart + c.start..valStart + c.end - |c.value|];
    var inner := Slices(c.value, Items(c.value, 0));
    FlattenConcat([header], inner);
    FlattenOne(header);
    assert NestedChunksOf(bpp, valStart, root, c) == [header] + inner;
  }

  lemma PrefixOfPart(s: seq<Byte>, lo: nat, hi: nat, value: seq<Byte>, n: nat)
    requires lo + |value| <= hi <= |s| && value == s[hi - |value|..hi] && n <= |value|
    ensures var f := s[lo..hi - |value|] + value[..n];
            |f| <= hi - lo && (|f| == hi - lo <==> n == |value|) && (n == |value| ==> f == s[lo..hi])
  {
  }

  /** A child yields at most its own bytes, and all of them exactly when it is kept. */
  lemma ChildPieces(bpp: seq<Byte>, valStart: nat, root: seq<Byte>, c: Item)
    requires ChildOf(bpp, valStart, root, c) && c.tag != TAG_BPP_COMMAND
    ensures var f := Flatten(ChunksOf(bpp, valStart, root, c));
            && |f| <= c.end - c.start
            && (|f| == c.end - c.start <==> Kept(c))
            && (Kept(c) ==>
                  c.start < c.end && valStart + c.end <= |bpp| && f == bpp[valStart + c.start..valStart + c.end])
  {
    hide ChildOf, Items, Consumed, ElementAt, NestedChunksOf, Flatten;
    ChildBounds(bpp, valStart, root, c);
    if c.tag == 0xA1 || c.tag == 0xA3 {
      NestedPieces(bpp, valStart, root, c);
      NestedSlice(bpp, valStart, root, c.end - |c.value|, c.end);
      PrefixOfPart(bpp, valStart + c.start, valStart + c.end, c.value, Consumed(c.value));
    } else if c.tag == 0xA0 || c.tag == 0xA2 {
      FlattenOne(bpp[valStart + c.start..valStart + c.end]);
    } else {
      FlattenNothing();
    }
  }

  /** One BF23 first, and only one. */
  predicate CommandFirst(children: seq<Item>) {
    && children != [] && children[0].tag == TAG_BPP_COMMAND
    && forall k :: 0 < k < |children| ==> children[k].tag != TAG_BPP_COMMAND
  }

  lemma CommandPieces(bpp: seq<Byte>, valStart: nat, root: seq<Byte>, c: Item)
    requires ChildOf(bpp, valStart, root, c) && c.tag == TAG_BPP_COMMAND
    ensures valStart + c.end <= |bpp| && Flatten(ChunksOf(bpp, valStart, root, c)) == bpp[..valStart + c.end]
  {
  }

  /** Two pieces that each hold at most their part of `s` hold a whole prefix exactly when both are whole. */
  lemma ExtendPrefix(s: seq<Byte>, f: seq<Byte>, g: seq<Byte>, middle: nat, end: nat)
    requires middle <= end <= |s| && |f| <= middle && |g| <= end - middle
    requires |f| == middle ==> f == s[..middle]
    requires |g| == end - middle ==> g == s[middle..end]
    ensures |f + g| == end <==> |f| == middle && |g| == end - middle
    ensures |f + g| == end ==> f + g == s[..end]
  {
  }

  /** After `k` children the chunks hold at most the package up to there, and all of it when every child is kept. */
  lemma {:induction false} ChunksCover(bpp: seq<Byte>, valStart: nat, root: seq<Byte>, children: seq<Item>, k: nat)
    requires children == Items(root, 0) && CommandFirst(children) && 1 <= k <= |children|
    requires forall j :: 0 <= j < |children| ==> ChildOf(bpp, valStart, root, children[j])
    ensures children[k - 1].end <= |root|
    ensures var f := Flatten(AllChunks(bpp, valStart, root, children[..k]));
            var end := valStart + children[k - 1].end;
            && |f| <= end
            && (|f| == end <==> forall j :: 0 < j < k ==> Kept(children[j]))
            && (|f| == end ==> f == bpp[..end])
    decreases k
  {
    hide Items, Kept, ChildOf;
    hide Flatten, ChunksOf;
    var c := children[k - 1];
    ChildBounds(bpp, valStart, root, c);
    ParsedContiguous(root, k - 1);
    assert children[..k][..k - 1] == children[..k - 1];
    FlattenConcat(AllChunks(bpp, valStart, root, children[..k - 1]), ChunksOf(bpp, valStart, root, c));
    assert AllChunks(bpp, valStart, root, children[..k])
        == AllChunks(bpp, valStart, root, children[..k - 1]) + ChunksOf(bpp, valStart, root, c);
    if k == 1 {
      CommandPieces(bpp, valStart, root, c);
      assert AllChunks(bpp, valStart, root, children[..0]) == [];
      FlattenNothing();
    } else {
      ChunksCover(bpp, valStart, root, children, k - 1);
      ChildPieces(bpp, valStart, root, c);
      ExtendPrefix(bpp, Flatten(AllChunks(bpp, valStart, root, children[..k - 1])),
                   Flatten(ChunksOf(bpp, valStart, root, c)), valStart + c.start, valStart + c.end);
      hide AllChunks;
    }
  }

  lemma FlattenNothing()
    ensures Flatten<Byte>([]) == []
  {
  }

  /**
   For a package whose only BF23 child comes first, the chunks concatenate to the package exactly when
   the package ends the bytes, its value is fully tiled, every other child is A0..A3, and the nested
   ones are fully tiled too.
   */
  lemma ChunksRetile(bpp: seq<Byte>)
    requires SplitBpp(bpp).Some?
    requires CommandFirst(Items(Package(bpp).value, 0))
    ensures Flatten(SplitBpp(bpp).value) == bpp <==>
            && Package(bpp).end == |bpp|
            && FullyTiled(Package(bpp).value)
            && forall k :: 0 < k < |Items(Package(bpp).value, 0)| ==> Kept(Items(Package(bpp).value, 0)[k])
  {
    hide Kept, ReadHead;
    var package := Package(bpp);
    ParsedElements(bpp);
    PackageChildren(bpp, package);
    var root, children := package.value, Items(package.value, 0);
    var valStart := ValueStart(bpp, package);
    ChunksCover(bpp, valStart, root, children, |children|);
    assert children[..|children|] == children;
    ConsumedEnds(root, 0);
    hide Items, AllChunks, Flatten;
    assert bpp[..|bpp|] == bpp;
  }

  // ---------- where the cuts fall ----------

  /** How many chunks a child makes: one, or a header and one for each nested element, or none. */
  function ChunkCount(c: Item): nat {
    if c.tag in {0xBF23, 0xA0, 0xA2} then 1
    else if c.tag in {0xA1, 0xA3} then 1 + |Items(c.value, 0)|
    else 0
  }

  function TotalChunks(children: seq<Item>): nat {
    if children == [] then 0 else TotalChunks(children[..|children| - 1]) + ChunkCount(children[|children| - 1])
  }

  lemma {:induction false} SlicesAt(s: seq<Byte>, items: seq<Item>)
    requires AllElements(s, items)
    ensures |Slices(s, items)| == |items|
    ensures forall j :: 0 <= j < |items| ==>
              && items[j].start < items[j].end <= |s|
              && Slices(s, items)[j] == s[items[j].start..items[j].end]
    decreases |items|
  {
    hide ElementAt;
    if items != [] {
      var init, last := items[..|items| - 1], items[|items| - 1];
      assert AllElements(s, init);
      SlicesAt(s, init);
      SliceBounds(s, last);
    }
  }

  /** `chunk` is exactly one element, with the tag and value of `it`. */
  ghost predicate WholeElement(chunk: seq<Byte>, it: Item) {
    && |it.value| <= |chunk| && ReadHead(chunk) == Head(it.tag, |chunk| - |it.value|, |chunk|)
    && chunk[|chunk| - |it.value|..] == it.value
  }

  lemma SliceIsElement(s: seq<Byte>, it: Item)
    requires ElementAt(s, it)
    ensures WholeElement(s[it.start..it.end], it)
  {
    hide ReadHead;
    var rest := s[it.start..];
    ElementAlone(rest);
    assert rest[..it.end - it.start] == s[it.start..it.end];
  }

  /**
   A command chunk runs from the first byte of everything to the end of the command; A0 and A2 are one
   chunk each; A1 and A3 are cut into their header and one whole element after the other.
   */
  ghost predicate CutRight(bpp: seq<Byte>, valStart: nat, c: Item, chunks: seq<seq<Byte>>) {
    && |chunks| == ChunkCount(c) && c.start + |c.value| <= c.end && valStart + c.end <= |bpp|
    && (c.tag == 0xBF23 ==> chunks[0] == bpp[..valStart + c.end])
    && (c.tag in {0xA0, 0xA2} ==> chunks[0] == bpp[valStart + c.start..valStart + c.end])
    && (c.tag in {0xA1, 0xA3} ==>
          && chunks[0] == bpp[valStart + c.start..valStart + c.end - |c.value|]
          && forall j :: 0 <= j < |Items(c.value, 0)| ==> WholeElement(chunks[j + 1], Items(c.value, 0)[j]))
  }

  lemma ChildCuts(bpp: seq<Byte>, valStart: nat, root: seq<Byte>, c: Item)
    requires ChildOf(bpp, valStart, root, c)
    ensures CutRight(bpp, valStart, c, ChunksOf(bpp, valStart, root, c))
  {
    hide ChildOf, Items, Slices, ElementAt, ParseTlvHeaderLen, HasHeader, WholeElement;
    ChildBounds(bpp, valStart, root, c);
    if c.tag in {0xA1, 0xA3} {
      ElementHeader(root, c);
      ParsedElements(c.value);
      var inner := Items(c.value, 0);
      SlicesAt(c.value, inner);
      forall j | 0 <= j < |inner| ensures WholeElement(ChunksOf(bpp, valStart, root, c)[j + 1], inner[j]) {
        SliceIsElement(c.value, inner[j]);
      }
    }
  }

  lemma SlicePrefix<T>(a: seq<T>, b: seq<T>, low: nat, high: nat)
    requires low <= high <= |a|
    ensures (a + b)[low..high] == a[low..high]
  {
  }

  /** The chunks of child `k` stand right after those of the children before it. */
  lemma {:induction false} ChunksInPlace(
      bpp: seq<Byte>, valStart: nat, root: seq<Byte>, children: seq<Item>, k: nat)
    requires forall j :: 0 <= j < |children| ==> ChildOf(bpp, valStart, root, children[j])
    ensures |AllChunks(bpp, valStart, root, children)| == TotalChunks(children)
    ensures k < |children| ==>
              var at := TotalChunks(children[..k]);
              var n := ChunkCount(children[k]);
              && at + n <= TotalChunks(children)
              && AllChunks(bpp, valStart, root, children)[at..at + n] == ChunksOf(bpp, valStart, root, children[k])
    decreases |children|
  {
    hide ChildOf, ChunksOf, ChunkCount, Items, WholeElement;
    if children != [] {
      var init, last := children[..|children| - 1], children[|children| - 1];
      ChunksInPlace(bpp, valStart, root, init, k);
      ChildCuts(bpp, valStart, root, last);
      var before, its := AllChunks(bpp, valStart, root, init), ChunksOf(bpp, valStart, root, last);
      assert AllChunks(bpp, valStart, root, children) == before + its;
      hide AllChunks;
      if k < |init| {
        assert init[..k] == children[..k];
        SlicePrefix(before, its, TotalChunks(init[..k]), TotalChunks(init[..k]) + ChunkCount(init[k]));
      }
    }
  }

  /**
   For every package: there are as many chunks as the children make, and the chunks of each child stand in
   its place and are cut where they should be.
   */
  lemma SplitCuts(bpp: seq<Byte>, k: nat)
    requires SplitBpp(bpp).Some?
    ensures var children := Items(Package(bpp).value, 0);
            var chunks := SplitBpp(bpp).value;
            && |chunks| == TotalChunks(children)
            && (k < |children| ==>
                  var at := TotalChunks(children[..k]);
                  && at + ChunkCount(children[k]) <= |chunks|
                  && CutRight(bpp, Package(bpp).end - |Package(bpp).value|, children[k],
                              chunks[at..at + ChunkCount(children[k])]))
  {
    hide CutRight, AllChunks, ChunksOf, Items, ReadHead;
    var package := Package(bpp);
    ParsedElements(bpp);
    PackageChildren(bpp, package);
    var root, children := package.value, Items(package.value, 0);
    var valStart := ValueStart(bpp, package);
    ChunksInPlace(bpp, valStart, root, children, k);
    if k < |children| {
      ChildCuts(bpp, valStart, root, children[k]);
    }
  }

  /** The package element that the splitter uses. */
  function Package(bpp: seq<Byte>): Item
    requires SplitBpp(bpp).Some?
  {
    Items(bpp, 0)[FirstWithTag(Items(bpp, 0), TAG_BPP)]
  }

  /** Splitting fails exactly without an element BF36; otherwise the first of them is the package. */
  lemma PackageIsFirst(bpp: seq<Byte>)
    ensures SplitBpp(bpp).None? <==> forall k :: 0 <= k < |Items(bpp, 0)| ==> Items(bpp, 0)[k].tag != 0xBF36
    ensures SplitBpp(bpp).Some? ==>
              exists k :: 0 <= k < |Items(bpp, 0)| && Items(bpp, 0)[k] == Package(bpp) && Package(bpp).tag == 0xBF36
                && forall j :: 0 <= j < k ==> Items(bpp, 0)[j].tag != 0xBF36
  {
    hide Items, AllChunks;
    var k := FirstWithTag(Items(bpp, 0), TAG_BPP);
    assert k < |Items(bpp, 0)| ==> Items(bpp, 0)[k].tag == 0xBF36;
  }

  /** A package that holds an empty command and an empty child A4. */
  const UNKNOWN_CHILD: seq<Byte> := [0xBF, 0x36, 5, 0xBF, 0x23, 0, 0xA4, 0]

  lemma UnknownChildItems()
    ensures Items(UNKNOWN_CHILD, 0) == [Item(TAG_BPP, UNKNOWN_CHILD[3..], 0, 8)]
    ensures Items(UNKNOWN_CHILD[3..], 0) == [Item(TAG_BPP_COMMAND, [], 0, 3), Item(0xA4, [], 3, 5)]
  {
    hide Items;
    var root := UNKNOWN_CHILD[3..];
    assert UNKNOWN_CHILD[8..] == [] && root == [0xBF, 0x23, 0, 0xA4, 0];
    assert root[3..] == [0xA4, 0] && root[3..][2..] == [];
    assert ReadHead(UNKNOWN_CHILD) == Head(TAG_BPP, 3, 8);
    assert ReadHead(root) == Head(TAG_BPP_COMMAND, 3, 3);
    assert ReadHead(root[3..]) == Head(0xA4, 2, 2);
    ItemsStep(UNKNOWN_CHILD, 0);
    ItemsStep([], 8);
    ItemsStep(root, 0);
    ItemsStep(root[3..], 3);
    ItemsStep([], 5);
    assert ReadHead([]).NoItem? && UNKNOWN_CHILD[3..8] == UNKNOWN_CHILD[3..];
    assert root[3..3] == [] && root[3..][2..2] == [];
    assert Items(root[3..], 3) == [Item(0xA4, [], 3, 5)];
  }

  /** The child A4 is dropped without an error. */
  lemma UnknownChildLost()
    ensures SplitBpp(UNKNOWN_CHILD).Some? && Flatten(SplitBpp(UNKNOWN_CHILD).value) != UNKNOWN_CHILD
  {
    hide Flatten, AllChunks, ReadHead, Items, ValueStart;
    UnknownChildItems();
    assert Items(UNKNOWN_CHILD, 0)[0].tag == TAG_BPP;
    var children := Items(UNKNOWN_CHILD[3..], 0);
    assert children[1].tag == 0xA4 && !Kept(children[1]);
    ChunksRetile(UNKNOWN_CHILD);
  }
}
