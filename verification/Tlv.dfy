/** BER-TLV reading and writing as the eSIM code does it (sections 8.1.2 and 8.1.3 of ITU-T X.690). */
module Tlv {
  import opened Sequences

  /** A parsed element: its value, and the positions of its first byte and of the byte after it. */
  datatype Item = Item(tag: nat, value: seq<Byte>, start: nat, end: nat)

  /** What stands at the front of some bytes: where the value of a whole element starts and ends. */
  datatype Head = NoItem | Head(tag: nat, valueStart: nat, end: nat)

  // ---------- reading ----------

  /** Continuation bytes of a tag, starting at `i`; the last one has its top bit clear. */
  function TagFrom(s: seq<Byte>, i: nat, acc: nat): (r: (nat, nat))
    requires i <= |s|
    ensures i <= r.1 <= |s|
    ensures i < |s| ==> i < r.1 && acc * 256 <= r.0
    ensures i < r.1 < |s| ==> r.0 % 256 < 128
    decreases |s| - i
  {
    if i == |s| then (acc, i)
    else if s[i] < 128 then (acc * 256 + s[i], i + 1)
    else TagFrom(s, i + 1, acc * 256 + s[i])
  }

  function ReadTag(s: seq<Byte>): (r: (nat, nat))
    requires s != []
    ensures 1 <= r.1 <= |s|
  {
    if s[0] % 32 == 31 then TagFrom(s, 1, s[0]) else (s[0], 1)
  }

  function BigEndian(s: seq<Byte>): nat {
    if s == [] then 0 else BigEndian(s[..|s| - 1]) * 256 + s[|s| - 1]
  }

  /** Length field at `i`: where the value starts, and its size. */
  function ReadLength(s: seq<Byte>, i: nat): (r: (nat, nat))
    requires i < |s|
    ensures i < r.0
  {
    if s[i] < 128 then (i + 1, s[i])
    else
      var k := s[i] - 128;
      if i + 1 + k > |s| then (|s| + 1, 0) else (i + 1 + k, BigEndian(s[i + 1..i + 1 + k]))
  }

  function ReadHead(s: seq<Byte>): (h: Head)
    ensures h.Head? ==> 2 <= h.valueStart <= h.end <= |s|
  {
    if s == [] then NoItem
    else
      var (tag, i) := ReadTag(s);
      if i >= |s| then NoItem
      else
        var (valueStart, size) := ReadLength(s, i);
        if valueStart + size > |s| then NoItem else Head(tag, valueStart, valueStart + size)
  }

  /** All elements of `s`, with positions counted from `base`. */
  function Items(s: seq<Byte>, base: nat): seq<Item>
    decreases |s|
  {
    match ReadHead(s)
    case NoItem => []
    case Head(tag, valueStart, end) =>
      [Item(tag, s[valueStart..end], base, base + end)] + Items(s[end..], base + end)
  }

  lemma ItemsStep(s: seq<Byte>, base: nat)
    ensures match ReadHead(s)
            case NoItem => Items(s, base) == []
            case Head(tag, valueStart, end) =>
              Items(s, base) == [Item(tag, s[valueStart..end], base, base + end)] + Items(s[end..], base + end)
  {
  }

  lemma {:induction false} TagFromPrefix(s: seq<Byte>, n: nat, i: nat, acc: nat)
    requires i <= |s| && TagFrom(s, i, acc).1 < n <= |s|
    ensures TagFrom(s[..n], i, acc) == TagFrom(s, i, acc)
    decreases |s| - i
  {
    if s[i] >= 128 {
      TagFromPrefix(s, n, i + 1, acc * 256 + s[i]);
    }
  }

  /** The bytes of an element, without what follows them, are that element. */
  lemma ElementAlone(s: seq<Byte>)
    requires ReadHead(s).Head?
    ensures ReadHead(s[..ReadHead(s).end]) == ReadHead(s)
  {
    hide BigEndian;
    var h := ReadHead(s);
    var (tag, i) := ReadTag(s);
    var t := s[..h.end];
    if s[0] % 32 == 31 {
      TagFromPrefix(s, h.end, 1, s[0]);
    }
    assert ReadTag(t) == (tag, i);
    hide ReadTag;
    if s[i] >= 128 {
      var k := s[i] - 128;
      assert t[i + 1..i + 1 + k] == s[i + 1..i + 1 + k];
    }
  }

  /** `items` followed by what is still in `s` makes `all`. */
  ghost predicate Remaining(all: seq<Item>, items: seq<Item>, s: seq<Byte>, base: nat) {
    all == items + Items(s, base)
  }

  lemma RemainingStep(all: seq<Item>, items: seq<Item>, s: seq<Byte>, base: nat)
    requires Remaining(all, items, s, base)
    ensures match ReadHead(s)
            case NoItem => all == items
            case Head(tag, valueStart, end) =>
              Remaining(all, items + [Item(tag, s[valueStart..end], base, base + end)], s[end..], base + end)
  {
  }

  /** The tag of the element that starts at `start`, and the position after it. */
  method NextTag(data: seq<Byte>, start: nat) returns (tag: nat, idx: nat)
    requires start < |data|
    ensures start < idx <= |data| && ReadTag(data[start..]) == (tag, idx - start)
  {
    ghost var s := data[start..];
    tag, idx := data[start], start + 1;
    if tag % 32 == 31 {
      while idx < |data|
        invariant start + 1 <= idx <= |data|
        invariant TagFrom(s, idx - start, tag) == ReadTag(s)
        decreases |data| - idx
      {
        var next := data[idx];
        idx := idx + 1;
        tag := tag * 256 + next;
        if next < 128 {
          break;
        }
      }
    }
  }

  /** The length field at `at` of the element that starts at `start`; past the end when it does not fit. */
  method NextLength(data: seq<Byte>, start: nat, at: nat) returns (idx: nat, size: nat)
    requires start < at < |data|
    ensures at < idx && ReadLength(data[start..], at - start) == (idx - start, size)
  {
    ghost var s := data[start..];
    assert s[at - start] == data[at];
    size, idx := data[at], at + 1;
    if size >= 128 {
      var numBytes := size - 128;
      if idx + numBytes > |data| {
        return |data| + 1, 0;
      }
      assert s[at - start + 1..at - start + 1 + numBytes] == data[idx..idx + numBytes];
      size := BigEndian(data[idx..idx + numBytes]);
      idx := idx + numBytes;
    }
  }

  method IterTlv(data: seq<Byte>) returns (items: seq<Item>)
    ensures items == Items(data, 0)
  {
    hide Items, Remaining, BigEndian;
    items := [];
    var idx := 0;
    ghost var all := Items(data, 0);
    assert data[0..] == data && Remaining(all, items, data, 0) by { RemainingAll(data); }
    while idx < |data|
      invariant 0 <= idx <= |data|
      invariant Remaining(all, items, data[idx..], idx)
    {
      var start := idx;
      ghost var s := data[start..];
      RemainingStep(all, items, s, start);
      var tag: nat;
      tag, idx := NextTag(data, start);
      hide ReadTag;
      if idx >= |data| {
        return;
      }
      var size: nat;
      idx, size := NextLength(data, start, idx);
      hide ReadLength;
      if idx + size > |data| {
        return;
      }
      var value := data[idx..idx + size];
      assert s[idx - start..idx - start + size] == value;
      idx := idx + size;
      items := items + [Item(tag, value, start, idx)];
      assert s[idx - start..] == data[idx..];
    }
    assert data[idx..] == [];
    RemainingStep(all, items, [], idx);
  }

  lemma RemainingAll(data: seq<Byte>)
    ensures Remaining(Items(data, 0), [], data, 0)
  {
  }

  // ---------- tiling ----------

  /** Where the last element ends. */
  function Consumed(s: seq<Byte>): (n: nat)
    ensures n <= |s|
    decreases |s|
  {
    match ReadHead(s)
    case NoItem => 0
    case Head(_, _, end) => end + Consumed(s[end..])
  }

  predicate FullyTiled(s: seq<Byte>) {
    Consumed(s) == |s|
  }

  /**
   The elements follow each other without gaps from position `base`, where `s` starts; each lies
   within the bytes, is longer than its value and ends with it.
   */
  ghost predicate Tiles(items: seq<Item>, s: seq<Byte>, base: nat)
    decreases |items|
  {
    items == [] ||
    var first := items[0];
    var size := first.end - base;
    && first.start == base
    && |first.value| + 2 <= size <= |s|
    && first.value == s[size - |first.value|..size]
    && Tiles(items[1..], s[size..], first.end)
  }

  function EndOf(items: seq<Item>, base: nat): nat {
    if items == [] then base else items[|items| - 1].end
  }

  lemma ConsumedStep(s: seq<Byte>, base: nat)
    ensures match ReadHead(s)
            case NoItem => Consumed(s) == 0 && EndOf(Items(s, base), base) == base
            case Head(_, _, end) =>
              && Consumed(s) == end + Consumed(s[end..])
              && EndOf(Items(s, base), base) == EndOf(Items(s[end..], base + end), base + end)
  {
    hide ReadHead;
  }

  lemma {:induction false} ConsumedEnds(s: seq<Byte>, base: nat)
    ensures EndOf(Items(s, base), base) == base + Consumed(s)
    ensures ReadHead(s[Consumed(s)..]).NoItem?
    decreases |s|
  {
    hide ReadHead, Consumed, Items, EndOf;
    ConsumedStep(s, base);
    match ReadHead(s)
    case NoItem =>
      assert s[0..] == s;
    case Head(tag, valueStart, end) =>
      ConsumedEnds(s[end..], base + end);
      assert s[end..][Consumed(s[end..])..] == s[end + Consumed(s[end..])..];
  }

  /** On arbitrary bytes the elements tile a prefix, and nothing whole is left behind it. */
  lemma {:induction false} ItemsTile(s: seq<Byte>, base: nat)
    ensures Tiles(Items(s, base), s, base)
    ensures EndOf(Items(s, base), base) == base + Consumed(s)
    ensures ReadHead(s[Consumed(s)..]).NoItem?
    decreases |s|
  {
    hide ReadHead, Consumed, EndOf, Items;
    ConsumedEnds(s, base);
    ItemsStep(s, base);
    match ReadHead(s)
    case NoItem =>
    case Head(tag, valueStart, end) =>
      ItemsTile(s[end..], base + end);
      assert Items(s, base)[1..] == Items(s[end..], base + end);
  }

  // ---------- writing ----------

  /** Minimal big-endian bytes of a positive number. */
  function LengthBytes(n: nat): (bytes: seq<Byte>)
  {
    if n == 0 then [] else LengthBytes(n / 256) + [n % 256]
  }

  lemma {:induction false} BigEndianLengthBytes(n: nat)
    ensures BigEndian(LengthBytes(n)) == n
  {
    if n > 0 {
      BigEndianLengthBytes(n / 256);
      assert LengthBytes(n)[..|LengthBytes(n)| - 1] == LengthBytes(n / 256);
    }
  }

  /** The long length form can count its own length bytes; see LengthAlwaysFits. */
  predicate LengthFits(n: nat) {
    n < 128 || |LengthBytes(n)| < 128
  }

  function Pow256(k: nat): nat {
    if k == 0 then 1 else 256 * Pow256(k - 1)
  }

  lemma {:induction false} LengthBytesBound(n: nat, k: nat)
    requires n < Pow256(k)
    ensures |LengthBytes(n)| <= k
    decreases k
  {
    if n > 0 {
      LengthBytesBound(n / 256, k - 1);
    }
  }

  /** Every byte string that Python can hold has a length that fits, in at most eight length bytes. */
  lemma LengthAlwaysFits(n: nat)
    requires n < 0x8000_0000_0000_0000
    ensures LengthFits(n) && |LengthBytes(n)| <= 8
  {
    assert Pow256(8) == 0x1_0000_0000_0000_0000;
    LengthBytesBound(n, 8);
  }

  function TagBytes(tag: nat): (bytes: seq<Byte>)
    ensures 1 <= |bytes| <= 2
  {
    if tag > 255 then [tag / 256 % 256, tag % 256] else [tag]
  }

  function LengthField(n: nat): (bytes: seq<Byte>)
    requires LengthFits(n)
    ensures bytes != []
  {
    if n <= 127 then [n] else [128 + |LengthBytes(n)|] + LengthBytes(n)
  }

  function EncodeTlv(tag: nat, value: seq<Byte>): (bytes: seq<Byte>)
    requires LengthFits(|value|)
    ensures |bytes| >= 2 + |value|
  {
    TagBytes(tag) + LengthField(|value|) + value
  }

  lemma {:induction false} LengthBytesMinimal(n: nat)
    requires n > 0
    ensures LengthBytes(n) != [] && LengthBytes(n)[0] != 0
  {
    if n >= 256 {
      LengthBytesMinimal(n / 256);
    }
  }

  /** Lengths take as few bytes as they can: one up to 127, and no leading zero byte beyond. */
  lemma LengthIsMinimal(n: nat)
    requires LengthFits(n)
    ensures n <= 127 <==> LengthField(n) == [n]
    ensures n > 127 ==>
              |LengthField(n)| >= 2 && LengthField(n)[0] == 0x80 + |LengthField(n)| - 1 && LengthField(n)[1] != 0
  {
    if n > 127 {
      LengthBytesMinimal(n);
    }
  }

  /** Tags that the two-byte writer can express: short form, or a multi-byte marker and one final byte. */
  predicate WellFormedTag(tag: nat) {
    if tag < 256 then tag % 32 != 31
    else tag < 0x1_0000 && tag / 256 % 32 == 31 && tag % 256 < 128
  }

  lemma ReadEncodedTag(tag: nat, rest: seq<Byte>)
    requires WellFormedTag(tag)
    ensures ReadTag(TagBytes(tag) + rest) == (tag, |TagBytes(tag)|)
  {
  }

  lemma ReadEncodedLength(s: seq<Byte>, i: nat, n: nat)
    requires LengthFits(n) && i + |LengthField(n)| <= |s| && s[i..i + |LengthField(n)|] == LengthField(n)
    ensures ReadLength(s, i) == (i + |LengthField(n)|, n)
  {
    hide LengthBytes, BigEndian;
    assert s[i] == LengthField(n)[0];
    if n > 127 {
      BigEndianLengthBytes(n);
      var k := |LengthBytes(n)|;
      assert s[i + 1..i + 1 + k] == s[i..i + 1 + k][1..] == LengthBytes(n);
    }
  }

  /** What is written is read back at the front of any bytes. */
  lemma ReadEncodedHead(tag: nat, value: seq<Byte>, rest: seq<Byte>)
    requires WellFormedTag(tag) && LengthFits(|value|)
    ensures var e := EncodeTlv(tag, value);
            && ReadHead(e + rest) == Head(tag, |e| - |value|, |e|)
            && (e + rest)[|e| - |value|..|e|] == value && (e + rest)[|e|..] == rest
  {
    hide ReadTag, ReadLength, TagBytes, LengthField, WellFormedTag, LengthFits;
    var t, l := TagBytes(tag), LengthField(|value|);
    var s := EncodeTlv(tag, value) + rest;
    assert s == t + (l + value + rest);
    ReadEncodedTag(tag, l + value + rest);
    assert s[|t|..|t| + |l|] == l;
    ReadEncodedLength(s, |t|, |value|);
  }

  datatype Element = Element(tag: nat, value: seq<Byte>)

  predicate Writable(e: Element) {
    LengthFits(|e.value|)
  }

  predicate AllWritable(elements: seq<Element>) {
    forall k :: 0 <= k < |elements| ==> Writable(elements[k])
  }

  predicate AllWellFormed(elements: seq<Element>) {
    forall k :: 0 <= k < |elements| ==> WellFormedTag(elements[k].tag)
  }

  function Write(e: Element): (bytes: seq<Byte>)
    requires Writable(e)
    ensures |bytes| >= 2
  {
    EncodeTlv(e.tag, e.value)
  }

  /** The items of a list of written elements, with the positions they must have. */
  function Layout(elements: seq<Element>, base: nat): seq<Item>
    requires AllWritable(elements)
    decreases |elements|
  {
    if elements == [] then []
    else
      var end := base + |Write(elements[0])|;
      [Item(elements[0].tag, elements[0].value, base, end)] + Layout(elements[1..], end)
  }

  function EncodeElements(elements: seq<Element>): seq<Byte>
    requires AllWritable(elements)
    decreases |elements|
  {
    if elements == [] then [] else Write(elements[0]) + EncodeElements(elements[1..])
  }

  lemma WrittenThenRest(e: Element, rest: seq<Byte>, base: nat)
    requires Writable(e) && WellFormedTag(e.tag)
    ensures var end := base + |Write(e)|;
            Items(Write(e) + rest, base) == [Item(e.tag, e.value, base, end)] + Items(rest, end)
    ensures FullyTiled(rest) ==> FullyTiled(Write(e) + rest)
  {
    ReadEncodedHead(e.tag, e.value, rest);
    hide ReadHead, EncodeTlv, LengthFits, WellFormedTag;
  }

  /** Reading back any list of written elements gives exactly that list, contiguous and complete. */
  lemma {:induction false} EncodeItems(elements: seq<Element>, base: nat)
    requires AllWritable(elements) && AllWellFormed(elements)
    ensures Items(EncodeElements(elements), base) == Layout(elements, base)
    ensures FullyTiled(EncodeElements(elements))
    decreases |elements|
  {
    hide Writable, WellFormedTag, Write, Items, FullyTiled;
    if elements == [] {
      NothingWritten(base);
    } else {
      var first, later := elements[0], elements[1..];
      assert Writable(first) && WellFormedTag(first.tag) && AllWritable(later) && AllWellFormed(later);
      hide AllWritable, AllWellFormed;
      EncodeItems(later, base + |Write(first)|);
      WrittenThenRest(first, EncodeElements(later), base);
    }
  }

  lemma NothingWritten(base: nat)
    ensures Items([], base) == [] && FullyTiled([])
  {
  }

  /** Whatever follows it, a tag that is not well formed is read back as another one, or as no element at all. */
  lemma BadTagMisread(tag: nat, value: seq<Byte>, rest: seq<Byte>)
    requires LengthFits(|value|) && !WellFormedTag(tag)
    ensures var h := ReadHead(EncodeTlv(tag, value) + rest); h.NoItem? || h.tag != tag
  {
    hide LengthFits, LengthField, ReadLength;
    var t, later := TagBytes(tag), LengthField(|value|) + value + rest;
    assert EncodeTlv(tag, value) + rest == t + later;
    hide EncodeTlv;
  }

  /**
   A list of written elements is read back as it was, with contiguous positions, exactly when all
   tags are well formed.
   */
  lemma {:induction false} EncodeRoundTripIff(elements: seq<Element>, base: nat)
    requires AllWritable(elements)
    ensures Items(EncodeElements(elements), base) == Layout(elements, base) <==> AllWellFormed(elements)
    decreases |elements|
  {
    hide WellFormedTag, ReadHead, EncodeTlv;
    if AllWellFormed(elements) {
      EncodeItems(elements, base);
    } else {
      var first, later := elements[0], elements[1..];
      assert Writable(first) && AllWritable(later);
      hide Writable;
      var rest := EncodeElements(later);
      if WellFormedTag(first.tag) {
        assert elements == [first] + later;
        assert !AllWellFormed(later);
        EncodeRoundTripIff(later, base + |Write(first)|);
        WrittenThenRest(first, rest, base);
        assert Items(EncodeElements(elements), base)[1..] == Items(rest, base + |Write(first)|);
        assert Layout(elements, base)[1..] == Layout(later, base + |Write(first)|);
      } else {
        BadElementMisread(first, rest, base);
      }
    }
  }

  lemma BadElementMisread(e: Element, rest: seq<Byte>, base: nat)
    requires Writable(e) && !WellFormedTag(e.tag)
    ensures Items(Write(e) + rest, base) == [] || Items(Write(e) + rest, base)[0].tag != e.tag
  {
    BadTagMisread(e.tag, e.value, rest);
    hide ReadHead, EncodeTlv;
  }

  /** The tag 1F announces a longer tag: the element written with it is not found again. */
  lemma BadTagLost()
    ensures EncodeTlv(0x1F, [0x01]) == [0x1F, 0x01, 0x01] && Items(EncodeTlv(0x1F, [0x01]), 0) == []
  {
    assert ReadTag([0x1F, 0x01, 0x01]) == (0x1F01, 2);
  }
}
