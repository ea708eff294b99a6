/** The packed header on the wire, with every field, and what the receiver makes of it. */
module CanWire {
  import opened Sequences
  import opened Bits
  import opened Framing
  import opened CanCodec

  /** A frame as either side may put it on the wire: all the fields of the packed header, and the payload. */
  datatype Wire = Wire(reserved: bool, bus: nat, rejected: bool, returned: bool, extended: bool,
                       address: nat, dat: seq<Byte>)

  predicate Proper(w: Wire) {
    w.bus < 8 && w.address < 0x2000_0000 && |w.dat| in DLC_TO_LEN
  }

  predicate AllProper(ws: seq<Wire>) {
    forall i :: 0 <= i < |ws| ==> Proper(ws[i])
  }

  function Bit(b: bool): nat { if b then 1 else 0 }

  function WireWord(w: Wire): nat {
    Bit(w.rejected) + 2 * Bit(w.returned) + 4 * Bit(w.extended) + 8 * w.address
  }

  function FirstByte(w: Wire): (b: Byte)
    requires Proper(w)
  {
    LenToDlcRoundsUp(|w.dat|);
    Bit(w.reserved) + 2 * w.bus + 16 * LenToDlc(|w.dat|)
  }

  /** Little-endian bytes of a 32-bit word. */
  function FourBytes(word: nat): (bytes: seq<Byte>)
    requires word < 0x1_0000_0000
    ensures |bytes| == 4
  {
    [word % 256, word / 256 % 256, word / 256 / 256 % 256, word / 256 / 256 / 256]
  }

  /** Fields in the order of the packed struct, each from its lowest bit up. */
  function WireHeader(w: Wire): (h: seq<Byte>)
    requires Proper(w)
    ensures |h| == HEADER_SIZE - 1
  {
    [FirstByte(w)] + FourBytes(WireWord(w))
  }

  function WirePacket(w: Wire): (p: seq<Byte>)
    requires Proper(w)
    ensures |p| == HEADER_SIZE + |w.dat|
  {
    WireHeader(w) + [AsByte(Checksum(WireHeader(w) + [0] + w.dat))] + w.dat
  }

  /** What the receiver should report: the bus number, offset for rejected and for returned frames. */
  function Reported(w: Wire): CanFrame {
    CanFrame(w.address,
             if w.rejected && w.returned then 0x140 + w.bus
             else if w.rejected then 0xC0 + w.bus
             else if w.returned then 0x80 + w.bus
             else w.bus,
             w.dat)
  }

  lemma WireWordFields(w: Wire)
    requires w.address < 0x2000_0000
    ensures WireWord(w) < 0x1_0000_0000 && WireWord(w) / 8 == w.address
    ensures WireWord(w) % 2 == Bit(w.rejected) && WireWord(w) / 2 % 2 == Bit(w.returned)
    ensures WireWord(w) / 4 % 2 == Bit(w.extended)
  {
    assert WireWord(w) / 2 == Bit(w.returned) + 2 * Bit(w.extended) + 4 * w.address;
    assert WireWord(w) / 4 == Bit(w.extended) + 2 * w.address;
  }

  lemma FirstByteFields(reserved: nat, bus: nat, code: nat)
    requires reserved <= 1 && bus < 8 && code < 16
    ensures var b := reserved + 2 * bus + 16 * code; b / 16 == code && b / 2 % 8 == bus && b % 2 == reserved
  {
    assert (reserved + 2 * bus + 16 * code) / 2 == bus + 8 * code;
  }

  lemma WireHeaderFields(w: Wire)
    requires Proper(w)
    ensures var h := WireHeader(w);
            && h[0] / 16 == LenToDlc(|w.dat|) && h[0] / 2 % 8 == w.bus
            && LittleEndian(h[1], h[2], h[3], h[4]) == WireWord(w)
  {
    hide LenToDlc, WireWord, LittleEndian;
    LenToDlcRoundsUp(|w.dat|);
    FirstByteFields(Bit(w.reserved), w.bus, LenToDlc(|w.dat|));
    WordRoundTrip(WireWord(w));
  }

  lemma WireFrame(w: Wire, p: seq<Byte>)
    requires Proper(w) && |p| == HEADER_SIZE + |w.dat|
    requires p[..HEADER_SIZE - 1] == WireHeader(w) && p[HEADER_SIZE..] == w.dat
    ensures PacketSize(p) == |p| && FrameOf(p) == Reported(w)
  {
    hide LenToDlc, WireWord, WireHeader, LittleEndian;
    LenToDlcRoundsUp(|w.dat|);
    WireHeaderFields(w);
    WireWordFields(w);
    var h := p[..HEADER_SIZE - 1];
    assert p[0] == h[0] && p[1] == h[1] && p[2] == h[2] && p[3] == h[3] && p[4] == h[4];
    assert HeaderWord(p) == WireWord(w);
  }

  /** Whoever sent it, a well-formed packet is accepted whole and reported with the right source. */
  lemma WireAccepted(w: Wire)
    requires Proper(w)
    ensures NextPacket(WirePacket(w)) == Packet(Reported(w), |WirePacket(w)|)
  {
    hide WireHeader, FrameOf, PacketSize, Checksum, AsByte;
    var p := WirePacket(w);
    WireFrame(w, p);
    ChecksumFill(WireHeader(w), w.dat, Checksum(WireHeader(w) + [0] + w.dat));
    assert p[..|p|] == p;
  }

  function WireBytes(ws: seq<Wire>): seq<Byte>
    requires AllProper(ws)
  {
    if ws == [] then [] else WireBytes(ws[..|ws| - 1]) + WirePacket(ws[|ws| - 1])
  }

  function ReportedAll(ws: seq<Wire>): seq<CanFrame> {
    seq(|ws|, i requires 0 <= i < |ws| => Reported(ws[i]))
  }

  /** A stream of any frames decodes to exactly them, in order. */
  lemma {:induction false} WireDecodes(ws: seq<Wire>)
    requires AllProper(ws)
    ensures DecodeCan(WireBytes(ws)) == Decoded(true, ReportedAll(ws), [])
  {
    hide DecodeCan, WirePacket;
    DecodeNone();
    if ws != [] {
      var init, last := ws[..|ws| - 1], ws[|ws| - 1];
      WireDecodes(init);
      OneWireDecodes(last);
      DecodeBoth(WireBytes(init), WirePacket(last));
      assert ReportedAll(ws) == ReportedAll(init) + [Reported(last)];
    }
  }

  lemma OneWireDecodes(w: Wire)
    requires Proper(w)
    ensures DecodeCan(WirePacket(w)) == Decoded(true, [Reported(w)], [])
  {
    hide WirePacket;
    NextPacketWellBehaved();
    WireAccepted(w);
    assert WirePacket(w)[|WirePacket(w)|..] == [];
    DecodeNone();
  }

  /** The same through the receiver, however the stream is cut. */
  lemma WireReceived(ws: seq<Wire>, fragments: seq<seq<Byte>>)
    requires AllProper(ws) && Flatten(fragments) == WireBytes(ws)
    ensures ReceiveCan([], fragments) == Decoded(true, ReportedAll(ws), [])
  {
    NextPacketWellBehaved();
    WireDecodes(ws);
    assert [] + Flatten(fragments) == WireBytes(ws);
    FragmentationIndependence(NextPacket, [], fragments);
  }

  /** The sender fills the struct: no flags but `extended`, for addresses beyond 11 bits. */
  lemma EncodeIsWire(m: CanData)
    requires |m.dat| in DLC_TO_LEN
    ensures Encode(m) ==
            WirePacket(Wire(false, m.src % 8, false, false, m.address >= 0x800, m.address % 0x2000_0000, m.dat))
  {
    hide Checksum, LenToDlc, AsByte, Header, WireHeader;
    LenToDlcRoundsUp(|m.dat|);
    var w := Wire(false, m.src % 8, false, false, m.address >= 0x800, m.address % 0x2000_0000, m.dat);
    var c := AsByte(Checksum(Header(m.src, LenToDlc(|m.dat|), m.address, 0) + m.dat));
    HeaderIsWire(m, w, 0);
    HeaderIsWire(m, w, c);
  }

  lemma HeaderIsWire(m: CanData, w: Wire, c: Byte)
    requires |m.dat| in DLC_TO_LEN && Proper(w)
    requires w == Wire(false, m.src % 8, false, false, m.address >= 0x800, m.address % 0x2000_0000, m.dat)
    ensures LenToDlc(|m.dat|) < 16 && Header(m.src, LenToDlc(|m.dat|), m.address, c) == WireHeader(w) + [c]
  {
    hide LenToDlc;
    LenToDlcRoundsUp(|m.dat|);
    assert FlagsAndAddress(m.address) == WireWord(w);
    hide FlagsAndAddress, WireWord;
  }

  /** The fields of the packet at the front of `s`. */
  function WireOf(s: seq<Byte>): Wire
    requires |s| >= HEADER_SIZE && |s| >= PacketSize(s)
  {
    var word := HeaderWord(s);
    Wire(s[0] % 2 == 1, s[0] / 2 % 8, word % 2 == 1, word / 2 % 2 == 1, word / 4 % 2 == 1, word / 8,
         s[HEADER_SIZE..PacketSize(s)])
  }

  lemma WordBits(word: nat)
    ensures word == word % 2 + 2 * (word / 2 % 2) + 4 * (word / 4 % 2) + 8 * (word / 8)
  {
    assert word / 4 == word / 2 / 2 && word / 8 == word / 2 / 2 / 2;
  }

  lemma WordBytes(b0: Byte, b1: Byte, b2: Byte, b3: Byte)
    ensures LittleEndian(b0, b1, b2, b3) < 0x1_0000_0000
    ensures FourBytes(LittleEndian(b0, b1, b2, b3)) == [b0, b1, b2, b3]
  {
    var word := LittleEndian(b0, b1, b2, b3);
    assert word / 256 == b1 + 256 * (b2 + 256 * b3);
    assert word / 256 / 256 == b2 + 256 * b3;
  }

  lemma DlcExact(code: nat)
    requires code < 16
    ensures DLC_TO_LEN[code] in DLC_TO_LEN && LenToDlc(DLC_TO_LEN[code]) == code
  {
  }

  lemma WireWordOf(word: nat)
    requires word < 0x1_0000_0000
    ensures word / 8 < 0x2000_0000
    ensures Bit(word % 2 == 1) + 2 * Bit(word / 2 % 2 == 1) + 4 * Bit(word / 4 % 2 == 1) + 8 * (word / 8) == word
  {
    WordBits(word);
  }

  lemma FirstByteOf(b: Byte)
    ensures Bit(b % 2 == 1) + 2 * (b / 2 % 8) + 16 * (b / 16) == b
  {
  }

  lemma WireHeaderOf(s: seq<Byte>)
    requires |s| >= HEADER_SIZE && |s| >= PacketSize(s)
    ensures Proper(WireOf(s)) && WireHeader(WireOf(s)) == s[..HEADER_SIZE - 1]
    ensures WireOf(s).dat == s[HEADER_SIZE..PacketSize(s)]
  {
    hide LenToDlc, LittleEndian, Bit, FourBytes;
    DlcExact(HeaderDlc(s));
    WordBytes(s[1], s[2], s[3], s[4]);
    WireWordOf(HeaderWord(s));
    FirstByteOf(s[0]);
    assert s[..HEADER_SIZE - 1] == [s[0]] + [s[1], s[2], s[3], s[4]];
  }

  lemma AcceptedFacts(s: seq<Byte>)
    requires NextPacket(s).Packet?
    ensures |s| >= HEADER_SIZE && |s| >= PacketSize(s) && Checksum(s[..PacketSize(s)]) == 0
  {
  }

  /** The receiver accepts nothing else: every accepted packet is that of some frame. */
  lemma AcceptedIsWire(s: seq<Byte>)
    requires NextPacket(s).Packet?
    ensures |s| >= HEADER_SIZE && |s| >= PacketSize(s)
    ensures Proper(WireOf(s)) && s[..PacketSize(s)] == WirePacket(WireOf(s))
  {
    hide WireHeader, Checksum, AsByte, NextPacket, PacketSize, Proper, WireOf;
    AcceptedFacts(s);
    var w, p := WireOf(s), s[..PacketSize(s)];
    WireHeaderOf(s);
    var c := p[HEADER_SIZE - 1];
    assert p == WireHeader(w) + [c] + w.dat;
    ChecksumOnly(WireHeader(w), w.dat, c);
  }

  /** One wrong byte is always noticed, as long as the length code survives. */
  lemma CorruptionDetected(s: seq<Byte>, k: nat, b: Byte)
    requires NextPacket(s).Packet? && k < PacketSize(s) && b != s[k] && (k == 0 ==> b / 16 == s[0] / 16)
    ensures NextPacket(s[k := b]) == Corrupt
  {
    hide Checksum, AsBits, AsByte, FrameOf;
    var p, t := s[..PacketSize(s)], s[k := b];
    assert PacketSize(t) == PacketSize(s);
    var left, right := p[..k], p[k + 1..];
    assert p == left + [s[k]] + right && t[..PacketSize(s)] == left + [b] + right;
    ChecksumAround(left, s[k], right);
    ChecksumAround(left, b, right);
    ByteBack(b);
    ByteBack(s[k]);
    XorUnique(Checksum(left), Checksum(right), AsBits(s[k]));
    if Checksum(t[..PacketSize(s)]) == 0 {
      XorUnique(Checksum(left), Checksum(right), AsBits(b));
    }
  }
}
