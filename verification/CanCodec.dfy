/**
 The byte format that pandad and the panda exchange: each CAN message is a six-byte
 bit-packed header followed by its payload, and the XOR of all those bytes is zero.
 */
module CanCodec {
  import opened Sequences
  import opened Bits
  import opened Framing

  type Address = a: int | 0 <= a < 0x1_0000_0000

  /** A message handed to the sender. */
  datatype CanData = CanData(address: Address, src: Byte, dat: seq<Byte>)

  /** A frame produced by the receiver. */
  datatype CanFrame = CanFrame(address: nat, src: nat, dat: seq<Byte>)

  const HEADER_SIZE := 6
  const PANDA_BUS_OFFSET := 4
  const CAN_REJECTED_BUS_OFFSET := 0xC0
  const CAN_RETURNED_BUS_OFFSET := 0x80

  /** Number of addresses that fit in the 29-bit header field. */
  const ADDRESS_SPACE := 0x2000_0000

  /** The data length codes of CAN FD (ISO 11898-1). */
  const DLC_TO_LEN: seq<nat> := [0, 1, 2, 3, 4, 5, 6, 7, 8, 12, 16, 20, 24, 32, 48, 64]

  /** The code chosen by the sender for a payload of `len` bytes. */
  function LenToDlc(len: nat): nat {
    if len <= 8 then len
    else if len <= 24 then 8 + (len - 8) / 4 + (if len % 4 != 0 then 1 else 0)
    else 11 + len / 16 + (if len % 16 != 0 then 1 else 0)
  }

  /** The code names the smallest table entry that holds `len` bytes; it is exact on table entries only. */
  lemma LenToDlcRoundsUp(len: nat)
    requires len <= 64
    ensures LenToDlc(len) < 16
    ensures len <= DLC_TO_LEN[LenToDlc(len)]
    ensures LenToDlc(len) > 0 ==> DLC_TO_LEN[LenToDlc(len) - 1] < len
    ensures DLC_TO_LEN[LenToDlc(len)] == len <==> len in DLC_TO_LEN
  {
    var code := LenToDlc(len);
    if len in DLC_TO_LEN {
      assert len <= 8 || len in [12, 16, 20, 24, 32, 48, 64];
    }
  }

  /** XOR of all bytes, as the checksum loop computes it. */
  function Checksum(s: seq<Byte>): bv8 {
    if s == [] then 0 else Checksum(s[..|s| - 1]) ^ AsBits(s[|s| - 1])
  }

  lemma {:induction false} ChecksumConcat(a: seq<Byte>, b: seq<Byte>)
    ensures Checksum(a + b) == Checksum(a) ^ Checksum(b)
  {
    if b == [] {
      assert a + b == a;
    } else {
      assert (a + b)[..|a + b| - 1] == a + b[..|b| - 1];
      ChecksumConcat(a, b[..|b| - 1]);
    }
  }

  lemma ChecksumAround(h: seq<Byte>, b: Byte, dat: seq<Byte>)
    ensures Checksum(h + [b] + dat) == (Checksum(h) ^ AsBits(b)) ^ Checksum(dat)
  {
    assert (h + [b])[..|h|] == h;
    ChecksumConcat(h + [b], dat);
  }

  /** Replacing a zero checksum byte by the checksum makes the total vanish. */
  lemma ChecksumFill(h: seq<Byte>, dat: seq<Byte>, c: bv8)
    requires c == Checksum(h + [0] + dat)
    ensures Checksum(h + [AsByte(c)] + dat) == 0
  {
    hide Checksum, AsBits, AsByte;
    BitsBack(c);
    NoBits();
    ChecksumAround(h, 0, dat);
    ChecksumAround(h, AsByte(c), dat);
    XorCancels(Checksum(h), Checksum(dat), c);
  }

  /** Only the checksum itself makes the total vanish. */
  lemma ChecksumOnly(h: seq<Byte>, dat: seq<Byte>, c: Byte)
    requires Checksum(h + [c] + dat) == 0
    ensures c == AsByte(Checksum(h + [0] + dat))
  {
    hide Checksum, AsBits, AsByte;
    ChecksumAround(h, c, dat);
    ChecksumAround(h, 0, dat);
    NoBits();
    XorUnique(Checksum(h), Checksum(dat), AsBits(c));
    ByteBack(c);
  }

  /** The rejected, returned and extended flags and the 29 address bits, as one 32-bit word. */
  function FlagsAndAddress(address: Address): nat {
    (address % ADDRESS_SPACE) * 8 + (if address >= 0x800 then 1 else 0) * 4
  }

  /** Bytes of the packed header: reserved/bus/dlc, then the little-endian flag and address word, then checksum. */
  function Header(bus: Byte, code: nat, address: Address, checksum: Byte): (h: seq<Byte>)
    requires code < 16
    ensures |h| == HEADER_SIZE
  {
    var word := FlagsAndAddress(address);
    [(bus % 8) * 2 + code * 16,
     word % 256, word / 256 % 256, word / 256 / 256 % 256, word / 256 / 256 / 256,
     checksum]
  }

  function HeaderDlc(h: seq<Byte>): (code: nat)
    requires |h| >= HEADER_SIZE
    ensures code < 16
  {
    h[0] / 16
  }

  function LittleEndian(b0: nat, b1: nat, b2: nat, b3: nat): nat {
    b0 + b1 * 0x100 + b2 * 0x1_0000 + b3 * 0x100_0000
  }

  function HeaderWord(h: seq<Byte>): nat
    requires |h| >= HEADER_SIZE
  {
    LittleEndian(h[1], h[2], h[3], h[4])
  }

  // ---------- sending ----------

  /** What the sender demands of a message it does not skip: its length is in the code table. */
  predicate Sendable(m: CanData) {
    m.src < PANDA_BUS_OFFSET ==> |m.dat| in DLC_TO_LEN
  }

  /** The packet of one message: the checksum is computed with a zero checksum byte and then stored. */
  function Encode(m: CanData): (packet: seq<Byte>)
    requires |m.dat| in DLC_TO_LEN
    ensures |packet| == HEADER_SIZE + |m.dat| <= 70
  {
    LenToDlcRoundsUp(|m.dat|);
    var code := LenToDlc(|m.dat|);
    var unchecked := Header(m.src, code, m.address, 0) + m.dat;
    Header(m.src, code, m.address, AsByte(Checksum(unchecked))) + m.dat
  }

  predicate AllSendable(ms: seq<CanData>) {
    forall i :: 0 <= i < |ms| ==> Sendable(ms[i])
  }

  /** The packet of a message for this panda; messages for other buses are skipped. */
  function PacketFor(m: CanData): seq<Byte>
    requires Sendable(m)
  {
    if m.src < PANDA_BUS_OFFSET then Encode(m) else []
  }

  function EncodeAll(ms: seq<CanData>): seq<Byte>
    requires AllSendable(ms)
  {
    if ms == [] then [] else EncodeAll(ms[..|ms| - 1]) + PacketFor(ms[|ms| - 1])
  }

  lemma EncodeNone()
    ensures EncodeAll([]) == []
  {
  }

  lemma EncodeAllSnoc(ms: seq<CanData>, m: CanData)
    requires AllSendable(ms) && Sendable(m)
    ensures AllSendable(ms + [m]) && EncodeAll(ms + [m]) == EncodeAll(ms) + PacketFor(m)
  {
  }

  // ---------- receiving ----------

  function PacketSize(s: seq<Byte>): (n: nat)
    requires |s| >= HEADER_SIZE
    ensures HEADER_SIZE <= n <= 70
  {
    HEADER_SIZE + DLC_TO_LEN[HeaderDlc(s)]
  }

  /** The header fields; the bus number is offset for rejected and for returned (echoed) frames. */
  function FrameOf(packet: seq<Byte>): CanFrame
    requires |packet| >= HEADER_SIZE
  {
    var word := HeaderWord(packet);
    CanFrame(word / 8,
             packet[0] / 2 % 8
             + (if word % 2 != 0 then CAN_REJECTED_BUS_OFFSET else 0)
             + (if word / 2 % 2 != 0 then CAN_RETURNED_BUS_OFFSET else 0),
             packet[HEADER_SIZE..])
  }

  /** The reported source tells bus, rejection and echo apart. */
  lemma SrcIdentifies(p: seq<Byte>, q: seq<Byte>)
    requires |p| >= HEADER_SIZE && |q| >= HEADER_SIZE && FrameOf(p).src == FrameOf(q).src
    ensures p[0] / 2 % 8 == q[0] / 2 % 8
    ensures HeaderWord(p) % 2 == HeaderWord(q) % 2 && HeaderWord(p) / 2 % 2 == HeaderWord(q) / 2 % 2
  {
  }

  /** What stands at the front of the bytes received so far. */
  function NextPacket(s: seq<Byte>): (step: Step<CanFrame>)
    ensures step.Incomplete? ==> |s| <= 69
  {
    if |s| < HEADER_SIZE || |s| < PacketSize(s) then Incomplete
    else if Checksum(s[..PacketSize(s)]) != 0 then Corrupt
    else Packet(FrameOf(s[..PacketSize(s)]), PacketSize(s))
  }

  lemma NextPacketExtends(s: seq<Byte>, t: seq<Byte>)
    requires !NextPacket(s).Incomplete?
    ensures NextPacket(s + t) == NextPacket(s)
  {
    assert (s + t)[0] == s[0];
    assert PacketSize(s + t) == PacketSize(s);
    assert (s + t)[..PacketSize(s)] == s[..PacketSize(s)];
  }

  lemma NextPacketWellBehaved()
    ensures WellBehaved(NextPacket)
  {
    forall s, t | !NextPacket(s).Incomplete? ensures NextPacket(s + t) == NextPacket(s) {
      NextPacketExtends(s, t);
    }
  }

  function DecodeCan(s: seq<Byte>): Decoded<CanFrame> {
    NextPacketWellBehaved();
    Decode(NextPacket, s)
  }

  /** `whole` is `frames` followed by what the remaining bytes decode to. */
  ghost predicate DecodesTo(whole: Decoded<CanFrame>, frames: seq<CanFrame>, s: seq<Byte>) {
    whole == DecodeCan(s).(frames := frames + DecodeCan(s).frames)
  }

  lemma DecodesToAll(s: seq<Byte>)
    ensures DecodesTo(DecodeCan(s), [], s)
  {
  }

  /** One more packet moves from the remaining bytes to the frames; a bad one or a short rest ends the decoding. */
  lemma DecodesToStep(whole: Decoded<CanFrame>, frames: seq<CanFrame>, s: seq<Byte>)
    requires DecodesTo(whole, frames, s)
    ensures match NextPacket(s)
            case Packet(frame, size) => size <= |s| && DecodesTo(whole, frames + [frame], s[size..])
            case Corrupt => whole == Decoded(false, frames, [])
            case Incomplete => whole == Decoded(true, frames, s)
  {
  }

  /** The tail carried to the next round is shorter than the largest packet. */
  lemma TailBound(s: seq<Byte>)
    ensures |DecodeCan(s).rest| <= 69 && NextPacket(DecodeCan(s).rest).Incomplete?
  {
    NextPacketWellBehaved();
    TailIsIncomplete(NextPacket, s);
  }

  lemma IncompleteDecodes(s: seq<Byte>)
    requires NextPacket(s).Incomplete?
    ensures DecodeCan(s) == Decoded(true, [], s)
  {
  }

  /** The receiver over a whole run of fragments. */
  function ReceiveCan(tail: seq<Byte>, fragments: seq<seq<Byte>>): Decoded<CanFrame> {
    NextPacketWellBehaved();
    ReceiveAll(NextPacket, tail, fragments)
  }

  /** `whole` is what has been received so far followed by the rest of the run. */
  ghost predicate RunsTo(whole: Decoded<CanFrame>, ok: bool, frames: seq<CanFrame>,
                         tail: seq<Byte>, fragments: seq<seq<Byte>>) {
    var later := ReceiveCan(tail, fragments);
    whole == Decoded(ok && later.ok, frames + later.frames, later.rest)
  }

  lemma RunsToAll(tail: seq<Byte>, fragments: seq<seq<Byte>>)
    ensures RunsTo(ReceiveCan(tail, fragments), true, [], tail, fragments)
  {
  }

  lemma RunsToStep(whole: Decoded<CanFrame>, ok: bool, frames: seq<CanFrame>,
                   tail: seq<Byte>, fragments: seq<seq<Byte>>)
    requires RunsTo(whole, ok, frames, tail, fragments)
    ensures fragments == [] ==> whole == Decoded(ok, frames, tail)
    ensures fragments != [] ==>
              var round := DecodeCan(tail + fragments[0]);
              RunsTo(whole, ok && round.ok, frames + round.frames, round.rest, fragments[1..])
  {
  }

  // ---------- round trip ----------

  /** What the other side should see of a sent message: the address is cut to 29 bits. */
  function Received(m: CanData): CanFrame {
    CanFrame(m.address % ADDRESS_SPACE, m.src, m.dat)
  }

  function ReceivedAll(ms: seq<CanData>): seq<CanFrame> {
    if ms == [] then []
    else
      var last := ms[|ms| - 1];
      ReceivedAll(ms[..|ms| - 1]) + if last.src < 4 then [Received(last)] else []
  }

  lemma FlagsAndAddressFields(address: Address)
    ensures var w := FlagsAndAddress(address);
            w < 0x1_0000_0000 && w / 8 == address % ADDRESS_SPACE && w % 2 == 0 && w / 2 % 2 == 0
  {
    LowBits(address % ADDRESS_SPACE, if address >= 0x800 then 1 else 0);
  }

  lemma LowBits(a: nat, extended: nat)
    requires extended <= 1
    ensures var w := a * 8 + extended * 4; w / 8 == a && w % 2 == 0 && w / 2 % 2 == 0
  {
    assert (a * 8 + extended * 4) / 2 == a * 4 + extended * 2;
  }

  lemma WordRoundTrip(w: nat)
    ensures LittleEndian(w % 256, w / 256 % 256, w / 256 / 256 % 256, w / 256 / 256 / 256) == w
  {
  }

  lemma FirstByteRoundTrip(bus: nat, code: nat)
    requires bus < 8 && code < 16
    ensures (bus % 8 * 2 + code * 16) / 16 == code && (bus % 8 * 2 + code * 16) / 2 % 8 == bus
  {
    assert bus % 8 == bus;
    assert (bus * 2 + code * 16) / 2 == bus + code * 8;
  }

  lemma HeaderRoundTrip(m: CanData, code: nat, checksum: Byte)
    requires code < 16 && m.src < PANDA_BUS_OFFSET
    ensures var p := Header(m.src, code, m.address, checksum) + m.dat;
            HeaderDlc(p) == code && FrameOf(p) == Received(m)
  {
    var h := Header(m.src, code, m.address, checksum);
    var p := h + m.dat;
    FirstByteRoundTrip(m.src, code);
    assert HeaderWord(p) == FlagsAndAddress(m.address) by {
      WordRoundTrip(FlagsAndAddress(m.address));
    }
    assert FrameOf(p).dat == m.dat;
    assert FrameOf(p).address == Received(m).address && FrameOf(p).src == Received(m).src by {
      FlagsAndAddressFields(m.address);
    }
  }

  lemma EncodedChecksum(m: CanData)
    requires |m.dat| in DLC_TO_LEN
    ensures Checksum(Encode(m)) == 0
  {
    LenToDlcRoundsUp(|m.dat|);
    var h0 := Header(m.src, LenToDlc(|m.dat|), m.address, 0);
    var c := Checksum(h0 + m.dat);
    assert h0 == h0[..5] + [0];
    ChecksumFill(h0[..5], m.dat, c);
    assert Header(m.src, LenToDlc(|m.dat|), m.address, AsByte(c)) == h0[..5] + [AsByte(c)];
  }

  lemma EncodedPacket(m: CanData)
    requires m.src < PANDA_BUS_OFFSET && |m.dat| in DLC_TO_LEN
    ensures NextPacket(Encode(m)) == Packet(Received(m), |Encode(m)|)
  {
    var p := Encode(m);
    assert HeaderDlc(p) == LenToDlc(|m.dat|) && FrameOf(p) == Received(m) && PacketSize(p) == |p| by {
      LenToDlcRoundsUp(|m.dat|);
      var code := LenToDlc(|m.dat|);
      HeaderRoundTrip(m, code, AsByte(Checksum(Header(m.src, code, m.address, 0) + m.dat)));
    }
    EncodedChecksum(m);
    assert p[..|p|] == p;
  }

  /** Bytes that decode without a tail, followed by others. */
  lemma DecodeBoth(a: seq<Byte>, b: seq<Byte>)
    requires DecodeCan(a).ok && DecodeCan(a).rest == []
    ensures DecodeCan(a + b) == DecodeCan(b).(frames := DecodeCan(a).frames + DecodeCan(b).frames)
  {
    NextPacketWellBehaved();
    DecodeSplit(NextPacket, a, b);
    assert [] + b == b;
  }

  lemma DecodeNone()
    ensures DecodeCan([]) == Decoded(true, [], [])
  {
    assert NextPacket([]).Incomplete?;
  }

  /** A packed message list decodes to exactly the messages for this panda, in order, with nothing left. */
  lemma {:induction false} PackDecode(ms: seq<CanData>)
    requires AllSendable(ms)
    ensures DecodeCan(EncodeAll(ms)) == Decoded(true, ReceivedAll(ms), [])
  {
    hide DecodeCan, PacketFor;
    DecodeNone();
    if ms != [] {
      var init, last := ms[..|ms| - 1], ms[|ms| - 1];
      PackDecode(init);
      PacketDecodes(last);
      DecodeBoth(EncodeAll(init), PacketFor(last));
    }
  }

  lemma PacketDecodes(m: CanData)
    requires Sendable(m)
    ensures DecodeCan(PacketFor(m)) == Decoded(true, if m.src < PANDA_BUS_OFFSET then [Received(m)] else [], [])
  {
    NextPacketWellBehaved();
    if m.src < PANDA_BUS_OFFSET {
      EncodedPacket(m);
      assert Encode(m)[|Encode(m)|..] == [];
      assert DecodeCan([]) == Decoded(true, [], []);
    }
  }

  /** A message comes back unchanged, address included, exactly when its address fits in 29 bits. */
  lemma AddressKept(m: CanData)
    ensures Received(m).address == m.address <==> m.address < ADDRESS_SPACE
  {
  }

  /** An address with 30 bits loses its top bit on the way. */
  lemma AddressCut()
    ensures var m := CanData(0x2000_0001, 0, []);
            AllSendable([m]) && DecodeCan(EncodeAll([m])) == Decoded(true, [CanFrame(1, 0, [])], [])
  {
    hide DecodeCan, EncodeAll;
    var m := CanData(0x2000_0001, 0, []);
    assert Sendable(m) by { assert DLC_TO_LEN[0] == 0; }
    PackDecode([m]);
    assert ReceivedAll([m]) == ReceivedAll([]) + [Received(m)];
  }

  /** The end-to-end law: send any messages, cut the bytes anywhere, and the receiver yields exactly them. */
  lemma SendReceive(ms: seq<CanData>, fragments: seq<seq<Byte>>)
    requires AllSendable(ms)
    requires Flatten(fragments) == EncodeAll(ms)
    ensures ReceiveCan([], fragments) == Decoded(true, ReceivedAll(ms), [])
  {
    NextPacketWellBehaved();
    PackDecode(ms);
    assert [] + Flatten(fragments) == EncodeAll(ms);
    FragmentationIndependence(NextPacket, [], fragments);
  }
}
