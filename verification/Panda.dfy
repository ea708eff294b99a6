/** The in-place buffers of the panda link: batching on send, reassembly on receive. */
module PandaLink {
  import opened Sequences
  import opened Bits
  import opened Framing
  import opened CanCodec

  const USB_TX_SOFT_LIMIT := 0x100
  const RECV_SIZE := 0x4000
  const RECEIVE_BUFFER_SIZE := RECV_SIZE + HEADER_SIZE + 64

  /** `size - sizeof(can_header)` in 64-bit unsigned arithmetic: it wraps for tails shorter than a header. */
  function SizeMinusHeader(size: nat): nat {
    if size >= HEADER_SIZE then size - HEADER_SIZE else size + 0x1_0000_0000_0000_0000 - HEADER_SIZE
  }

  method CalculateChecksum(data: array<Byte>, start: nat, len: nat) returns (checksum: bv8)
    requires start + len <= data.Length
    ensures checksum == Checksum(data[start..start + len])
  {
    checksum := 0;
    for i := 0 to len
      invariant checksum == Checksum(data[start..start + i])
    {
      assert data[start..start + i + 1][..i] == data[start..start + i];
      checksum := checksum ^ AsBits(data[start + i]);
    }
  }

  /** memcpy of `bytes` to position `at`. */
  method Blit(buffer: array<Byte>, at: nat, bytes: seq<Byte>)
    requires at + |bytes| <= buffer.Length
    modifies buffer
    ensures buffer[..] == old(buffer[..])[..at] + bytes + old(buffer[..])[at + |bytes|..]
  {
    forall i | 0 <= i < |bytes| {
      buffer[at + i] := bytes[i];
    }
  }

  /** Two adjacent writes, and then one byte of them again, are one write. */
  lemma BlitAll(s: seq<Byte>, at: nat, a: seq<Byte>, b: seq<Byte>, k: nat, c: Byte)
    requires at + |a| + |b| <= |s| && k < |a|
    ensures var t := s[..at] + a + s[at + |a|..];
            var u := t[..at + |a|] + b + t[at + |a| + |b|..];
            && u == s[..at] + (a + b) + s[at + |a| + |b|..]
            && u[at + k := c] == s[..at] + (a + b)[k := c] + s[at + |a| + |b|..]
  {
    var t := s[..at] + a + s[at + |a|..];
    assert t[..at + |a|] == s[..at] + a;
  }

  lemma Middle(a: seq<Byte>, b: seq<Byte>, c: seq<Byte>)
    ensures (a + b + c)[..|a|] == a && (a + b + c)[|a|..|a| + |b|] == b
  {
  }

  lemma SameParts(a: array<Byte>, low: nat, high: nat)
    requires low <= high <= a.Length
    ensures a[..][..low] == a[..low] && a[..][low..high] == a[low..high]
  {
  }

  /** Writes one packet the way the sender does: zero checksum first, then the real one in place. */
  method WritePacket(buffer: array<Byte>, pos: nat, m: CanData)
    requires |m.dat| in DLC_TO_LEN && pos + HEADER_SIZE + |m.dat| <= buffer.Length
    modifies buffer
    ensures buffer[..pos] == old(buffer[..pos])
    ensures buffer[pos..pos + |Encode(m)|] == Encode(m)
  {
    hide Header, Checksum, LenToDlc, AsByte;
    LenToDlcRoundsUp(|m.dat|);
    var code := LenToDlc(|m.dat|);
    var size := HEADER_SIZE + |m.dat|;
    ghost var before, unchecked := buffer[..], Header(m.src, code, m.address, 0) + m.dat;
    SameParts(buffer, pos, pos + size);
    Blit(buffer, pos, Header(m.src, code, m.address, 0));
    Blit(buffer, pos + HEADER_SIZE, m.dat);
    ghost var c := AsByte(Checksum(unchecked));
    BlitAll(before, pos, Header(m.src, code, m.address, 0), m.dat, HEADER_SIZE - 1, c);
    Middle(before[..pos], unchecked, before[pos + size..]);
    SameParts(buffer, pos, pos + size);
    var checksum := CalculateChecksum(buffer, pos, size);
    ghost var written := buffer[..];
    buffer[pos + HEADER_SIZE - 1] := AsByte(checksum);
    assert buffer[..] == written[pos + HEADER_SIZE - 1 := c];
    Middle(before[..pos], unchecked[HEADER_SIZE - 1 := c], before[pos + size..]);
    SameParts(buffer, pos, pos + size);
    HeaderFill(m, code, c);
  }

  lemma HeaderFill(m: CanData, code: nat, c: Byte)
    requires code < 16
    ensures (Header(m.src, code, m.address, 0) + m.dat)[HEADER_SIZE - 1 := c]
         == Header(m.src, code, m.address, c) + m.dat
  {
  }

  /** A write to the device: not empty, within the 512-byte buffer with room to spare, and only whole packets. */
  ghost predicate GoodWrite(w: seq<Byte>) {
    0 < |w| <= 325 && DecodeCan(w).ok && DecodeCan(w).rest == []
  }

  /** After the messages `done`, `writes` have gone out and `batch` waits in the buffer. */
  ghost predicate Packed(done: seq<CanData>, writes: seq<seq<Byte>>, batch: seq<CanData>) {
    && AllSendable(done) && AllSendable(batch)
    && Flatten(writes) + EncodeAll(batch) == EncodeAll(done)
    && forall k :: 0 <= k < |writes| ==> GoodWrite(writes[k]) && USB_TX_SOFT_LIMIT <= |writes[k]|
  }

  lemma PackStart()
    ensures Packed([], [], []) && EncodeAll([]) == []
  {
  }

  lemma PackMessage(done: seq<CanData>, writes: seq<seq<Byte>>, batch: seq<CanData>, m: CanData)
    requires Packed(done, writes, batch) && Sendable(m)
    ensures m.src < PANDA_BUS_OFFSET ==>
              && Packed(done + [m], writes, batch + [m])
              && AllSendable(batch + [m]) && EncodeAll(batch + [m]) == EncodeAll(batch) + Encode(m)
    ensures m.src >= PANDA_BUS_OFFSET ==> Packed(done + [m], writes, batch)
  {
    hide Encode, EncodeAll, GoodWrite, Flatten;
    EncodeAllSnoc(done, m);
    EncodeAllSnoc(batch, m);
  }

  lemma PackFlush(done: seq<CanData>, writes: seq<seq<Byte>>, batch: seq<CanData>)
    requires Packed(done, writes, batch) && USB_TX_SOFT_LIMIT <= |EncodeAll(batch)| <= 325
    ensures Packed(done, writes + [EncodeAll(batch)], [])
  {
    hide Encode, EncodeAll, GoodWrite, Flatten;
    WholePackets(batch);
    FlattenSnoc(writes, EncodeAll(batch));
    EncodeNone();
  }

  /** What is left at the end goes out as the last write, if there is anything. */
  lemma PackEnd(done: seq<CanData>, writes: seq<seq<Byte>>, batch: seq<CanData>)
    requires Packed(done, writes, batch) && |EncodeAll(batch)| <= 325
    ensures EncodeAll(batch) == [] ==> Flatten(writes) == EncodeAll(done)
    ensures EncodeAll(batch) != [] ==>
              GoodWrite(EncodeAll(batch)) && Flatten(writes + [EncodeAll(batch)]) == EncodeAll(done)
  {
    hide Encode, EncodeAll, GoodWrite, Flatten;
    if EncodeAll(batch) != [] {
      WholePackets(batch);
      FlattenSnoc(writes, EncodeAll(batch));
    }
  }

  method PackCanBuffer(messages: seq<CanData>) returns (writes: seq<seq<Byte>>)
    requires AllSendable(messages)
    ensures Flatten(writes) == EncodeAll(messages)
    ensures forall i :: 0 <= i < |writes| ==> GoodWrite(writes[i])
    ensures forall i :: 0 <= i < |writes| - 1 ==> 256 <= |writes[i]|
  {
    hide Encode, EncodeAll, GoodWrite, Flatten;
    writes := [];
    var sendBuf := new Byte[2 * USB_TX_SOFT_LIMIT];
    var pos := 0;
    ghost var batch: seq<CanData> := [];
    PackStart();
    assert messages[..0] == [];
    for i := 0 to |messages|
      invariant 0 <= pos < USB_TX_SOFT_LIMIT
      invariant Packed(messages[..i], writes, batch) && sendBuf[..pos] == EncodeAll(batch)
    {
      var m := messages[i];
      assert messages[..i + 1] == messages[..i] + [m];
      PackMessage(messages[..i], writes, batch, m);
      if m.src < PANDA_BUS_OFFSET {
        ghost var packed := sendBuf[..pos];
        WritePacket(sendBuf, pos, m);
        batch := batch + [m];
        assert sendBuf[..pos + |Encode(m)|] == packed + Encode(m);
        pos := pos + HEADER_SIZE + |m.dat|;
        if pos >= USB_TX_SOFT_LIMIT {
          PackFlush(messages[..i + 1], writes, batch);
          writes := writes + [sendBuf[..pos]];
          pos, batch := 0, [];
          PackStart();
        }
      }
    }
    assert messages[..|messages|] == messages;
    PackEnd(messages, writes, batch);
    if pos > 0 {
      writes := writes + [sendBuf[..pos]];
    }
  }

  lemma WholePackets(batch: seq<CanData>)
    requires AllSendable(batch) && 0 < |EncodeAll(batch)| <= 325
    ensures GoodWrite(EncodeAll(batch))
  {
    PackDecode(batch);
  }

  /** What the header at the front says about the bytes `s`. */
  lemma FrontOf(s: seq<Byte>)
    ensures |s| < HEADER_SIZE ==> NextPacket(s).Incomplete?
    ensures |s| >= HEADER_SIZE ==>
              var n := PacketSize(s[..HEADER_SIZE]);
              && (n > |s| ==> NextPacket(s).Incomplete?)
              && (n <= |s| ==> NextPacket(s) == if Checksum(s[..n]) != 0 then Corrupt else Packet(FrameOf(s[..n]), n))
  {
    hide Checksum, FrameOf;
    if |s| >= HEADER_SIZE {
      assert s[..HEADER_SIZE][0] == s[0];
    }
  }

  lemma SamePrefix(a: array<Byte>, low: nat, high: nat, n: nat)
    requires low + n <= high <= a.Length
    ensures a[low..high][..n] == a[low..low + n]
  {
    forall i | 0 <= i < n ensures a[low..high][..n][i] == a[low..low + n][i] {
    }
  }

  /** Decodes the first `size` bytes of `data` and moves the incomplete tail to the front. */
  method UnpackCanBuffer(data: array<Byte>, size: nat) returns (ok: bool, newSize: nat, frames: seq<CanFrame>)
    requires HEADER_SIZE <= data.Length && size <= data.Length
    modifies data
    ensures newSize <= size
    ensures DecodeCan(old(data[..size])) == Decoded(ok, frames, data[..newSize])
  {
    hide DecodesTo, DecodeCan, NextPacket, FrameOf, Checksum, PacketSize;
    ghost var whole := DecodeCan(data[..size]);
    frames := [];
    var pos := 0;
    DecodesToAll(data[..size]);
    ghost var s := data[..size];
    while pos <= SizeMinusHeader(size)
      invariant pos <= size && data[..] == old(data[..])
      invariant s == data[pos..size] && DecodesTo(whole, frames, s)
      invariant size < HEADER_SIZE ==> pos == 0
      decreases size - pos
    {
      DecodesToStep(whole, frames, s);
      FrontOf(s);
      var header := data[pos..pos + HEADER_SIZE];
      var packetSize := PacketSize(header);
      if size >= HEADER_SIZE {
        SamePrefix(data, pos, size, HEADER_SIZE);
      }
      if pos + packetSize > size {
        break;
      }
      SamePrefix(data, pos, size, packetSize);
      var checksum := CalculateChecksum(data, pos, packetSize);
      if checksum != 0 {
        return false, 0, frames;
      }
      frames := frames + [FrameOf(data[pos..pos + packetSize])];
      pos := pos + packetSize;
      s := s[packetSize..];
    }
    FrontOf(s);
    DecodesToStep(whole, frames, s);
    ok, newSize := true, size - pos;
    MoveToFront(data, pos, newSize);
  }

  /** memmove of `n` bytes from `start` to the front. */
  method MoveToFront(data: array<Byte>, start: nat, n: nat)
    requires start + n <= data.Length
    modifies data
    ensures data[..n] == old(data[start..start + n])
  {
    forall i | 0 <= i < n {
      data[i] := data[start + i];
    }
  }

  class Panda {
    const receiveBuffer: array<Byte>
    var receiveBufferSize: nat

    /** Between rounds the buffer holds less than one whole packet. */
    ghost predicate Valid()
      reads this, receiveBuffer
    {
      && receiveBuffer.Length == RECEIVE_BUFFER_SIZE
      && receiveBufferSize <= 69
      && NextPacket(Tail()).Incomplete?
    }

    ghost function Tail(): seq<Byte>
      reads this, receiveBuffer
      requires receiveBufferSize <= receiveBuffer.Length
    {
      receiveBuffer[..receiveBufferSize]
    }

    constructor ()
      ensures Valid() && fresh(receiveBuffer) && receiveBuffer.Length == 0x4000 + 70 && Tail() == []
    {
      receiveBuffer := new Byte[RECEIVE_BUFFER_SIZE];
      receiveBufferSize := 0;
    }

    /** One round: `incoming` is what the transport wrote, `healthy` its state afterwards. */
    method CanReceive(incoming: seq<Byte>, healthy: bool) returns (ok: bool, frames: seq<CanFrame>)
      requires Valid() && |incoming| <= 0x4000
      modifies this`receiveBufferSize, receiveBuffer
      ensures Valid()
      ensures !healthy ==> !ok && frames == [] && Tail() == old(Tail())
      ensures healthy ==> Decoded(ok, frames, Tail()) == DecodeCan(old(Tail()) + incoming)
    {
      hide NextPacket, DecodeCan;
      assert receiveBufferSize + RECV_SIZE <= receiveBuffer.Length;  // the source's own space check
      frames := [];
      Blit(receiveBuffer, receiveBufferSize, incoming);
      assert Tail() == old(Tail());
      if !healthy {
        return false, [];
      }
      ok := true;
      if |incoming| > 0 {
        ghost var tail := Tail();
        receiveBufferSize := receiveBufferSize + |incoming|;
        assert receiveBuffer[..receiveBufferSize] == tail + incoming;
        ok, receiveBufferSize, frames := UnpackCanBuffer(receiveBuffer, receiveBufferSize);
        TailBound(tail + incoming);
      } else {
        IncompleteDecodes(old(Tail()));
        assert old(Tail()) + incoming == old(Tail());
      }
    }

    /** A run of healthy rounds, whatever their outcomes. */
    method ReceiveRun(fragments: seq<seq<Byte>>) returns (ok: bool, frames: seq<CanFrame>)
      requires Valid() && forall i :: 0 <= i < |fragments| ==> |fragments[i]| <= 0x4000
      modifies this`receiveBufferSize, receiveBuffer
      ensures Valid()
      ensures Decoded(ok, frames, Tail()) == ReceiveCan(old(Tail()), fragments)
    {
      hide RunsTo, ReceiveCan, DecodeCan, NextPacket;
      ok, frames := true, [];
      ghost var whole := ReceiveCan(Tail(), fragments);
      RunsToAll(Tail(), fragments);
      ghost var later := fragments;
      for i := 0 to |fragments|
        invariant Valid()
        invariant later == fragments[i..] && RunsTo(whole, ok, frames, Tail(), later)
      {
        RunsToStep(whole, ok, frames, Tail(), later);
        var roundOk, received := CanReceive(fragments[i], true);
        ok, frames, later := ok && roundOk, frames + received, later[1..];
      }
      RunsToStep(whole, ok, frames, Tail(), later);
    }
  }
}
