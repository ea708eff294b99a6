/**
 Reassembly of packets from a byte stream, for any packet format.  A format says what stands at the
 front of the bytes received so far: nothing whole yet, a corrupt packet, or a packet of some size.
 */
module Framing {
  import opened Sequences

  datatype Step<+F> = Incomplete | Corrupt | Packet(frame: F, size: nat)

  datatype Decoded<+F> = Decoded(ok: bool, frames: seq<F>, rest: seq<Byte>)

  type Format<!F> = seq<Byte> -> Step<F>

  /** Packets are not empty and lie within the bytes, and more bytes do not change a decision. */
  ghost predicate WellBehaved<F(!new)>(format: Format<F>) {
    && (forall s :: format(s).Packet? ==> 0 < format(s).size <= |s|)
    && (forall s, t :: !format(s).Incomplete? ==> format(s + t) == format(s))
  }

  /**
   The frames of a byte stream and the incomplete tail.  A corrupt packet ends the decoding: the
   frames before it have been delivered and everything else is dropped.
   */
  function Decode<F(!new)>(format: Format<F>, s: seq<Byte>): (d: Decoded<F>)
    requires WellBehaved(format)
    decreases |s|
  {
    match format(s)
    case Incomplete => Decoded(true, [], s)
    case Corrupt => Decoded(false, [], [])
    case Packet(frame, size) =>
      var d := Decode(format, s[size..]);
      d.(frames := [frame] + d.frames)
  }

  /** Decoding `a` and then its tail followed by `b`. */
  function DecodeTwice<F(!new)>(format: Format<F>, a: seq<Byte>, b: seq<Byte>): Decoded<F>
    requires WellBehaved(format)
  {
    var first := Decode(format, a);
    if !first.ok then first
    else
      var next := Decode(format, first.rest + b);
      next.(frames := first.frames + next.frames)
  }

  /** One cut of the stream does not matter; a corrupt packet in `a` hides everything after it. */
  lemma {:induction false} DecodeSplit<F(!new)>(format: Format<F>, a: seq<Byte>, b: seq<Byte>)
    requires WellBehaved(format)
    ensures Decode(format, a + b) == DecodeTwice(format, a, b)
    decreases |a|
  {
    match format(a)
    case Incomplete =>
      assert [] + Decode(format, a + b).frames == Decode(format, a + b).frames;
    case Corrupt =>
    case Packet(frame, size) =>
      DecodeSplit(format, a[size..], b);
      assert (a + b)[size..] == a[size..] + b;
      DecodeTwiceStep(format, a, b);
  }

  lemma DecodeTwiceStep<F(!new)>(format: Format<F>, a: seq<Byte>, b: seq<Byte>)
    requires WellBehaved(format) && format(a).Packet?
    ensures var later := DecodeTwice(format, a[format(a).size..], b);
            DecodeTwice(format, a, b) == later.(frames := [format(a).frame] + later.frames)
  {
  }

  /** The tail holds no whole packet, and without corruption it is a suffix of the stream. */
  lemma {:induction false} TailIsIncomplete<F(!new)>(format: Format<F>, s: seq<Byte>)
    requires WellBehaved(format)
    ensures var d := Decode(format, s);
            && |d.rest| <= |s|
            && (d.ok ==> format(d.rest).Incomplete? && d.rest == s[|s| - |d.rest|..])
            && (!d.ok ==> d.rest == [])
    decreases |s|
  {
    if format(s).Packet? {
      TailIsIncomplete(format, s[format(s).size..]);
    }
  }

  /** The receiver over a whole run: each fragment is appended to the tail of the previous round. */
  function ReceiveAll<F(!new)>(format: Format<F>, tail: seq<Byte>, fragments: seq<seq<Byte>>): Decoded<F>
    requires WellBehaved(format)
    decreases |fragments|
  {
    if fragments == [] then Decoded(true, [], tail)
    else
      var first := Decode(format, tail + fragments[0]);
      var later := ReceiveAll(format, first.rest, fragments[1..]);
      Decoded(first.ok && later.ok, first.frames + later.frames, later.rest)
  }

  /**
   However a stream is cut into fragments, a run reports no corruption exactly when the whole
   stream has none, and then it delivers the same frames and keeps the same tail.  In any case it delivers
   the frames before the first corrupt packet, first and in order.
   */
  lemma {:induction false} FragmentationIndependence<F(!new)>(
      format: Format<F>, tail: seq<Byte>, fragments: seq<seq<Byte>>)
    requires WellBehaved(format) && format(tail).Incomplete?
    ensures var run, whole := ReceiveAll(format, tail, fragments), Decode(format, tail + Flatten(fragments));
            (run.ok <==> whole.ok) && (run.ok ==> run == whole) && whole.frames <= run.frames
    decreases |fragments|
  {
    if fragments == [] {
      assert tail + Flatten(fragments) == tail;
    } else {
      var a, b := tail + fragments[0], Flatten(fragments[1..]);
      assert tail + Flatten(fragments) == a + b;
      DecodeSplit(format, a, b);
      TailIsIncomplete(format, a);
      if Decode(format, a).ok {
        FragmentationIndependence(format, Decode(format, a).rest, fragments[1..]);
      }
    }
  }
}
