/** The segmenting transport of ES10x commands to the eUICC (section 5.7.2 of GSMA SGP.22). */
module Es10x {
  import opened Sequences

  /** What the card answers to one APDU. */
  datatype Reply = Reply(segment: seq<Byte>, sw1: Byte, sw2: Byte)

  const ES10X_MSS := 120
  const STORE_DATA: Byte := 0xE2

  // ---------- the blocks of a command ----------

  function BlockCount(n: nat): nat {
    (n + ES10X_MSS - 1) / ES10X_MSS
  }

  function BlockEnd(data: seq<Byte>, i: nat): nat {
    if ES10X_MSS * (i + 1) <= |data| then ES10X_MSS * (i + 1) else |data|
  }

  /** Payload of block `i`: 120 bytes, or what is left for the last one. */
  function Payload(data: seq<Byte>, i: nat): (chunk: seq<Byte>)
    requires i < BlockCount(|data|)
    ensures 1 <= |chunk| <= ES10X_MSS
    ensures i < BlockCount(|data|) - 1 ==> |chunk| == ES10X_MSS
  {
    data[ES10X_MSS * i..BlockEnd(data, i)]
  }

  function StoreData(data: seq<Byte>, i: nat): seq<Byte>
    requires i < BlockCount(|data|)
  {
    [0x80, STORE_DATA, if i == BlockCount(|data|) - 1 then 0x91 else 0x11, i % 256, |Payload(data, i)|]
    + Payload(data, i)
  }

  function GetResponse(length: Byte): seq<Byte> {
    [0x80, 0xC0, 0x00, 0x00, length]
  }

  function Payloads(data: seq<Byte>, k: nat): seq<seq<Byte>>
    requires k <= BlockCount(|data|)
  {
    if k == 0 then [] else Payloads(data, k - 1) + [Payload(data, k - 1)]
  }

  /** The blocks carry the command: nothing lost, repeated or reordered. */
  lemma {:induction false} PayloadsCarryCommand(data: seq<Byte>, k: nat)
    requires k <= BlockCount(|data|)
    ensures |Payloads(data, k)| == k
    ensures forall i :: 0 <= i < k ==> Payloads(data, k)[i] == Payload(data, i)
    ensures Flatten(Payloads(data, k)) == if k == 0 then [] else data[..BlockEnd(data, k - 1)]
    ensures k == BlockCount(|data|) ==> Flatten(Payloads(data, k)) == data
  {
    if k > 0 {
      PayloadsCarryCommand(data, k - 1);
      FlattenSnoc(Payloads(data, k - 1), Payload(data, k - 1));
      assert ES10X_MSS * (k - 1) < |data|;
      assert k >= 2 ==> BlockEnd(data, k - 2) == ES10X_MSS * (k - 1);
      assert data[..ES10X_MSS * (k - 1)] + Payload(data, k - 1) == data[..BlockEnd(data, k - 1)];
    }
    assert data[..|data|] == data;
  }

  // ---------- the conversation ----------

  predicate More(r: Reply) { r.sw1 == 0x61 }

  predicate Accepted(r: Reply) { r.sw1 / 16 == 9 }

  lemma StatusWords(r: Reply)
    ensures More(r) <==> r.sw1 == 0x61
    ensures Accepted(r) <==> 0x90 <= r.sw1 <= 0x9F
  {
  }

  /** All segments of the first `n` replies, in order. */
  function Segments(script: seq<Reply>, n: nat): seq<Byte>
    requires n <= |script|
  {
    if n == 0 then [] else Segments(script, n - 1) + script[n - 1].segment
  }

  /** The STORE DATA commands among `sent`. */
  function Stores(sent: seq<seq<Byte>>): seq<seq<Byte>> {
    if sent == [] then []
    else
      var last := sent[|sent| - 1];
      Stores(sent[..|sent| - 1]) + if |last| > 1 && last[1] == STORE_DATA then [last] else []
  }

  /** `stores` is the first `|stores|` blocks of the command. */
  ghost predicate AreBlocks(data: seq<Byte>, stores: seq<seq<Byte>>) {
    && |stores| <= BlockCount(|data|)
    && forall i :: 0 <= i < |stores| ==> stores[i] == StoreData(data, i)
  }

  /**
   Each command follows from the reply before it: a GET RESPONSE for the announced length exactly
   when more data was announced, a STORE DATA otherwise.
   */
  ghost predicate Follows(script: seq<Reply>, sent: seq<seq<Byte>>) {
    && |sent| <= |script| + 1
    && forall j :: 0 <= j < |sent| ==>
         if j > 0 && More(script[j - 1]) then sent[j] == GetResponse(script[j - 1].sw2)
         else |sent[j]| > 1 && sent[j][1] == STORE_DATA
  }

  ghost predicate AllAnswered(script: seq<Reply>, n: nat)
    requires n <= |script|
  {
    forall j :: 0 <= j < n ==> More(script[j]) || Accepted(script[j])
  }

  /** Replies so far are all good and the last one ended its block. */
  ghost predicate BlockFinished(script: seq<Reply>, n: nat) {
    n <= |script| && AllAnswered(script, n) && (n > 0 ==> Accepted(script[n - 1]))
  }

  /** The last command is still unanswered; `blocks` blocks have been sent. */
  ghost predicate Asked(data: seq<Byte>, script: seq<Reply>, sent: seq<seq<Byte>>, blocks: nat) {
    && 0 < |sent| && Follows(script, sent) && AllAnswered(script, |sent| - 1)
    && AreBlocks(data, Stores(sent)) && |Stores(sent)| == blocks
  }

  /** `blocks` blocks have been sent and accepted. */
  ghost predicate Between(data: seq<Byte>, script: seq<Reply>, sent: seq<seq<Byte>>, blocks: nat) {
    && Follows(script, sent) && BlockFinished(script, |sent|)
    && AreBlocks(data, Stores(sent)) && |Stores(sent)| == blocks
  }

  lemma SendBlock(data: seq<Byte>, script: seq<Reply>, sent: seq<seq<Byte>>, blocks: nat)
    requires Between(data, script, sent, blocks) && blocks < BlockCount(|data|)
    ensures Asked(data, script, sent + [StoreData(data, blocks)], blocks + 1)
  {
  }

  lemma AskForMore(data: seq<Byte>, script: seq<Reply>, sent: seq<seq<Byte>>, blocks: nat)
    requires Asked(data, script, sent, blocks) && |sent| <= |script| && More(script[|sent| - 1])
    ensures Asked(data, script, sent + [GetResponse(script[|sent| - 1].sw2)], blocks)
  {
  }

  lemma BlockAccepted(data: seq<Byte>, script: seq<Reply>, sent: seq<seq<Byte>>, blocks: nat)
    requires Asked(data, script, sent, blocks) && |sent| <= |script| && Accepted(script[|sent| - 1])
    ensures Between(data, script, sent, blocks)
  {
  }

  /** Where the next block starts. */
  function OffsetOf(data: seq<Byte>, blocks: nat): nat {
    if blocks == 0 then 0 else BlockEnd(data, blocks - 1)
  }

  lemma OffsetAdvances(data: seq<Byte>, blocks: nat)
    requires blocks <= BlockCount(|data|)
    ensures OffsetOf(data, blocks) <= |data|
    ensures OffsetOf(data, blocks) == |data| <==> blocks == BlockCount(|data|)
    ensures blocks < BlockCount(|data|) ==>
              OffsetOf(data, blocks) == ES10X_MSS * blocks && OffsetOf(data, blocks + 1) == BlockEnd(data, blocks)
  {
  }

  lemma NothingSent(data: seq<Byte>, script: seq<Reply>)
    ensures Between(data, script, [], 0) && OffsetOf(data, 0) == 0 && Segments(script, 0) == []
  {
  }

  lemma BlocksSent(data: seq<Byte>, script: seq<Reply>, sent: seq<seq<Byte>>, blocks: nat)
    requires Asked(data, script, sent, blocks)
    ensures |Stores(sent)| == blocks
  {
  }

  lemma SegmentsStep(script: seq<Reply>, n: nat)
    requires 0 < n <= |script|
    ensures Segments(script, n) == Segments(script, n - 1) + script[n - 1].segment
  {
  }

  /** The slice and the last mark that the loop computes from its offset are those of block `blocks`. */
  lemma BlockBytes(data: seq<Byte>, blocks: nat, offset: nat, chunk: seq<Byte>)
    requires blocks < BlockCount(|data|) && offset == OffsetOf(data, blocks) < |data|
    requires chunk == data[offset..if offset + ES10X_MSS <= |data| then offset + ES10X_MSS else |data|]
    ensures 0 < |chunk| <= ES10X_MSS && offset + |chunk| == OffsetOf(data, blocks + 1) <= |data|
    ensures StoreData(data, blocks)
         == [0x80, STORE_DATA, if offset + |chunk| == |data| then 0x91 else 0x11, blocks % 256, |chunk|] + chunk
  {
    OffsetAdvances(data, blocks);
    OffsetAdvances(data, blocks + 1);
    assert chunk == Payload(data, blocks);
  }

  /**
   Sends `data` to a card that answers with `script`, one reply per command, and then no more.
   Success means that the card took every block and accepted each; the result is everything it said.
   */
  method Es10xCommand(data: seq<Byte>, script: seq<Reply>) returns (r: Option<seq<Byte>>, sent: seq<seq<Byte>>)
    ensures r.Some? ==> Between(data, script, sent, BlockCount(|data|)) && r.value == Segments(script, |sent|)
    ensures r.None? ==> Asked(data, script, sent, |Stores(sent)|)
    ensures r.None? && |sent| <= |script| ==>
              var sw1 := script[|sent| - 1].sw1; sw1 != 0x61 && (sw1 < 0x90 || sw1 > 0x9F)
  {
    hide Between, Asked, BlockCount, BlockEnd, OffsetOf, Payload, StoreData, GetResponse;
    hide Stores, AreBlocks, AllAnswered, Follows, BlockFinished, More, Accepted, Segments;
    NothingSent(data, script);
    var response: seq<Byte> := [];
    var sequence, offset := 0, 0;
    sent := [];
    while offset < |data|
      invariant sequence <= BlockCount(|data|) && offset == OffsetOf(data, sequence)
      invariant Between(data, script, sent, sequence)
      invariant |sent| <= |script| && response == Segments(script, |sent|)
      decreases |data| - offset
    {
      OffsetAdvances(data, sequence);
      var chunk := data[offset..if offset + ES10X_MSS <= |data| then offset + ES10X_MSS else |data|];
      BlockBytes(data, sequence, offset, chunk);
      offset := offset + |chunk|;
      var isLast := offset == |data|;
      var apdu := [0x80, STORE_DATA, if isLast then 0x91 else 0x11, sequence % 256, |chunk|] + chunk;
      SendBlock(data, script, sent, sequence);
      sent := sent + [apdu];
      if |sent| > |script| {
        BlocksSent(data, script, sent, sequence + 1);
        return None, sent;
      }
      var reply := script[|sent| - 1];
      SegmentsStep(script, |sent|);
      response := response + reply.segment;
      while More(reply)
        invariant 0 < |sent| <= |script| && reply == script[|sent| - 1]
        invariant Asked(data, script, sent, sequence + 1)
        invariant response == Segments(script, |sent|)
        decreases |script| - |sent|
      {
        AskForMore(data, script, sent, sequence + 1);
        sent := sent + [GetResponse(reply.sw2)];
        if |sent| > |script| {
          BlocksSent(data, script, sent, sequence + 1);
          return None, sent;
        }
        reply := script[|sent| - 1];
        SegmentsStep(script, |sent|);
        response := response + reply.segment;
      }
      StatusWords(reply);
      if !Accepted(reply) {
        BlocksSent(data, script, sent, sequence + 1);
        return None, sent;
      }
      BlockAccepted(data, script, sent, sequence + 1);
      sequence := sequence + 1;
    }
    OffsetAdvances(data, sequence);
    r := Some(response);
  }

  /** What follows the five header bytes of each command. */
  function PayloadsOf(stores: seq<seq<Byte>>): seq<seq<Byte>>
    requires forall i :: 0 <= i < |stores| ==> |stores[i]| >= 5
  {
    seq(|stores|, i requires 0 <= i < |stores| => stores[i][5..])
  }

  /**
   What the card has seen of a successful command: the STORE DATA payloads concatenate to it, each
   holds 1..120 bytes with its length announced, exactly the last is marked as last, and blocks are
   numbered modulo 256.
   */
  lemma CommandDelivered(data: seq<Byte>, script: seq<Reply>, sent: seq<seq<Byte>>)
    requires Between(data, script, sent, BlockCount(|data|))
    ensures forall i :: 0 <= i < |Stores(sent)| ==>
              var apdu := Stores(sent)[i];
              && 6 <= |apdu| <= 125 && apdu[0] == 0x80 && apdu[1] == 0xE2
              && apdu[4] == |apdu| - 5 && apdu[3] == i % 256
              && (apdu[2] == 0x91 <==> i == |Stores(sent)| - 1) && (apdu[2] == 0x11 <==> i < |Stores(sent)| - 1)
              && (i < |Stores(sent)| - 1 ==> |apdu| == 125)
    ensures Flatten(PayloadsOf(Stores(sent))) == data
  {
    hide Stores, Follows, BlockFinished, BlockEnd, Flatten;
    var stores := Stores(sent);
    forall i | 0 <= i < |stores|
      ensures var apdu := stores[i];
              && 6 <= |apdu| <= 125 && apdu[0] == 0x80 && apdu[1] == 0xE2
              && apdu[4] == |apdu| - 5 && apdu[3] == i % 256
              && (apdu[2] == 0x91 <==> i == |stores| - 1) && (apdu[2] == 0x11 <==> i < |stores| - 1)
              && (i < |stores| - 1 ==> |apdu| == 125) && apdu[5..] == Payload(data, i)
    {
      assert stores[i] == StoreData(data, i);
    }
    PayloadsCarryCommand(data, BlockCount(|data|));
    assert PayloadsOf(stores) == Payloads(data, BlockCount(|data|));
  }

  /** The bytes that the replies carried, reply by reply. */
  function SegmentsOf(replies: seq<Reply>): seq<seq<Byte>> {
    seq(|replies|, i requires 0 <= i < |replies| => replies[i].segment)
  }

  lemma {:induction false} SegmentsInOrder(script: seq<Reply>, n: nat)
    requires n <= |script|
    ensures Segments(script, n) == Flatten(SegmentsOf(script[..n]))
  {
    if n > 0 {
      SegmentsInOrder(script, n - 1);
      FlattenSnoc(SegmentsOf(script[..n - 1]), script[n - 1].segment);
      assert SegmentsOf(script[..n]) == SegmentsOf(script[..n - 1]) + [script[n - 1].segment];
    }
  }

  /**
   The rest of a successful conversation: after a reply 61xx the next command asks for exactly the announced
   xx bytes, after any other it is a STORE DATA; every reply is 61xx or 9xxx and the last is 9xxx; and the
   result is what all replies carried, in order.
   */
  lemma ConversationExact(data: seq<Byte>, script: seq<Reply>, sent: seq<seq<Byte>>, blocks: nat)
    requires Between(data, script, sent, blocks)
    ensures |sent| <= |script|
    ensures forall j :: 0 <= j < |sent| ==>
              if j > 0 && script[j - 1].sw1 == 0x61 then sent[j] == [0x80, 0xC0, 0x00, 0x00, script[j - 1].sw2]
              else |sent[j]| > 1 && sent[j][1] == 0xE2
    ensures forall j :: 0 <= j < |sent| ==> script[j].sw1 == 0x61 || 0x90 <= script[j].sw1 <= 0x9F
    ensures sent != [] ==> 0x90 <= script[|sent| - 1].sw1 <= 0x9F
    ensures Segments(script, |sent|) == Flatten(SegmentsOf(script[..|sent|]))
  {
    hide Stores, AreBlocks, Segments, Flatten;
    SegmentsInOrder(script, |sent|);
    forall j | 0 <= j < |sent| ensures script[j].sw1 == 0x61 || 0x90 <= script[j].sw1 <= 0x9F {
      StatusWords(script[j]);
    }
  }
}
