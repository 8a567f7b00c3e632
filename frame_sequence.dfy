/**
 * The HDLC frame-sequence numbering of a DLMS/COSEM link (ISO/IEC 13239 as
 * profiled by IEC 62056-46): the control byte carries N(R) in bits 5-7, the
 * poll/final flag in bit 4, N(S) in bits 1-3 and the frame type in bit 0
 * (I-frame) or bits 0-1 (S- and U-frames).
 *
 * This module holds the two byte primitives of GXDLMSSettings and the pure
 * transition functions that specify its stateful frame operations.
 */
module FrameSequence {
  import opened Iteration

  /** Mask of the S-frame type bits (HdlcFrameType.Sframe). */
  const S_FRAME: bv8 := 0x01
  /** Mask of the U-frame type bits (HdlcFrameType.Uframe). */
  const U_FRAME: bv8 := 0x03
  /** The poll/final flag. */
  const POLL_FINAL: bv8 := 0x10
  /** UA (unnumbered acknowledge) with the final bit set. */
  const UA_FINAL: bv8 := 0x73
  /** SNRM (set normal response mode) with the poll bit set. */
  const SNRM_POLL: bv8 := 0x93

  /** N(R), the receive sequence number in bits 5-7. */
  function ReceiveNumber(v: bv8): (n: nat)
    ensures n < 8
  {
    (v >> 5) as int
  }

  /** N(S), the send sequence number in bits 1-3. */
  function SendNumber(v: bv8): (n: nat)
    ensures n < 8
  {
    ((v >> 1) & 0x07) as int
  }

  /**
   * IncreaseReceiverSequence: N(R) advances by one modulo 8, the poll/final
   * flag is set and bits 0-3 are kept. The `+` wraps at 8 bits exactly as the
   * C# `(byte)` cast truncates the `int` sum.
   */
  function IncreaseReceiverSequence(v: bv8): (r: bv8)
    ensures ReceiveNumber(r) == (ReceiveNumber(v) + 1) % 8
    ensures r & POLL_FINAL == POLL_FINAL
    ensures r & 0x0F == v & 0x0F
  {
    ((v + 0x20) | 0x10) | (v & 0x0E)
  }

  /**
   * IncreaseSendSequence: the high nibble (N(R) and poll/final) is kept,
   * N(S) advances by one modulo 8 and bit 0 is cleared.
   */
  function IncreaseSendSequence(v: bv8): (r: bv8)
    ensures r & 0xF0 == v & 0xF0
    ensures SendNumber(r) == (SendNumber(v) + 1) % 8
    ensures r & 0x01 == 0
  {
    (v & 0xF0) | ((v + 0x02) & 0x0E)
  }

  /**
   * The control byte of the next outbound I-frame, as NextSend computes it:
   * both sequence numbers advance, the poll/final flag is set and the byte is
   * an I-frame.
   */
  function NextInformationFrame(v: bv8): (r: bv8)
    ensures SendNumber(r) == (SendNumber(v) + 1) % 8
    ensures ReceiveNumber(r) == (ReceiveNumber(v) + 1) % 8
    ensures r & POLL_FINAL == POLL_FINAL
    ensures r & 0x01 == 0
  {
    IncreaseReceiverSequence(IncreaseSendSequence(v))
  }

  /** The pair of sequence bytes a session keeps. */
  datatype Sequence = Sequence(sender: bv8, receiver: bv8)

  /** The state ResetFrameSequence installs for the given role. */
  function ResetSequence(isServer: bool): Sequence
  {
    if isServer then Sequence(0x1E, 0xEE) else Sequence(0x10, 0x0E)
  }

  /**
   * CheckFrame on a pure state: whether `frame` is accepted and the state
   * afterwards. A U-frame other than UA/SNRM is not returned from the first
   * test and, having bit 0 set, is taken by the S-frame test.
   */
  function CheckFrameStep(isServer: bool, s: Sequence, frame: bv8): (r: (bool, Sequence))
    // UA and SNRM reset the link, whatever the state before.
    ensures frame == UA_FINAL || frame == SNRM_POLL ==> r == (true, ResetSequence(isServer))
    // Every other frame leaves the sender byte alone.
    ensures frame != UA_FINAL && frame != SNRM_POLL ==> r.1.sender == s.sender
    // Every other frame with bit 0 set (S-frames and the remaining U-frames) is accepted and advances N(R).
    ensures frame != UA_FINAL && frame != SNRM_POLL && frame & S_FRAME == S_FRAME ==>
              r.0 && r.1.receiver == IncreaseReceiverSequence(s.receiver)
    // An I-frame is accepted exactly when it is the next numbered frame or the answer to RR,
    // and then it becomes the receiver byte.
    ensures frame & S_FRAME == 0 ==>
              (r.0 <==> frame == NextInformationFrame(s.receiver) || frame == IncreaseSendSequence(s.receiver))
    ensures frame & S_FRAME == 0 && r.0 ==> r.1.receiver == frame
    // A rejected frame changes nothing.
    ensures !r.0 ==> r.1 == s
  {
    if frame & U_FRAME == U_FRAME && (frame == UA_FINAL || frame == SNRM_POLL) then
      (true, ResetSequence(isServer))
    else if frame & S_FRAME == S_FRAME then
      (true, s.(receiver := IncreaseReceiverSequence(s.receiver)))
    else if frame == IncreaseReceiverSequence(IncreaseSendSequence(s.receiver)) then
      (true, s.(receiver := frame))
    else if frame == IncreaseSendSequence(s.receiver) then
      (true, s.(receiver := frame))
    else
      (false, s)
  }

  /**
   * ReceiverReady on a pure sender byte: the new sender byte and the S-frame
   * sent. N(R) advances, N(S) is kept, and the frame sent is an RR S-frame
   * (bits 0 and 4 set, bits 1-3 clear) carrying the new N(R).
   */
  function ReceiverReadyStep(sender: bv8): (r: (bv8, bv8))
    ensures ReceiveNumber(r.0) == (ReceiveNumber(sender) + 1) % 8
    ensures SendNumber(r.0) == SendNumber(sender)
    ensures r.0 & 0x11 == 0x11
    ensures r.1 & 0x1F == 0x11
    ensures ReceiveNumber(r.1) == ReceiveNumber(r.0)
  {
    var next := IncreaseReceiverSequence(sender) | 0x01;
    (next, next & 0xF1)
  }

  /**
   * KeepAlive on a pure sender byte: the new sender byte and the S-frame sent.
   * Only bit 0 of the sender byte may change, and the frame sent has bit 0
   * set, bits 1-3 clear and the sender's high nibble.
   */
  function KeepAliveStep(sender: bv8): (r: (bv8, bv8))
    ensures r.0 & 0xFE == sender & 0xFE && r.0 & 0x01 == 0x01
    ensures r.1 & 0x0F == 0x01 && r.1 & 0xF0 == sender & 0xF0
  {
    var next := sender | 0x01;
    (next, next & 0xF1)
  }

  /** A second KeepAlive sends the same byte and leaves the same sender byte. */
  lemma KeepAliveIdempotent(sender: bv8)
    ensures KeepAliveStep(KeepAliveStep(sender).0) == KeepAliveStep(sender)
  {
  }

  /** Two successive I-frames from one state carry different control bytes. */
  lemma NextInformationFrameDistinct(v: bv8)
    ensures NextInformationFrame(NextInformationFrame(v)) != NextInformationFrame(v)
  {
  }

  /** Right after a client reset the byte 0x00 is accepted as the answer to RR. */
  lemma ClientResetAcceptsZero()
    ensures IncreaseSendSequence(ResetSequence(false).receiver) == 0x00
    ensures CheckFrameStep(false, ResetSequence(false), 0x00) == (true, Sequence(0x10, 0x00))
  {
  }

  /** One more step of a modulo-8 counter that has made n - 1 steps from `start`. */
  lemma WindowStep(x: nat, start: nat, n: nat)
    requires n > 0 && x == (start + n - 1) % 8
    ensures (x + 1) % 8 == (start + n) % 8
  {
  }

  /** n receiver increments advance N(R) by n modulo 8 and keep bits 0-3. */
  lemma {:induction false} ReceiverStepsFields(n: nat, v: bv8)
    ensures ReceiveNumber(Repeat(IncreaseReceiverSequence, n, v)) == (ReceiveNumber(v) + n) % 8
    ensures Repeat(IncreaseReceiverSequence, n, v) & 0x0F == v & 0x0F
    ensures n > 0 ==> Repeat(IncreaseReceiverSequence, n, v) & POLL_FINAL == POLL_FINAL
  {
    if n > 0 {
      ReceiverStepsFields(n - 1, v);
    }
  }

  /** The receive window wraps after eight increments, leaving only the poll/final flag set. */
  lemma ReceiverEightSteps(v: bv8)
    ensures Repeat(IncreaseReceiverSequence, 8, v) == v | POLL_FINAL
  {
    ReceiverStepsFields(8, v);
  }

  /** Once the poll/final flag is set, receiver increments repeat with period eight. */
  lemma ReceiverStepsPeriodic(n: nat, v: bv8)
    requires n > 0
    ensures Repeat(IncreaseReceiverSequence, n + 8, v) == Repeat(IncreaseReceiverSequence, n, v)
  {
    ReceiverStepsFields(n, v);
    ReceiverStepsFields(n + 8, v);
  }

  /** n send increments advance N(S) by n modulo 8 and keep the high nibble. */
  lemma {:induction false} SendStepsFields(n: nat, v: bv8)
    ensures SendNumber(Repeat(IncreaseSendSequence, n, v)) == (SendNumber(v) + n) % 8
    ensures Repeat(IncreaseSendSequence, n, v) & 0xF0 == v & 0xF0
    ensures n > 0 ==> Repeat(IncreaseSendSequence, n, v) & 0x01 == 0
  {
    if n > 0 {
      SendStepsFields(n - 1, v);
    }
  }

  /** The send window wraps after eight increments, leaving only bit 0 cleared. */
  lemma SendEightSteps(v: bv8)
    ensures Repeat(IncreaseSendSequence, 8, v) == v & 0xFE
  {
    SendStepsFields(8, v);
  }

  /** Once bit 0 is clear, send increments repeat with period eight. */
  lemma SendStepsPeriodic(n: nat, v: bv8)
    requires n > 0
    ensures Repeat(IncreaseSendSequence, n + 8, v) == Repeat(IncreaseSendSequence, n, v)
  {
    SendStepsFields(n, v);
    SendStepsFields(n + 8, v);
  }

  /** n outbound I-frames advance both sequence numbers by n modulo 8. */
  lemma {:induction false} InformationStepsFields(n: nat, v: bv8)
    ensures SendNumber(Repeat(NextInformationFrame, n, v)) == (SendNumber(v) + n) % 8
    ensures ReceiveNumber(Repeat(NextInformationFrame, n, v)) == (ReceiveNumber(v) + n) % 8
    ensures n == 0 ==> Repeat(NextInformationFrame, n, v) == v
    ensures n > 0 ==> Repeat(NextInformationFrame, n, v) & 0x11 == 0x10
  {
    if n > 0 {
      InformationStepsFields(n - 1, v);
      var before := Repeat(NextInformationFrame, n - 1, v);
      var after := NextInformationFrame(before);
      assert after == Repeat(NextInformationFrame, n, v);
      WindowStep(SendNumber(before), SendNumber(v), n);
      WindowStep(ReceiveNumber(before), ReceiveNumber(v), n);
      assert after & 0x11 == 0x10 by {
        assert after & POLL_FINAL == POLL_FINAL && after & 0x01 == 0;
      }
    }
  }

  /** After eight I-frames the sender byte is back where it started, as an I-frame with poll/final set. */
  lemma InformationEightSteps(v: bv8)
    ensures Repeat(NextInformationFrame, 8, v) == (v & 0xEE) | POLL_FINAL
  {
    InformationStepsFields(8, v);
  }

  /** After the first I-frame, the bytes NextSend produces repeat with period eight. */
  lemma InformationStepsPeriodic(n: nat, v: bv8)
    requires n > 0
    ensures Repeat(NextInformationFrame, n + 8, v) == Repeat(NextInformationFrame, n, v)
  {
    var a, b := Repeat(NextInformationFrame, n, v), Repeat(NextInformationFrame, n + 8, v);
    InformationStepsFields(n, v);
    InformationStepsFields(n + 8, v);
    assert SendNumber(a) == SendNumber(b) && ReceiveNumber(a) == ReceiveNumber(b) by {
      assert (SendNumber(v) + n + 8) % 8 == (SendNumber(v) + n) % 8;
      assert (ReceiveNumber(v) + n + 8) % 8 == (ReceiveNumber(v) + n) % 8;
    }
    SameNumbersSameByte(a, b);
  }

  /** A byte is determined by N(R), N(S), the poll/final flag and bit 0. */
  lemma SameNumbersSameByte(x: bv8, y: bv8)
    requires SendNumber(x) == SendNumber(y) && ReceiveNumber(x) == ReceiveNumber(y)
    requires x & 0x11 == y & 0x11
    ensures x == y
  {
  }
}
