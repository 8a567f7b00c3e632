/**
 * GXDLMSSettings: the per-connection session state of a DLMS/COSEM client or
 * server. It owns the HDLC frame-sequence bytes, the authentication
 * challenges, the invoke id and the block index of segmented transfers.
 */
module Settings {
  import opened Wrappers
  import opened Iteration
  import opened FrameSequence

  /** A C# UInt32. */
  newtype uint32 = x: int | 0 <= x < 0x1_0000_0000
  const UINT32_MAX: uint32 := 0xFFFF_FFFF

  /** The largest value the 4-bit invoke id may take. */
  const MAX_INVOKE_ID: bv8 := 0x0F

  /** Default of MaxReceivePDUSize. */
  const DEFAULT_MAX_RECEIVE_PDU_SIZE: bv16 := 0xFFFF

  /** The errors a settings operation raises. */
  datatype SettingsError = InvalidInvokeId

  /** Gurux.DLMS.Enums.Priority. */
  datatype Priority = Normal | High

  /** Gurux.DLMS.Enums.ServiceClass. */
  datatype ServiceClass = UnConfirmed | Confirmed

  /** An authentication challenge slot: `None` is a C# null array. */
  type Challenge = Option<seq<bv8>>

  /**
   * What a challenge setter leaves in its slot. With custom challenges on, a
   * slot that already holds an array (even an empty one) keeps it; otherwise
   * the written value, null included, replaces it.
   */
  function WriteChallenge(useCustomChallenge: bool, slot: Challenge, value: Challenge): (r: Challenge)
    ensures useCustomChallenge && slot.Some? ==> r == slot
    ensures !useCustomChallenge || slot.None? ==> r == value
    ensures r == slot || r == value
  {
    if !useCustomChallenge || slot == None then value else slot
  }

  /** The slot after a series of writes, oldest first. */
  function WriteChallenges(useCustomChallenge: bool, slot: Challenge, values: seq<Challenge>): Challenge
    decreases |values|
  {
    if values == [] then slot
    else WriteChallenges(useCustomChallenge, WriteChallenge(useCustomChallenge, slot, values[0]), values[1..])
  }

  /** With custom challenges on, a slot that holds an array keeps it through any series of writes. */
  lemma {:induction false} CustomChallengeIsWriteOnce(slot: Challenge, values: seq<Challenge>)
    requires slot.Some?
    ensures WriteChallenges(true, slot, values) == slot
    decreases |values|
  {
    if values != [] {
      CustomChallengeIsWriteOnce(slot, values[1..]);
    }
  }

  /** With custom challenges on, the first array written into an empty slot is the one that stays. */
  lemma FirstCustomChallengeSticks(x: seq<bv8>, values: seq<Challenge>)
    ensures WriteChallenges(true, None, [Some(x)] + values) == Some(x)
  {
    assert ([Some(x)] + values)[1..] == values;
    CustomChallengeIsWriteOnce(Some(x), values);
  }

  /** With custom challenges off, the last write wins. */
  lemma {:induction false} PlainChallengeLastWriteWins(slot: Challenge, values: seq<Challenge>)
    requires values != []
    ensures WriteChallenges(false, slot, values) == values[|values| - 1]
    decreases |values|
  {
    if |values| > 1 {
      PlainChallengeLastWriteWins(values[0], values[1..]);
    }
  }

  /** IncreaseBlockIndex on a UInt32 under C#'s unchecked arithmetic: add one, wrap to 0 after the maximum. */
  function NextBlockIndex(b: uint32): (r: uint32)
    ensures b < UINT32_MAX ==> r == b + 1
    ensures b == UINT32_MAX ==> r == 0
  {
    ((b as int + 1) % 0x1_0000_0000) as uint32
  }

  /** k increments after a reset to `start` reach start + k modulo 2^32. */
  lemma {:induction false} BlockIndexAfterIncreases(start: uint32, k: nat)
    ensures Repeat(NextBlockIndex, k, start) as int == (start as int + k) % 0x1_0000_0000
  {
    if k > 0 {
      BlockIndexAfterIncreases(start, k - 1);
    }
  }

  /** The session settings object. */
  class DlmsSettings {
    /** Whether this side is the server; fixed at construction. */
    const isServer: bool

    /** HDLC sender and receiver frame-sequence bytes. */
    var senderFrame: bv8
    var receiverFrame: bv8

    /** Invoke id (4 bits) and long invoke id. */
    var invokeId: bv8
    var longInvokeId: uint32

    /** Client-to-server and server-to-client challenges. */
    var ctoSChallenge: Challenge
    var stoCChallenge: Challenge
    /** When set, a challenge slot that holds an array is not overwritten. */
    var useCustomChallenge: bool

    /** Current block index and the value a reset returns it to. */
    var blockIndex: uint32
    var startingBlockIndex: uint32

    /** Association parameters with constructor defaults. */
    var dlmsVersion: bv8
    var maxReceivePduSize: bv16
    var priority: Priority
    var serviceClass: ServiceClass
    /** The byte arrays the logical-name and short-name settings are constructed with. */
    var lnSettingsSeed: seq<bv8>
    var snSettingsSeed: seq<bv8>

    /**
     * The object invariant: the invoke id fits in 4 bits, and the sender byte
     * always has the poll/final flag set (every operation that writes it
     * either resets it or passes it through IncreaseReceiverSequence or `| 1`).
     */
    ghost predicate Valid()
      reads this
    {
      invokeId <= MAX_INVOKE_ID && senderFrame & POLL_FINAL == POLL_FINAL
    }

    /** The frame-sequence state as a value. */
    function FrameState(): Sequence
      reads this
    {
      Sequence(senderFrame, receiverFrame)
    }

    constructor (isServer: bool)
      ensures Valid()
      ensures this.isServer == isServer
      ensures FrameState() == ResetSequence(isServer)
      ensures !useCustomChallenge && ctoSChallenge == None && stoCChallenge == None
      ensures blockIndex == 1 && startingBlockIndex == 1
      ensures invokeId == 1 && longInvokeId == 1
      ensures dlmsVersion == 6 && maxReceivePduSize == DEFAULT_MAX_RECEIVE_PDU_SIZE
      ensures priority == High && serviceClass == UnConfirmed
      ensures lnSettingsSeed == [0x00, 0xFE, 0x1F] && snSettingsSeed == [0x1C, 0x03, 0x20]
    {
      this.isServer := isServer;
      invokeId := 1;
      longInvokeId := 1;
      ctoSChallenge := None;
      stoCChallenge := None;
      useCustomChallenge := false;
      startingBlockIndex := 1;
      blockIndex := 1;
      dlmsVersion := 6;
      priority := High;
      serviceClass := UnConfirmed;
      maxReceivePduSize := DEFAULT_MAX_RECEIVE_PDU_SIZE;
      lnSettingsSeed := [0x00, 0xFE, 0x1F];
      snSettingsSeed := [0x1C, 0x03, 0x20];
      new;
      ResetFrameSequence();
    }

    /** Reads the invoke id; it always fits in 4 bits. */
    function InvokeId(): (v: bv8)
      reads this
      requires Valid()
      ensures v <= MAX_INVOKE_ID
    {
      invokeId
    }

    /** Writes the invoke id; a value above 15 raises and leaves the old one. */
    method SetInvokeId(value: bv8) returns (r: Outcome<SettingsError>)
      requires Valid()
      modifies this`invokeId
      ensures Valid()
      ensures r.Pass? <==> value <= MAX_INVOKE_ID
      ensures r.Pass? ==> invokeId == value
      ensures r.Fail? ==> r.error == InvalidInvokeId && invokeId == old(invokeId)
    {
      if value > MAX_INVOKE_ID {
        return Fail(InvalidInvokeId);
      }
      invokeId := value;
      return Pass;
    }

    /** Writes the client-to-server challenge; the other slot is not touched. */
    method SetCtoSChallenge(value: Challenge)
      modifies this`ctoSChallenge
      ensures ctoSChallenge == WriteChallenge(useCustomChallenge, old(ctoSChallenge), value)
    {
      if !useCustomChallenge || ctoSChallenge == None {
        ctoSChallenge := value;
      }
    }

    /** Writes the server-to-client challenge; the other slot is not touched. */
    method SetStoCChallenge(value: Challenge)
      modifies this`stoCChallenge
      ensures stoCChallenge == WriteChallenge(useCustomChallenge, old(stoCChallenge), value)
    {
      if !useCustomChallenge || stoCChallenge == None {
        stoCChallenge := value;
      }
    }

    /** Puts the frame-sequence bytes back to the role's starting values. */
    method ResetFrameSequence()
      modifies this`senderFrame, this`receiverFrame
      ensures FrameState() == ResetSequence(isServer)
      ensures senderFrame & POLL_FINAL == POLL_FINAL
    {
      if isServer {
        senderFrame := 0x1E;
        receiverFrame := 0xEE;
      } else {
        senderFrame := 0x10;
        receiverFrame := 0x0E;
      }
    }

    /** Checks an inbound control byte and advances the receiver byte when it is accepted. */
    method CheckFrame(frame: bv8) returns (accepted: bool)
      requires Valid()
      modifies this`senderFrame, this`receiverFrame
      ensures Valid()
      ensures (accepted, FrameState()) == CheckFrameStep(isServer, old(FrameState()), frame)
    {
      // A U-frame other than UA and SNRM goes on to the S-frame test.
      if frame & U_FRAME == U_FRAME {
        if frame == UA_FINAL || frame == SNRM_POLL {
          ResetFrameSequence();
          return true;
        }
      }
      if frame & S_FRAME == S_FRAME {
        receiverFrame := IncreaseReceiverSequence(receiverFrame);
        return true;
      }
      if frame == IncreaseReceiverSequence(IncreaseSendSequence(receiverFrame)) {
        receiverFrame := frame;
        return true;
      }
      if frame == IncreaseSendSequence(receiverFrame) {
        receiverFrame := frame;
        return true;
      }
      return false;
    }

    /** Advances the sender byte to the next I-frame and returns it. */
    method NextSend() returns (frame: bv8)
      requires Valid()
      modifies this`senderFrame
      ensures Valid()
      ensures senderFrame == NextInformationFrame(old(senderFrame))
      ensures frame == senderFrame
    {
      senderFrame := IncreaseReceiverSequence(IncreaseSendSequence(senderFrame));
      frame := senderFrame;
    }

    /** Advances N(R) of the sender byte, marks it as an S-frame and returns the RR frame. */
    method ReceiverReady() returns (frame: bv8)
      requires Valid()
      modifies this`senderFrame
      ensures Valid()
      ensures (senderFrame, frame) == ReceiverReadyStep(old(senderFrame))
    {
      senderFrame := IncreaseReceiverSequence(senderFrame) | 0x01;
      frame := senderFrame & 0xF1;
    }

    /** Marks the sender byte as an S-frame and returns the keep-alive frame. */
    method KeepAlive() returns (frame: bv8)
      requires Valid()
      modifies this`senderFrame
      ensures Valid()
      ensures (senderFrame, frame) == KeepAliveStep(old(senderFrame))
    {
      senderFrame := senderFrame | 0x01;
      frame := senderFrame & 0xF1;
    }

    /** Sets the block index back to the starting block index. */
    method ResetBlockIndex()
      modifies this`blockIndex
      ensures blockIndex == startingBlockIndex
    {
      blockIndex := startingBlockIndex;
    }

    /** Adds one to the block index, wrapping at 2^32. */
    method IncreaseBlockIndex()
      modifies this`blockIndex
      ensures blockIndex == NextBlockIndex(old(blockIndex))
    {
      blockIndex := if blockIndex == UINT32_MAX then 0 else blockIndex + 1;
    }
  }

  /** A session as a caller drives it, using only the contracts above. */
  method SessionScenario()
  {
    var client := new DlmsSettings(false);
    assert client.FrameState() == Sequence(0x10, 0x0E);

    // 0x00 is IncreaseSendSequence(0x0E), so the client accepts it as the answer to RR.
    var ok := client.CheckFrame(0x00);
    assert ok && client.receiverFrame == 0x00;

    // UA resets the sequence whatever came before.
    ok := client.CheckFrame(UA_FINAL);
    assert ok && client.FrameState() == Sequence(0x10, 0x0E);

    var first := client.NextSend();
    var second := client.NextSend();
    assert first != second;

    var r := client.SetInvokeId(0x10);
    assert r == Fail(InvalidInvokeId) && client.InvokeId() == 1;
    r := client.SetInvokeId(0x0F);
    assert r == Pass && client.InvokeId() == 0x0F;

    client.useCustomChallenge := true;
    client.SetCtoSChallenge(Some([0x01, 0x02]));
    client.SetCtoSChallenge(Some([0x03]));
    assert client.ctoSChallenge == Some([0x01, 0x02]);
    assert client.stoCChallenge == None;

    client.ResetBlockIndex();
    client.IncreaseBlockIndex();
    client.IncreaseBlockIndex();
    client.IncreaseBlockIndex();
    assert client.blockIndex == 4;
  }
}
