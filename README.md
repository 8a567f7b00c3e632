# DLMS/COSEM session settings: HDLC frame sequencing, challenges, invoke and block numbering

This project models `GXDLMSSettings`, the per-connection state object of the Gurux DLMS/COSEM
stack (IEC 62056), and proves properties of it in Dafny.

- `frame_sequence.dfy` (module `FrameSequence`) holds the HDLC control-byte numbering of
  ISO/IEC 13239 as profiled by IEC 62056-46. N(R) sits in bits 5-7, the poll/final flag is `0x10`,
  N(S) sits in bits 1-3, and the frame type is in bit 0 (I-frame) or bits 0-1 (S- and U-frames).
  The two byte primitives `IncreaseReceiverSequence` and `IncreaseSendSequence` are functions over
  `bv8`; their 8-bit wrap is the C# `(byte)` truncation. The pure step functions `CheckFrameStep`,
  `NextInformationFrame`, `ReceiverReadyStep` and `KeepAliveStep` specify the stateful operations.
  Lemmas cover the modulo-8 windows and the behaviour of `CheckFrame` on each branch.
- `settings.dfy` (module `Settings`) holds the class `DlmsSettings`. Its fields are the sender and
  receiver frame bytes, the invoke ids, the two challenge slots, the block index and the
  association defaults. Each method updates only the fields its `modifies` clause names, and its
  `ensures` ties the new state to the pure functions. The invariant `Valid()` keeps the invoke id
  within 4 bits and the poll/final flag of the sender byte set. The module also holds the challenge
  write rule, the 32-bit block-index increment, and lemmas about runs of challenge writes and
  block-index increments.
- `wrappers.dfy` and `iteration.dfy` hold `Option`/`Outcome` and `Repeat` (a function applied
  n times).

Modelling choices:
- A C# `byte` is a `bv8` and a `UInt16` is a `bv16`. A `UInt32` is the newtype `uint32`, and its
  unchecked `+= 1` is written out as a wrap to 0 after `0xFFFF_FFFF`.
- A challenge array is `Option<seq<bv8>>`, where `None` is null. "Already set" means non-null, so
  an empty array counts as set.
- The invoke-id setter's `ArgumentException` is the result `Fail(InvalidInvokeId)`, and the field
  is left unchanged.
- The frame-type masks come from `HdlcFrameType` in `Gurux.DLMS.Enums`, which is not part of this
  model. They are `S_FRAME = 0x01` and `U_FRAME = 0x03`, the ISO/IEC 13239 values. The enums
  `Priority` and `ServiceClass` are from the same namespace and are modelled only by the values the
  constructor uses.
- `CheckFrame` keeps the source's fall-through: a U-frame other than `0x73` (UA, final) or `0x93`
  (SNRM, poll) also has bit 0 set, so it is taken by the S-frame branch and advances the receiver
  byte.

Where the code differs from a natural reading of its design, the model follows the code:
- Right after a client reset the receiver byte is `0x0E`, and `IncreaseSendSequence(0x0E) == 0x00`.
  So `CheckFrame(0x00)` is accepted as an answer to RR and stores `0x00`; it is not rejected
  (`ClientResetAcceptsZero`, and the walk-through `Settings.SessionScenario`).
- The custom-challenge rule tests for null, not for an empty array.

## Model

| member | source | states |
|---|---|---|
| `FrameSequence.IncreaseReceiverSequence` | Development/GXDLMSSettings.cs:228-231 | N(R) of the result is N(R)+1 modulo 8, the poll/final bit is set, and bits 0-3 are those of the input |
| `FrameSequence.IncreaseSendSequence` | Development/GXDLMSSettings.cs:242-245 | the high nibble is kept, N(S) is N(S)+1 modulo 8, and bit 0 is cleared |
| `FrameSequence.ReceiverStepsFields` | Development/GXDLMSSettings.cs:228-231 | n receiver increments advance N(R) by n modulo 8, keep bits 0-3, and set poll/final when n > 0 |
| `FrameSequence.ReceiverEightSteps` | Development/GXDLMSSettings.cs:228-231 | eight receiver increments give v with bit 0x10 set and nothing else changed |
| `FrameSequence.ReceiverStepsPeriodic` | Development/GXDLMSSettings.cs:228-231 | for every n > 0, n + 8 receiver increments give the same byte as n |
| `FrameSequence.SendStepsFields` | Development/GXDLMSSettings.cs:242-245 | n send increments advance N(S) by n modulo 8, keep the high nibble, and clear bit 0 when n > 0 |
| `FrameSequence.SendEightSteps` | Development/GXDLMSSettings.cs:242-245 | eight send increments give `v & 0xFE` |
| `FrameSequence.SendStepsPeriodic` | Development/GXDLMSSettings.cs:242-245 | for every n > 0, n + 8 send increments give the same byte as n |
| `FrameSequence.NextInformationFrame` | Development/GXDLMSSettings.cs:300-304 | the next I-frame byte advances N(S) and N(R) by one modulo 8, sets poll/final, and has bit 0 clear |
| `FrameSequence.InformationStepsFields` | Development/GXDLMSSettings.cs:300-304 | n successive NextSend bytes advance both sequence numbers by n modulo 8 |
| `FrameSequence.InformationEightSteps` | Development/GXDLMSSettings.cs:300-304 | after eight NextSend calls the sender byte is v with bit 0 cleared and bit 4 set, so both windows have wrapped |
| `FrameSequence.InformationStepsPeriodic` | Development/GXDLMSSettings.cs:300-304 | for every n > 0, the sender byte after n + 8 NextSend calls equals the one after n |
| `FrameSequence.NextInformationFrameDistinct` | Development/GXDLMSSettings.cs:300-304 | two successive NextSend calls return different bytes |
| `FrameSequence.CheckFrameStep` | Development/GXDLMSSettings.cs:264-295 | UA 0x73 and SNRM 0x93 accept and reset whatever the state; every other frame keeps the sender byte; every other frame with bit 0 set, including the remaining U-frames, is accepted and advances N(R); an I-frame is accepted iff it is the next I-frame or the RR answer, and it then becomes the receiver byte; a rejected frame changes nothing |
| `FrameSequence.ClientResetAcceptsZero` | Development/GXDLMSSettings.cs:250-291 | after a client reset, 0x00 equals IncreaseSendSequence(0x0E) and is accepted, becoming the receiver byte |
| `FrameSequence.ReceiverReadyStep` | Development/GXDLMSSettings.cs:309-313 | the new sender byte has N(R)+1 and the same N(S), with bits 0 and 4 set; the returned RR frame has bits 0 and 4 set, bits 1-3 clear, and the new N(R) |
| `FrameSequence.KeepAliveStep` | Development/GXDLMSSettings.cs:318-322 | only bit 0 of the sender byte changes, and it is set; the returned frame has bit 0 set, bits 1-3 clear, and the sender's high nibble |
| `FrameSequence.KeepAliveIdempotent` | Development/GXDLMSSettings.cs:318-322 | a second KeepAlive returns the same byte and leaves the same sender byte |
| `Settings.WriteChallenge` | Development/GXDLMSSettings.cs:157-188 | with custom challenges on, a non-null slot is kept; otherwise the written value replaces it, null included |
| `Settings.CustomChallengeIsWriteOnce` | Development/GXDLMSSettings.cs:163-169 | with custom challenges on, a non-null slot survives any series of writes |
| `Settings.FirstCustomChallengeSticks` | Development/GXDLMSSettings.cs:163-169 | with custom challenges on, the first array written into a null slot stays there through any later writes |
| `Settings.PlainChallengeLastWriteWins` | Development/GXDLMSSettings.cs:163-169 | with custom challenges off, the slot holds the last value written |
| `Settings.NextBlockIndex` | Development/GXDLMSSettings.cs:372-375 | the block index grows by exactly one, and wraps from 0xFFFFFFFF to 0 |
| `Settings.BlockIndexAfterIncreases` | Development/GXDLMSSettings.cs:364-375 | k increments from a reset value s give (s + k) modulo 2^32 |
| `Settings.DlmsSettings.constructor` | Development/GXDLMSSettings.cs:137-152 | the role's reset frame state; BlockIndex = StartingBlockIndex = 1, DLMSVersion 6, InvokeID 1, long invoke id 1, MaxReceivePDUSize 0xFFFF, custom challenges off, both challenges null, priority High, service class UnConfirmed, and the LN/SN settings seeds {0x00,0xFE,0x1F} and {0x1C,0x03,0x20} |
| `Settings.DlmsSettings.InvokeId` | Development/GXDLMSSettings.cs:481-486 | the invoke id read back is always at most 15 |
| `Settings.DlmsSettings.SetInvokeId` | Development/GXDLMSSettings.cs:487-494 | succeeds iff value <= 15 and then stores it; otherwise fails with the invalid-argument error and keeps the old id; the 4-bit invariant is kept |
| `Settings.DlmsSettings.SetCtoSChallenge` | Development/GXDLMSSettings.cs:157-170 | the client-to-server slot follows the write rule; nothing else changes, including the other slot |
| `Settings.DlmsSettings.SetStoCChallenge` | Development/GXDLMSSettings.cs:175-188 | the server-to-client slot follows the write rule; nothing else changes, including the other slot |
| `Settings.DlmsSettings.ResetFrameSequence` | Development/GXDLMSSettings.cs:250-262 | (sender, receiver) becomes (0x1E, 0xEE) for a server and (0x10, 0x0E) for a client |
| `Settings.DlmsSettings.CheckFrame` | Development/GXDLMSSettings.cs:264-295 | the verdict and the new frame state are those of CheckFrameStep on the old state; the invariant is kept |
| `Settings.DlmsSettings.NextSend` | Development/GXDLMSSettings.cs:300-304 | returns the new sender byte, which is the next I-frame of the old one; the receiver byte is not touched |
| `Settings.DlmsSettings.ReceiverReady` | Development/GXDLMSSettings.cs:309-313 | the new sender byte and the returned RR frame are those of ReceiverReadyStep; the receiver byte is not touched |
| `Settings.DlmsSettings.KeepAlive` | Development/GXDLMSSettings.cs:318-322 | the new sender byte and the returned frame are those of KeepAliveStep; the receiver byte is not touched |
| `Settings.DlmsSettings.ResetBlockIndex` | Development/GXDLMSSettings.cs:364-367 | BlockIndex becomes StartingBlockIndex |
| `Settings.DlmsSettings.IncreaseBlockIndex` | Development/GXDLMSSettings.cs:372-375 | BlockIndex becomes NextBlockIndex of the old value; nothing else changes |

## Left out

- `Cipher` (`GXICipher`): an external cryptographic capability with no logic in this class.
- `Objects` (`GXDLMSObjectCollection`), `Limits` (`GXDLMSLimits`), `LnSettings` and `SnSettings`: these classes are not part of this model. Only the byte arrays the LN and SN settings are constructed with are recorded.
- Plain auto-properties and fields with no behaviour are not modelled: `Authentication`, `Password`, `DlmsVersionNumber`, `SourceSystemTitle`, `Kek`, `Count`, `Index`, `Connected`, `InterfaceType`, `ClientAddress`, `ServerAddress`, `ServerAddressSize` and `UseLogicalNameReferencing`. `Priority`, `ServiceClass`, `DLMSVersion`, `MaxReceivePDUSize`, `longInvokeID` and `UseCustomChallenge` appear only as fields with their initial values.
- `ServerStartFrameSequence` (0x0F) and `ClientStartFrameSequence` (0xEE) are declared but never used. The reset values are the literals in `ResetFrameSequence`.
- The `Debug.WriteLine` trace on a rejected frame is a diagnostic side effect only.
- The push-listener example program is console and TCP plumbing around library calls that are not part of this model.
- Getters that only return a field (`CtoSChallenge`, `StoCChallenge`, `BlockIndex`, `IsServer`) are the Dafny fields themselves.
