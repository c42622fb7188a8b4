/** The NFC-B poller (src/rfal_nfcb.cpp): the polling side of ISO/IEC 14443-3
    Type B initialisation and anticollision as NFC Forum Digital 1.1 and
    Activity 1.1 (section 9.3.5) describe it, with the EMVCo 2.6 variant.
    The RF front end is an oracle that answers the k-th exchange with the
    k-th reply of a fixed script and logs every frame it was asked to send. */
module Nfcb {

  import opened StErrno
  import opened NfcUtils

  type uint16 = x: int | 0 <= x < 0x1_0000

  /* Constants defined in src/rfal_nfcb.cpp. */

  /** Extended SENSB_RES supported, in the PARAM octet of SENSB_REQ. */
  const SENSB_REQ_EXT_SENSB_RES_SUPPORTED: byte := 0x10
  /** The RFU bit of the protocol type in a SENSB_RES. */
  const SENSB_RES_PROT_TYPE_RFU: byte := 0x08
  const SLOTMARKER_SLOTCODE_MIN: uint8 := 1
  const SLOTMARKER_SLOTCODE_MAX: uint8 := 16

  const CMD_SENSB_REQ: byte := 0x05
  const CMD_SENSB_RES: byte := 0x50
  const CMD_SLPB_REQ: byte := 0x50
  const CMD_SLPB_RES: byte := 0x00
  /** sizeof(rfalNfcbSlpbRes): a SLPB_RES is one octet. */
  const SLPB_RES_LEN: nat := 1

  /* Constants of the interface header rfal_nfcb.h, which is not part of this
     model. Those whose value the code never depends on stay symbolic, with
     what the code relies on in their types; SENSB_RES_EXT_LEN and the slot
     identifiers below are given the values NFC Forum Digital 1.1 fixes for
     them. */

  /** A SENSB_RES length: never zero, so an empty reception is never valid. */
  type SensbResLength = x: int | 1 <= x < 255 witness 1
  const SENSB_RES_LEN: SensbResLength
  /** The extended SENSB_RES carries the SFGI octet on top of the basic one. */
  const SENSB_RES_EXT_LEN: uint8 := SENSB_RES_LEN + 1
  const SENSB_REQ_ADV_FEATURE: byte
  /** The TR2 field mask selects one of the four entries of the TR2 table. */
  type Tr2Mask = m: byte | m <= 3 witness 0
  const SENSB_RES_PROTO_TR2_MASK: Tr2Mask
  /** The default AFI and PARAM stored by the plain initialisation. */
  const NFCB_AFI: byte
  const NFCB_PARAM: byte
  /** The two SENS commands (the ALLB_REQ / SENSB_REQ flag of PARAM). */
  const SENS_CMD_SENSB_REQ: byte
  const SENS_CMD_ALLB_REQ: byte

  /** Number-of-slots identifiers. rfalNfcbNI2NumberOfSlots(ni) is 1 << ni and
      the collision resolution steps through them with ++, so NUM_1 .. NUM_16
      are the exponents 0 .. 4. */
  const SLOT_NUM_1: uint8 := 0
  const SLOT_NUM_16: uint8 := 4

  /** RFAL_NFCB_SENSB_REQ_PARAM: the bits of the stored PARAM that go on air. */
  const SENSB_REQ_PARAM: byte := SENSB_REQ_ADV_FEATURE | SENSB_REQ_EXT_SENSB_RES_SUPPORTED

  /** The three compliance modes the engine distinguishes. */
  datatype ComplianceMode = ISO | NFC | EMV

  datatype ProtocolInfo = ProtocolInfo(bitRate: byte, fsciProType: byte, fwiAdcFo: byte, sfgi: byte)

  /** A SENSB_RES (ATQB) as it lands in the receive buffer. */
  datatype SensbRes = SensbRes(cmd: byte, nfcid0: seq<byte>, appData: seq<byte>, protInfo: ProtocolInfo)

  /** One entry of the caller-owned device list. */
  datatype ListenDevice = ListenDevice(sensbRes: SensbRes, sensbResLen: uint8, isSleep: bool)

  /** The receive buffer after the ST_MEMSET of the presence check. */
  const ZeroSensbRes: SensbRes :=
    SensbRes(0, [0, 0, 0, 0], [0, 0, 0, 0], ProtocolInfo(0, 0, 0, 0))

  /** What the RF layer reports for one exchange: its status, the received
      length, and the frame written into the receive buffer (None when
      nothing was written and the buffer keeps its previous content). */
  datatype Reply = Reply(status: ReturnCode, rxLen: uint16, rx: Option<SensbRes>)

  /** The receive buffer after an exchange that found `prior` in it. */
  function Received(reply: Reply, prior: SensbRes): SensbRes
  {
    match reply.rx
    case None => prior
    case Some(f) => f
  }

  /** (uint8_t)rxLen: the received length as stored in an octet. */
  function RxLenOctet(rxLen: uint16): (r: uint8)
    ensures rxLen < 256 ==> r == rxLen
    ensures (rxLen - r) % 256 == 0
  {
    rxLen % 256
  }

  /** The RF layer: rfalTransceiveBlockingTxRx answers exchange number k with
      replies(k); sent logs the frames handed to it, in order. */
  class RfLink {
    const replies: nat -> Reply
    var sent: seq<seq<byte>>

    constructor (script: nat -> Reply)
      ensures replies == script && sent == []
    {
      replies := script;
      sent := [];
    }

    method Transceive(tx: seq<byte>) returns (reply: Reply)
      modifies this
      ensures sent == old(sent) + [tx]
      ensures reply == replies(|old(sent)|)
    {
      reply := replies(|sent|);
      sent := sent + [tx];
    }
  }

  /** rfalNfcbCheckSensbRes: a SENSB_RES is accepted when its length is one of
      the two SENSB_RES lengths, the protocol type RFU bit is clear and the
      command octet is SENSB_RES (Digital 1.1, section 7.6.2.19). Anything
      else is a protocol error. */
  function CheckSensbRes(res: SensbRes, len: uint8): (r: ReturnCode)
    ensures r == ST_ERR_NONE || r == ST_ERR_PROTO
    ensures r == ST_ERR_NONE <==>
      (len == SENSB_RES_LEN || len == SENSB_RES_EXT_LEN)
      && res.protInfo.fsciProType & SENSB_RES_PROT_TYPE_RFU == 0
      && res.cmd == CMD_SENSB_RES
  {
    if len != SENSB_RES_LEN && len != SENSB_RES_EXT_LEN then
      ST_ERR_PROTO
    else if res.protInfo.fsciProType & SENSB_RES_PROT_TYPE_RFU != 0 || res.cmd != CMD_SENSB_RES then
      ST_ERR_PROTO
    else
      ST_ERR_NONE
  }

  /** The SENSB_RES a conforming listener answers with: the SENSB_RES command,
      its PUPI, application data and protocol info with the RFU bit clear. */
  function ListenerSensbRes(nfcid0: seq<byte>, appData: seq<byte>, p: ProtocolInfo): SensbRes
  {
    SensbRes(CMD_SENSB_RES, nfcid0, appData, p)
  }

  /** The length of that answer: the extended form adds the SFGI octet. */
  function ListenerSensbResLen(extended: bool): uint8
  {
    if extended then SENSB_RES_EXT_LEN else SENSB_RES_LEN
  }

  /** The validator accepts exactly the answers a conforming listener gives. */
  lemma CheckSensbResAcceptsListeners(res: SensbRes, len: uint8)
    ensures CheckSensbRes(res, len) == ST_ERR_NONE <==>
      res.protInfo.fsciProType & SENSB_RES_PROT_TYPE_RFU == 0
      && res == ListenerSensbRes(res.nfcid0, res.appData, res.protInfo)
      && (len == ListenerSensbResLen(false) || len == ListenerSensbResLen(true))
  {
  }

  /** A wrong length is rejected whatever the frame holds; an empty one in particular. */
  lemma CheckSensbResLengthFirst(res1: SensbRes, res2: SensbRes, len: uint8)
    requires len != SENSB_RES_LEN && len != SENSB_RES_EXT_LEN
    ensures CheckSensbRes(res1, len) == CheckSensbRes(res2, len) == ST_ERR_PROTO
    ensures CheckSensbRes(res1, 0) == ST_ERR_PROTO
  {
  }

  /** A device entry that holds a valid SENSB_RES. */
  predicate Identified(d: ListenDevice)
  {
    CheckSensbRes(d.sensbRes, d.sensbResLen) == ST_ERR_NONE
  }

  /** The SENSB_REQ / ALLB_REQ frame: command, AFI, and a PARAM octet made of
      the advanced and extended bits of the stored PARAM, the command flag and
      the slot-number identifier; no other bit of the stored PARAM goes out. */
  function SensbReqFrame(afi: byte, param: byte, cmd: byte, slots: uint8): (r: seq<byte>)
    requires slots <= SLOT_NUM_16
    ensures |r| == 3 && r[0] == CMD_SENSB_REQ && r[1] == afi
  {
    [CMD_SENSB_REQ, afi, (param & SENSB_REQ_PARAM) | cmd | SlotsOctet(slots)]
  }

  /** (uint8_t)slots: a slot-number identifier as an octet. */
  function SlotsOctet(slots: uint8): (r: byte)
    requires slots <= SLOT_NUM_16
    ensures r <= 4
  {
    match slots
    case 0 => 0
    case 1 => 1
    case 2 => 2
    case 3 => 3
    case 4 => 4
  }

  /** The PARAM octet of SENSB_REQ carries the command flag and the slot
      identifier, and of the stored PARAM only its advanced and extended bits. */
  lemma SensbReqParamBits(afi: byte, param: byte, cmd: byte, slots: uint8)
    requires slots <= SLOT_NUM_16
    ensures var p := SensbReqFrame(afi, param, cmd, slots)[2];
      p & cmd == cmd && p & SlotsOctet(slots) == SlotsOctet(slots)
      && p & param & !SENSB_REQ_PARAM & !cmd & !SlotsOctet(slots) == 0
  {
  }

  /** The one-octet SLOT_MARKER APn: (slotCode << 4) | 0x05 stored in a uint8_t.
      The low nibble is always the SENSB_REQ command code. */
  function SlotMarkerFrame(slotCode: uint8): (r: seq<byte>)
    ensures |r| == 1
    ensures r[0] & 0x0F == CMD_SENSB_REQ
  {
    [((slotCode as byte) << 4) | CMD_SENSB_REQ]
  }

  /** The corrected range of slot codes: one octet can only carry codes 1 to 15. */
  predicate MarkerSlotCode(slotCode: uint8)
  {
    SLOTMARKER_SLOTCODE_MIN <= slotCode < SLOTMARKER_SLOTCODE_MAX
  }

  /** Within the corrected range the high nibble of APn is the slot code, so
      every slot code has its own SLOT_MARKER and none of them can be taken for
      a SENSB_REQ. */
  lemma SlotMarkerFrameDistinct(a: uint8, b: uint8)
    requires MarkerSlotCode(a) && MarkerSlotCode(b)
    ensures SlotMarkerFrame(a)[0] >> 4 == a as byte
    ensures SlotMarkerFrame(a) == SlotMarkerFrame(b) ==> a == b
    ensures SlotMarkerFrame(a)[0] != CMD_SENSB_REQ
  {
  }

  /** The parameter check of the slot marker accepts slot code 16, whose APn
      wraps to the SENSB_REQ command octet 0x05 and carries no slot code. */
  lemma SlotCodeSixteenWraps()
    ensures SLOTMARKER_SLOTCODE_MIN <= 16 <= SLOTMARKER_SLOTCODE_MAX
    ensures SlotMarkerFrame(16) == [CMD_SENSB_REQ]
  {
  }

  /** The status of the presence check for a reply: CRC and framing errors
      (a collision or garbled answer) become an empty success so that the
      anticollision goes on; a clean reception gets the validator's verdict;
      every other status, timeouts included, is passed on. */
  function PresenceVerdict(reply: Reply): (r: ReturnCode)
    ensures r != ST_ERR_CRC && r != ST_ERR_FRAMING
    ensures reply.status == ST_ERR_CRC || reply.status == ST_ERR_FRAMING ==> r == ST_ERR_NONE
    ensures reply.status == ST_ERR_NONE ==> r == CheckSensbRes(Received(reply, ZeroSensbRes), RxLenOctet(reply.rxLen))
    ensures reply.status != ST_ERR_NONE && reply.status != ST_ERR_CRC && reply.status != ST_ERR_FRAMING ==> r == reply.status
  {
    if reply.status == ST_ERR_CRC || reply.status == ST_ERR_FRAMING then ST_ERR_NONE
    else if reply.status == ST_ERR_NONE then CheckSensbRes(Received(reply, ZeroSensbRes), RxLenOctet(reply.rxLen))
    else reply.status
  }

  /** The length the presence check reports: zero after a CRC or framing error,
      so the entry is never taken for a valid answer. */
  function PresenceLen(reply: Reply): (r: uint8)
    ensures reply.status == ST_ERR_CRC || reply.status == ST_ERR_FRAMING ==> r == 0
    ensures reply.status != ST_ERR_CRC && reply.status != ST_ERR_FRAMING ==> r == RxLenOctet(reply.rxLen)
  {
    if reply.status == ST_ERR_CRC || reply.status == ST_ERR_FRAMING then 0 else RxLenOctet(reply.rxLen)
  }

  /** A presence check that saw a transmission error leaves an entry that is
      not identified, and reports no error. */
  lemma PresenceErrorLeavesNoDevice(reply: Reply, d: ListenDevice)
    requires reply.status == ST_ERR_CRC || reply.status == ST_ERR_FRAMING
    ensures !Identified(d.(sensbRes := Received(reply, ZeroSensbRes), sensbResLen := PresenceLen(reply)))
    ensures PresenceVerdict(reply) == ST_ERR_NONE
  {
    CheckSensbResLengthFirst(Received(reply, ZeroSensbRes), Received(reply, ZeroSensbRes), 0);
  }

  /** The status of a SLOT_MARKER exchange: CRC and framing errors mean that
      several listeners answered in the slot, and are reported as a collision. */
  function SlotMarkerVerdict(reply: Reply, prior: SensbRes): (r: ReturnCode)
    ensures r != ST_ERR_CRC && r != ST_ERR_FRAMING
    ensures reply.status == ST_ERR_CRC || reply.status == ST_ERR_FRAMING ==> r == ST_ERR_RF_COLLISION
    ensures reply.status == ST_ERR_NONE ==> r == CheckSensbRes(Received(reply, prior), RxLenOctet(reply.rxLen))
    ensures reply.status != ST_ERR_NONE && reply.status != ST_ERR_CRC && reply.status != ST_ERR_FRAMING ==> r == reply.status
  {
    if reply.status == ST_ERR_CRC || reply.status == ST_ERR_FRAMING then ST_ERR_RF_COLLISION
    else if reply.status == ST_ERR_NONE then CheckSensbRes(Received(reply, prior), RxLenOctet(reply.rxLen))
    else reply.status
  }

  /** The status of a SLPB exchange: a transceive error is returned as it is;
      otherwise the answer must be exactly one octet holding SLPB_RES. */
  function SleepVerdict(reply: Reply): (r: ReturnCode)
    ensures reply.status != ST_ERR_NONE ==> r == reply.status
    ensures reply.status == ST_ERR_NONE ==> r == ST_ERR_NONE || r == ST_ERR_PROTO
    ensures r == ST_ERR_NONE <==>
      reply.status == ST_ERR_NONE && reply.rxLen == SLPB_RES_LEN && reply.rx.Some? && reply.rx.value.cmd == CMD_SLPB_RES
  {
    ExitOnErr(reply.status,
      if reply.rxLen != SLPB_RES_LEN || reply.rx.None? || reply.rx.value.cmd != CMD_SLPB_RES then ST_ERR_PROTO
      else ST_ERR_NONE)
  }

  /** rfalNfcbNI2NumberOfSlots: (uint8_t)(1 << ni), 2^ni slots for an
      identifier below 8 and zero once the bit is shifted out of the octet. */
  function NumberOfSlots(ni: uint8): (r: uint8)
    ensures ni < 8 ==> r == Pow2(ni)
    ensures ni >= 8 ==> r == 0
  {
    if ni < 8 then
      Pow2Monotone(ni, 7);
      Pow2(ni)
    else
      Pow2MultipleOf256(ni);
      Pow2(ni) % 256
  }

  /** The slot-number identifiers the engine uses give 1 to 16 slots. */
  lemma NumberOfSlotsRange(ni: uint8)
    requires ni <= SLOT_NUM_16
    ensures 1 <= NumberOfSlots(ni) <= 16
  {
    Pow2Monotone(ni, 4);
  }

  /** TR2 table of Digital 1.1 Table 33, in 1/fc. */
  const TR2_TABLE: seq<nat> := [1792, 3328, 5376, 9472]

  /** rfalNfcbTR2ToFDT: the FDT for the TR2 code of a SENSB_RES. */
  function TR2ToFDT(tr2Code: byte): (r: nat)
    ensures r in TR2_TABLE
    ensures r == TR2_TABLE[(tr2Code & SENSB_RES_PROTO_TR2_MASK) as int]
  {
    TR2_TABLE[(tr2Code & SENSB_RES_PROTO_TR2_MASK) as int]
  }

  /** A larger masked TR2 code never gives a shorter FDT. */
  lemma TR2ToFDTMonotone(a: byte, b: byte)
    requires a & SENSB_RES_PROTO_TR2_MASK <= b & SENSB_RES_PROTO_TR2_MASK
    ensures TR2ToFDT(a) <= TR2ToFDT(b)
  {
  }

  /** The arguments rfalNfcbPollerCheckPresence accepts. */
  predicate PresenceArgsOk(cmd: byte, slots: uint8)
  {
    (cmd == SENS_CMD_SENSB_REQ || cmd == SENS_CMD_ALLB_REQ) && slots <= SLOT_NUM_16
  }

  /** The slot ranges and mode combinations the collision resolution accepts:
      ISO mode continues technology detection, so it starts with one slot. */
  predicate ResolutionArgsOk(mode: ComplianceMode, initSlots: uint8, endSlots: uint8)
  {
    initSlots <= SLOT_NUM_16 && endSlots <= SLOT_NUM_16 && (mode == ISO ==> initSlots == SLOT_NUM_1)
  }

  /** What the collision resolution keeps true of the device list, given the
      list it started from and the number of devices counted so far: counted
      entries hold valid answers; entries past the next free one are
      untouched; sleep flags change only on counted entries, are never set in
      EMV mode, and every counted device but the last one is asleep. */
  ghost predicate Bookkeeping(now: seq<ListenDevice>, before: seq<ListenDevice>, cnt: nat, mode: ComplianceMode)
  {
    |now| == |before| && cnt <= |now|
    && (forall k :: 0 <= k < cnt ==> Identified(now[k]))
    && (forall k :: cnt < k < |now| ==> now[k] == before[k])
    && (forall k :: cnt <= k < |now| ==> now[k].isSleep == before[k].isSleep)
    && (forall k :: 0 <= k < |now| && now[k].isSleep && !before[k].isSleep ==> k < cnt && mode != EMV)
    && (forall k :: 0 <= k < cnt - 1 ==> now[k].isSleep)
  }

  /** Counting the identified device in the next free entry: it is woken
      (its sleep flag cleared) and the count grows by one, which keeps the
      bookkeeping when the device counted before it is already asleep. */
  lemma CountKeepsBookkeeping(now: seq<ListenDevice>, before: seq<ListenDevice>, cnt: nat, mode: ComplianceMode)
    requires Bookkeeping(now, before, cnt, mode)
    requires cnt < |now| && Identified(now[cnt])
    requires cnt >= 1 ==> now[cnt - 1].isSleep
    ensures Bookkeeping(now[cnt := now[cnt].(isSleep := false)], before, cnt + 1, mode)
  {
  }

  /** Putting the last counted device to sleep keeps the bookkeeping outside
      EMV mode, the one mode that never sends SLPB_REQ. */
  lemma SleepKeepsBookkeeping(now: seq<ListenDevice>, before: seq<ListenDevice>, cnt: nat, mode: ComplianceMode)
    requires Bookkeeping(now, before, cnt, mode)
    requires 1 <= cnt && mode != EMV
    ensures Bookkeeping(now[cnt - 1 := now[cnt - 1].(isSleep := true)], before, cnt, mode)
  {
  }

  /** What holds between two slots of the collision resolution in round
      slotsNum, with cnt devices counted of which cur in the current round:
      the bookkeeping above; the next free entry exists; the last counted
      device is asleep in ISO mode, and in NFC mode before the round finds its
      first device; EMV mode has counted nothing yet (it stops at the first
      device), and neither has a single-slot round. */
  ghost predicate Progress(mode: ComplianceMode, devLimit: uint8, slotsNum: uint8,
                           now: seq<ListenDevice>, before: seq<ListenDevice>, cnt: nat, cur: nat)
  {
    Bookkeeping(now, before, cnt, mode)
    && cnt < Max(devLimit, 1) && cur <= cnt
    && (mode == ISO && cnt >= 1 ==> now[cnt - 1].isSleep)
    && (mode == NFC && cur == 0 && cnt >= 1 ==> now[cnt - 1].isSleep)
    && (mode == EMV ==> cnt == 0)
    && (slotsNum == SLOT_NUM_1 ==> cnt == 0)
    && (cnt > 0 ==> slotsNum >= 1)
  }

  /** What holds after a device is counted: the resolution either goes on
      with the bookkeeping kept, or stops with the bookkeeping and the device
      bounds. */
  ghost predicate Counted(mode: ComplianceMode, devLimit: uint8, slotsNum: uint8,
                          now: seq<ListenDevice>, before: seq<ListenDevice>, cnt: nat, cur: nat, done: bool)
  {
    (!done ==> Progress(mode, devLimit, slotsNum, now, before, cnt, cur))
    && (done ==>
          Bookkeeping(now, before, cnt, mode) && cnt <= Max(devLimit, 1)
          && (mode == EMV ==> cnt <= 1) && (slotsNum == SLOT_NUM_1 ==> cnt <= 1))
  }

  /** What holds when the collision resolution stops in a round between
      fromSlots and toSlots: the bookkeeping, the device bounds, a pending
      collision only with success, and an error only for collision detection
      in a single-slot round. */
  ghost predicate Finished(mode: ComplianceMode, devLimit: uint8, fromSlots: uint8, toSlots: uint8,
                           now: seq<ListenDevice>, before: seq<ListenDevice>, cnt: nat, pending: bool, ret: ReturnCode)
  {
    Bookkeeping(now, before, cnt, mode)
    && cnt <= Max(devLimit, 1)
    && (mode == EMV ==> cnt <= 1)
    && (toSlots == SLOT_NUM_1 ==> cnt <= 1)
    && (pending ==> ret == ST_ERR_NONE)
    && (ret != ST_ERR_NONE ==>
          cnt == 0 && !pending && devLimit == 0 && fromSlots == SLOT_NUM_1 && ret == ST_ERR_RF_COLLISION)
  }

  /** What a completed slotted collision resolution guarantees, given the
      list it started from, the final list and count, the status it returned,
      the verdict of its opening presence check and the number of exchanges
      it made:
      - the bookkeeping above, with at most max(devLimit, 1) devices, at most
        one in EMV mode and at most one when every round has a single slot;
      - an error status is returned with no device counted, and only in three
        cases: the opening ALLB_REQ failed in a single-slot start outside ISO
        mode, EMV mode got an empty first answer, or collision detection only
        (devLimit 0) met an invalid single-slot answer;
      - in ISO mode an answer already valid in entry 0 (left there by
        technology detection) is taken as the only device, without any exchange. */
  ghost predicate Resolved(mode: ComplianceMode, devLimit: uint8, initSlots: uint8, endSlots: uint8,
                           before: seq<ListenDevice>, now: seq<ListenDevice>, cnt: nat, ret: ReturnCode,
                           firstVerdict: ReturnCode, exchanges: int)
  {
    Bookkeeping(now, before, cnt, mode)
    && cnt <= Max(devLimit, 1)
    && (mode == EMV ==> cnt <= 1)
    && (endSlots == SLOT_NUM_1 ==> cnt <= 1)
    && (ret != ST_ERR_NONE ==>
          cnt == 0
          && ((mode != ISO && initSlots == SLOT_NUM_1 && ret == firstVerdict)
              || (mode == EMV && ret == ST_ERR_FRAMING)
              || (devLimit == 0 && initSlots == SLOT_NUM_1 && ret == ST_ERR_RF_COLLISION)))
    && (mode == ISO && |before| > 0 && Identified(before[0]) ==>
          ret == ST_ERR_NONE && cnt == 1 && now == before[0 := before[0].(isSleep := false)] && exchanges == 0)
  }

  /* The collision resolution as a reference definition: one function per
     step of rfalNfcbPollerSlottedCollisionResolution, over the state the C
     code updates. The methods of NfcbPoller are proved equal to them. */

  /** What the collision resolution works on: the device list, *devCnt,
      *colPending and the frames sent so far (whose number is also the index
      of the next reply of the RF script). */
  datatype EngineState = EngineState(list: seq<ListenDevice>, cnt: nat, pending: bool, sent: seq<seq<byte>>)

  /** What stays fixed during a resolution: the compliance mode, the device
      limit, the stored AFI and PARAM, and the RF script. */
  datatype Setup = Setup(mode: ComplianceMode, devLimit: uint8, afi: byte, param: byte, replies: nat -> Reply)

  /** The state after a step inside a round: whether the resolution returns
      here, the current status (ret) and the devices counted in this round
      (curDevCnt). */
  datatype Step = Step(done: bool, ret: ReturnCode, cur: nat, e: EngineState)

  /** What a resolution returns: its status and the final state. */
  datatype Outcome = Outcome(ret: ReturnCode, e: EngineState)

  /** The next free entry exists and can still be counted: cur <= *devCnt <
      max(devLimit, 1) <= the list size. */
  predicate Fits(devLimit: uint8, s: EngineState, cur: nat)
  {
    cur <= s.cnt < Max(devLimit, 1) <= |s.list|
  }

  /** The frames the collision resolution sends: a SENSB_REQ / ALLB_REQ, a
      SLOT_MARKER that carries a slot code (never the bare SENSB_REQ octet),
      and, outside EMV mode, a SLPB_REQ. */
  predicate ResolutionFrame(mode: ComplianceMode, f: seq<byte>)
  {
    (|f| == 3 && f[0] == CMD_SENSB_REQ)
    || (|f| == 1 && f[0] & 0x0F == CMD_SENSB_REQ && f[0] != CMD_SENSB_REQ)
    || (mode != EMV && |f| >= 1 && f[0] == CMD_SLPB_REQ)
  }

  /** e is a later state of the same resolution than s: the count never
      drops, a device already counted keeps the answer it was counted with,
      and frames are only appended, each of them one the resolution sends. */
  ghost predicate Extends(mode: ComplianceMode, s: EngineState, e: EngineState)
  {
    |e.list| == |s.list| && s.cnt <= e.cnt && s.cnt <= |s.list|
    && (forall k :: 0 <= k < s.cnt ==>
          e.list[k].sensbRes == s.list[k].sensbRes && e.list[k].sensbResLen == s.list[k].sensbResLen)
    && |s.sent| <= |e.sent| && e.sent[..|s.sent|] == s.sent
    && (forall j :: |s.sent| <= j < |e.sent| ==> ResolutionFrame(mode, e.sent[j]))
  }

  lemma ExtendsRefl(mode: ComplianceMode, s: EngineState)
    requires s.cnt <= |s.list|
    ensures Extends(mode, s, s)
  {
    assert s.sent[..|s.sent|] == s.sent;
  }

  lemma ExtendsTrans(mode: ComplianceMode, a: EngineState, b: EngineState, c: EngineState)
    requires Extends(mode, a, b) && Extends(mode, b, c)
    ensures Extends(mode, a, c)
  {
    assert c.sent[..|a.sent|] == c.sent[..|b.sent|][..|a.sent|];
    forall j | |a.sent| <= j < |c.sent|
      ensures ResolutionFrame(mode, c.sent[j])
    {
      if j < |b.sent| {
        assert c.sent[j] == c.sent[..|b.sent|][j];
      }
    }
  }

  /** rfalNfcbPollerCheckPresence into entry `at`: the SENSB_REQ / ALLB_REQ
      goes out and the entry receives the answer (the reply is the one whose
      index is the number of frames sent before). */
  function SensbReqStep(su: Setup, cmd: byte, slots: uint8, at: nat, s: EngineState): (r: (EngineState, ReturnCode))
    requires slots <= SLOT_NUM_16 && at < |s.list|
    ensures r.0.cnt == s.cnt && r.0.pending == s.pending && |r.0.list| == |s.list|
    ensures r.0.list == s.list[at := r.0.list[at]] && r.0.list[at].isSleep == s.list[at].isSleep
    ensures r.0.sent == s.sent + [SensbReqFrame(su.afi, su.param, cmd, slots)]
    ensures r.0.list[at].sensbResLen == PresenceLen(su.replies(|s.sent|))
    ensures r.1 == PresenceVerdict(su.replies(|s.sent|))
  {
    var reply := su.replies(|s.sent|);
    (s.(list := s.list[at := s.list[at].(sensbRes := Received(reply, ZeroSensbRes), sensbResLen := PresenceLen(reply))],
        sent := s.sent + [SensbReqFrame(su.afi, su.param, cmd, slots)]),
     PresenceVerdict(reply))
  }

  /** rfalNfcbPollerSlotMarker into the next free entry. */
  function SlotMarkerStep(su: Setup, slotCode: uint8, s: EngineState): (r: (EngineState, ReturnCode))
    requires MarkerSlotCode(slotCode) && s.cnt < |s.list|
    ensures r.0.cnt == s.cnt && r.0.pending == s.pending && |r.0.list| == |s.list|
    ensures r.0.list == s.list[s.cnt := r.0.list[s.cnt]] && r.0.list[s.cnt].isSleep == s.list[s.cnt].isSleep
    ensures r.0.sent == s.sent + [SlotMarkerFrame(slotCode)]
    ensures r.1 == SlotMarkerVerdict(su.replies(|s.sent|), s.list[s.cnt].sensbRes)
  {
    var reply := su.replies(|s.sent|);
    var at := s.cnt;
    (s.(list := s.list[at := s.list[at].(sensbRes := Received(reply, s.list[at].sensbRes), sensbResLen := RxLenOctet(reply.rxLen))],
        sent := s.sent + [SlotMarkerFrame(slotCode)]),
     SlotMarkerVerdict(reply, s.list[at].sensbRes))
  }

  /** rfalNfcbPollerSleep to entry i, whose status is ignored, and the entry
      marked asleep. */
  function SleepStep(su: Setup, s: EngineState, i: nat): (r: EngineState)
    requires i < |s.list|
    ensures r.cnt == s.cnt && r.pending == s.pending && |r.list| == |s.list|
    ensures r.list[i].isSleep && r.sent == s.sent + [[CMD_SLPB_REQ] + s.list[i].sensbRes.nfcid0]
  {
    s.(list := s.list[i := s.list[i].(isSleep := true)], sent := s.sent + [[CMD_SLPB_REQ] + s.list[i].sensbRes.nfcid0])
  }

  /** A valid answer in the next free entry (Activity 1.1, section 9.3.5,
      symbols 7 to 13): the entry is woken and counted. EMV mode stops at
      once. ISO mode stops at the device limit or in a single-slot round and
      otherwise puts the new device to sleep. NFC mode puts the previous
      device of the round to sleep and stops under the same conditions. */
  function CountStep(su: Setup, slotsNum: uint8, cur: nat, s: EngineState): (r: Step)
    requires Fits(su.devLimit, s, cur)
    ensures r.ret == ST_ERR_NONE && r.cur == cur + 1 && r.e.cnt == s.cnt + 1 && r.e.pending == s.pending
    ensures |r.e.list| == |s.list|
    ensures r.e.list[s.cnt].sensbRes == s.list[s.cnt].sensbRes && r.e.list[s.cnt].sensbResLen == s.list[s.cnt].sensbResLen
    ensures r.done <==> su.mode == EMV || r.e.cnt >= su.devLimit || slotsNum == SLOT_NUM_1
    ensures !r.e.list[s.cnt].isSleep <==> r.done || su.mode != ISO
    ensures !r.done ==> Fits(su.devLimit, r.e, r.cur)
  {
    var woke := s.(list := s.list[s.cnt := s.list[s.cnt].(isSleep := false)]);
    match su.mode
    case EMV => Step(true, ST_ERR_NONE, cur + 1, woke.(cnt := s.cnt + 1))
    case ISO =>
      var counted := woke.(cnt := s.cnt + 1);
      if counted.cnt >= su.devLimit || slotsNum == SLOT_NUM_1 then Step(true, ST_ERR_NONE, cur + 1, counted)
      else Step(false, ST_ERR_NONE, cur + 1, SleepStep(su, counted, s.cnt))
    case NFC =>
      var slept := if cur != 0 then SleepStep(su, woke, s.cnt - 1) else woke;
      Step(s.cnt + 1 >= su.devLimit || slotsNum == SLOT_NUM_1, ST_ERR_NONE, cur + 1, slept.(cnt := s.cnt + 1))
  }

  /** The answer a slot is judged by: slot 0 takes the answer of the exchange
      that opened the round (status ret); any later slot is opened by a
      SLOT_MARKER carrying its code. */
  function SlotExchange(su: Setup, slotCode: uint8, ret: ReturnCode, s: EngineState): (r: (EngineState, ReturnCode))
    requires slotCode < SLOTMARKER_SLOTCODE_MAX && s.cnt < |s.list|
    ensures r.0.cnt == s.cnt && r.0.pending == s.pending && |r.0.list| == |s.list|
    ensures r.0.list == s.list[s.cnt := r.0.list[s.cnt]] && r.0.list[s.cnt].isSleep == s.list[s.cnt].isSleep
    ensures slotCode == 0 ==> r == (s, ret)
  {
    if slotCode != 0 then SlotMarkerStep(su, slotCode, s) else (s, ret)
  }

  /** One slot of a round (Activity 1.1, section 9.3.5, symbols 25 to 8):
      unless the slot timed out, a valid answer is counted, and an invalid one
      is a collision, which ends collision detection only (devLimit 0) in a
      single-slot round with ST_ERR_RF_COLLISION and is otherwise left pending. */
  function SlotStep(su: Setup, slotsNum: uint8, slotCode: uint8, cur: nat, ret: ReturnCode, s: EngineState): (r: Step)
    requires slotsNum <= SLOT_NUM_16 && slotCode < NumberOfSlots(slotsNum)
    requires Fits(su.devLimit, s, cur)
    ensures |r.e.list| == |s.list|
    ensures r.done ==> r.ret == ST_ERR_NONE || r.ret == ST_ERR_RF_COLLISION
    ensures !r.done ==> Fits(su.devLimit, r.e, r.cur) && r.e.cnt - r.cur == s.cnt - cur
  {
    NumberOfSlotsRange(slotsNum);
    var x := SlotExchange(su, slotCode, ret, s);
    if x.1 == ST_ERR_TIMEOUT then Step(false, x.1, cur, x.0)
    else if Identified(x.0.list[x.0.cnt]) && x.1 == ST_ERR_NONE then CountStep(su, slotsNum, cur, x.0)
    else if su.devLimit == 0 && slotsNum == SLOT_NUM_1 then Step(true, ST_ERR_RF_COLLISION, cur, x.0)
    else Step(false, x.1, cur, x.0.(pending := true))
  }

  /** The slots of a round from slotCode on, up to the number of slots of
      the round, or until one of them ends the resolution. */
  function SlotsFrom(su: Setup, slotsNum: uint8, slotCode: uint8, cur: nat, ret: ReturnCode, s: EngineState): (r: Step)
    requires slotsNum <= SLOT_NUM_16 && slotCode < NumberOfSlots(slotsNum)
    requires Fits(su.devLimit, s, cur)
    ensures |r.e.list| == |s.list|
    ensures r.done ==> r.ret == ST_ERR_NONE || r.ret == ST_ERR_RF_COLLISION
    ensures !r.done ==> Fits(su.devLimit, r.e, r.cur) && r.e.cnt - r.cur == s.cnt - cur
    decreases NumberOfSlots(slotsNum) - slotCode
  {
    var r := SlotStep(su, slotsNum, slotCode, cur, ret, s);
    if r.done || slotCode + 1 >= NumberOfSlots(slotsNum) then r
    else SlotsFrom(su, slotsNum, slotCode + 1, r.cur, r.ret, r.e)
  }

  /** The opening of a round (Activity 1.1, section 9.3.5, symbols 22 and
      23): in NFC mode the device found last in the previous pass goes to
      sleep; a SENSB_REQ with the round's number of slots is sent into the
      next free entry unless this is the first round with no collision
      pending, which judges the answer already there. */
  function OpenStep(su: Setup, initSlots: uint8, slotsNum: uint8, cur: nat, ret: ReturnCode, s: EngineState): (r: (EngineState, ReturnCode))
    requires slotsNum <= SLOT_NUM_16 && Fits(su.devLimit, s, cur)
    ensures r.0.cnt == s.cnt && r.0.pending == s.pending && |r.0.list| == |s.list|
    ensures Fits(su.devLimit, r.0, 0)
  {
    var slept := if su.mode == NFC && cur != 0 then SleepStep(su, s, s.cnt - 1) else s;
    if slotsNum != initSlots || s.pending then SensbReqStep(su, SENS_CMD_SENSB_REQ, slotsNum, slept.cnt, slept)
    else (slept, ret)
  }

  /** One pass over a slot class (Activity 1.1, section 9.3.5, symbols 22 to
      17): the opening, the pending flag cleared, every slot, and then
      success when no collision is left pending. A pass that does not end the
      resolution leaves a collision pending. */
  function RoundStep(su: Setup, initSlots: uint8, slotsNum: uint8, cur: nat, ret: ReturnCode, s: EngineState): (r: Step)
    requires slotsNum <= SLOT_NUM_16 && Fits(su.devLimit, s, cur)
    ensures |r.e.list| == |s.list|
    ensures r.done ==> r.ret == ST_ERR_NONE || r.ret == ST_ERR_RF_COLLISION
    ensures !r.done ==> Fits(su.devLimit, r.e, r.cur) && r.e.cnt == s.cnt + r.cur && r.e.pending
  {
    NumberOfSlotsRange(slotsNum);
    var o := OpenStep(su, initSlots, slotsNum, cur, ret, s);
    var t := SlotsFrom(su, slotsNum, 0, 0, o.1, o.0.(pending := false));
    if !t.done && !t.e.pending then Step(true, ST_ERR_NONE, t.cur, t.e) else t
  }

  /** The passes over one slot class (the do-while loop of Activity 1.1,
      section 9.3.5, symbols 22 to 16): a pass that ends with a collision
      pending is repeated with the same number of slots as long as it counted
      a device. Unless the resolution ends, the class is left with a
      collision pending and no device counted in its last pass. */
  function ClassPasses(su: Setup, initSlots: uint8, slotsNum: uint8, cur: nat, ret: ReturnCode, s: EngineState): (r: Step)
    requires slotsNum <= SLOT_NUM_16 && Fits(su.devLimit, s, cur)
    ensures |r.e.list| == |s.list|
    ensures r.done ==> r.ret == ST_ERR_NONE || r.ret == ST_ERR_RF_COLLISION
    ensures !r.done ==> Fits(su.devLimit, r.e, 0) && r.cur == 0 && r.e.pending
    decreases Max(su.devLimit, 1) - s.cnt
  {
    var r := RoundStep(su, initSlots, slotsNum, cur, ret, s);
    if r.done || r.cur == 0 then r
    else ClassPasses(su, initSlots, slotsNum, r.cur, r.ret, r.e)
  }

  /** The slot classes from slotsNum to endSlots (the for loop of Activity
      1.1, section 9.3.5, symbol 16): each class is resolved in turn; after
      the last one the resolution succeeds. */
  function Passes(su: Setup, initSlots: uint8, endSlots: uint8, slotsNum: uint8, ret: ReturnCode, s: EngineState): (r: Outcome)
    requires slotsNum <= endSlots <= SLOT_NUM_16 && Fits(su.devLimit, s, 0)
    ensures |r.e.list| == |s.list|
    ensures r.ret == ST_ERR_NONE || r.ret == ST_ERR_RF_COLLISION
    decreases endSlots - slotsNum
  {
    var c := ClassPasses(su, initSlots, slotsNum, 0, ret, s);
    if c.done then Outcome(c.ret, c.e)
    else if slotsNum < endSlots then Passes(su, initSlots, endSlots, slotsNum + 1, c.ret, c.e)
    else Outcome(ST_ERR_NONE, c.e)
  }

  /** One class of Passes unfolded: its passes, then the next class or the
      end. */
  lemma PassesUnfold(su: Setup, initSlots: uint8, endSlots: uint8, slotsNum: uint8, ret: ReturnCode, s: EngineState)
    requires slotsNum <= endSlots <= SLOT_NUM_16 && Fits(su.devLimit, s, 0)
    ensures var c := ClassPasses(su, initSlots, slotsNum, 0, ret, s);
      Passes(su, initSlots, endSlots, slotsNum, ret, s)
      == if c.done then Outcome(c.ret, c.e)
         else if slotsNum < endSlots then Passes(su, initSlots, endSlots, slotsNum + 1, c.ret, c.e)
         else Outcome(ST_ERR_NONE, c.e)
  {
  }

  /** The opening of rfalNfcbPollerSlottedCollisionResolution on the list
      `list0` with `sent0` sent before: no device counted and no collision
      pending; outside ISO mode an ALLB_REQ into entry 0, whose verdict
      becomes the status; in ISO mode nothing is sent and the status is
      ST_ERR_NONE. */
  function Opening(su: Setup, initSlots: uint8, list0: seq<ListenDevice>, sent0: seq<seq<byte>>): (r: (EngineState, ReturnCode))
    requires initSlots <= SLOT_NUM_16 && |list0| >= 1
    ensures r.0.cnt == 0 && !r.0.pending && |r.0.list| == |list0|
    ensures su.mode == ISO ==> r == (EngineState(list0, 0, false, sent0), ST_ERR_NONE)
    ensures su.mode != ISO ==>
      r.0.sent == sent0 + [SensbReqFrame(su.afi, su.param, SENS_CMD_ALLB_REQ, initSlots)]
      && r.0.list == list0[0 := r.0.list[0]] && r.0.list[0].isSleep == list0[0].isSleep
      && r.0.list[0].sensbResLen == PresenceLen(su.replies(|sent0|))
      && r.1 == PresenceVerdict(su.replies(|sent0|))
  {
    var s0 := EngineState(list0, 0, false, sent0);
    if su.mode != ISO then SensbReqStep(su, SENS_CMD_ALLB_REQ, initSlots, 0, s0) else (s0, ST_ERR_NONE)
  }

  /** rfalNfcbPollerSlottedCollisionResolution once its arguments are
      accepted: after the opening, a failed ALLB_REQ in a single-slot start
      is returned at once; an empty first answer in EMV mode is
      ST_ERR_FRAMING; then the passes from initSlots to endSlots. */
  function Run(su: Setup, initSlots: uint8, endSlots: uint8, list0: seq<ListenDevice>, sent0: seq<seq<byte>>): (r: Outcome)
    requires ResolutionArgsOk(su.mode, initSlots, endSlots) && |list0| >= Max(su.devLimit, 1)
    ensures |r.e.list| == |list0|
    ensures r.ret != ST_ERR_NONE && r.ret != ST_ERR_RF_COLLISION ==> (su.mode != ISO && initSlots == SLOT_NUM_1) || su.mode == EMV
  {
    var o := Opening(su, initSlots, list0, sent0);
    if su.mode != ISO && o.1 != ST_ERR_NONE && initSlots == SLOT_NUM_1 then Outcome(o.1, o.0)
    else if su.mode == EMV && o.0.list[0].sensbResLen == 0 then Outcome(ST_ERR_FRAMING, o.0)
    else if initSlots > endSlots then Outcome(ST_ERR_NONE, o.0)
    else Passes(su, initSlots, endSlots, initSlots, o.1, o.0)
  }

  /** An exchange appends one frame and writes at most the entry at `at`, at
      or past the next free one: the state extends the one before. */
  lemma OneFrameExtends(mode: ComplianceMode, s: EngineState, e: EngineState, at: nat, f: seq<byte>)
    requires s.cnt <= at < |s.list| && e.cnt == s.cnt
    requires |e.list| == |s.list| && e.list == s.list[at := e.list[at]] && e.sent == s.sent + [f] && ResolutionFrame(mode, f)
    ensures Extends(mode, s, e)
  {
    assert e.sent[..|s.sent|] == s.sent;
  }

  /** Putting counted device i to sleep outside EMV mode keeps every answer
      and sends a SLPB_REQ. */
  lemma SleepExtends(su: Setup, s: EngineState, i: nat)
    requires su.mode != EMV && i < s.cnt <= |s.list|
    ensures Extends(su.mode, s, SleepStep(su, s, i))
  {
    var r := SleepStep(su, s, i);
    assert r.sent[..|s.sent|] == s.sent;
  }

  /** Counting a device extends the state. */
  lemma CountExtends(su: Setup, slotsNum: uint8, cur: nat, s: EngineState)
    requires Fits(su.devLimit, s, cur)
    ensures Extends(su.mode, s, CountStep(su, slotsNum, cur, s).e)
  {
    var woke := s.(list := s.list[s.cnt := s.list[s.cnt].(isSleep := false)], cnt := s.cnt + 1);
    ExtendsRefl(su.mode, s);
    assert Extends(su.mode, s, woke);
    if su.mode == ISO && !(woke.cnt >= su.devLimit || slotsNum == SLOT_NUM_1) {
      SleepExtends(su, woke, s.cnt);
      ExtendsTrans(su.mode, s, woke, SleepStep(su, woke, s.cnt));
    } else if su.mode == NFC && cur != 0 {
      SleepExtends(su, woke, s.cnt - 1);
      ExtendsTrans(su.mode, s, woke, SleepStep(su, woke, s.cnt - 1));
      assert SleepStep(su, woke, s.cnt - 1) == CountStep(su, slotsNum, cur, s).e;
    }
  }

  /** One slot extends the state. */
  lemma SlotExtends(su: Setup, slotsNum: uint8, slotCode: uint8, cur: nat, ret: ReturnCode, s: EngineState)
    requires slotsNum <= SLOT_NUM_16 && slotCode < NumberOfSlots(slotsNum) && Fits(su.devLimit, s, cur)
    ensures Extends(su.mode, s, SlotStep(su, slotsNum, slotCode, cur, ret, s).e)
  {
    NumberOfSlotsRange(slotsNum);
    var x := SlotExchange(su, slotCode, ret, s);
    if slotCode != 0 {
      SlotMarkerFrameDistinct(slotCode, slotCode);
      OneFrameExtends(su.mode, s, x.0, s.cnt, SlotMarkerFrame(slotCode));
    } else {
      ExtendsRefl(su.mode, s);
    }
    if x.1 != ST_ERR_TIMEOUT && Identified(x.0.list[x.0.cnt]) && x.1 == ST_ERR_NONE {
      CountExtends(su, slotsNum, cur, x.0);
      ExtendsTrans(su.mode, s, x.0, CountStep(su, slotsNum, cur, x.0).e);
    }
  }

  /** The slots of a round extend the state. */
  lemma {:induction false} SlotsExtends(su: Setup, slotsNum: uint8, slotCode: uint8, cur: nat, ret: ReturnCode, s: EngineState)
    requires slotsNum <= SLOT_NUM_16 && slotCode < NumberOfSlots(slotsNum) && Fits(su.devLimit, s, cur)
    ensures Extends(su.mode, s, SlotsFrom(su, slotsNum, slotCode, cur, ret, s).e)
    decreases NumberOfSlots(slotsNum) - slotCode
  {
    SlotExtends(su, slotsNum, slotCode, cur, ret, s);
    var r := SlotStep(su, slotsNum, slotCode, cur, ret, s);
    if !r.done && slotCode + 1 < NumberOfSlots(slotsNum) {
      SlotsExtends(su, slotsNum, slotCode + 1, r.cur, r.ret, r.e);
      ExtendsTrans(su.mode, s, r.e, SlotsFrom(su, slotsNum, slotCode + 1, r.cur, r.ret, r.e).e);
    }
  }

  /** The opening of a pass extends the state. */
  lemma OpenExtends(su: Setup, initSlots: uint8, slotsNum: uint8, cur: nat, ret: ReturnCode, s: EngineState)
    requires slotsNum <= SLOT_NUM_16 && Fits(su.devLimit, s, cur)
    ensures Extends(su.mode, s, OpenStep(su, initSlots, slotsNum, cur, ret, s).0)
  {
    var slept := if su.mode == NFC && cur != 0 then SleepStep(su, s, s.cnt - 1) else s;
    if su.mode == NFC && cur != 0 {
      SleepExtends(su, s, s.cnt - 1);
    } else {
      ExtendsRefl(su.mode, s);
    }
    var o := OpenStep(su, initSlots, slotsNum, cur, ret, s);
    if slotsNum != initSlots || s.pending {
      OneFrameExtends(su.mode, slept, o.0, slept.cnt, SensbReqFrame(su.afi, su.param, SENS_CMD_SENSB_REQ, slotsNum));
    } else {
      ExtendsRefl(su.mode, slept);
    }
    ExtendsTrans(su.mode, s, slept, o.0);
  }

  /** A pass extends the state. */
  lemma RoundExtends(su: Setup, initSlots: uint8, slotsNum: uint8, cur: nat, ret: ReturnCode, s: EngineState)
    requires slotsNum <= SLOT_NUM_16 && Fits(su.devLimit, s, cur)
    ensures Extends(su.mode, s, RoundStep(su, initSlots, slotsNum, cur, ret, s).e)
  {
    NumberOfSlotsRange(slotsNum);
    OpenExtends(su, initSlots, slotsNum, cur, ret, s);
    var o := OpenStep(su, initSlots, slotsNum, cur, ret, s);
    SlotsExtends(su, slotsNum, 0, 0, o.1, o.0.(pending := false));
    ExtendsTrans(su.mode, s, o.0.(pending := false), SlotsFrom(su, slotsNum, 0, 0, o.1, o.0.(pending := false)).e);
  }

  /** The passes over one slot class extend the state. */
  lemma {:induction false} ClassExtends(su: Setup, initSlots: uint8, slotsNum: uint8, cur: nat, ret: ReturnCode, s: EngineState)
    requires slotsNum <= SLOT_NUM_16 && Fits(su.devLimit, s, cur)
    ensures Extends(su.mode, s, ClassPasses(su, initSlots, slotsNum, cur, ret, s).e)
    decreases Max(su.devLimit, 1) - s.cnt
  {
    RoundExtends(su, initSlots, slotsNum, cur, ret, s);
    var r := RoundStep(su, initSlots, slotsNum, cur, ret, s);
    if !r.done && r.cur != 0 {
      ClassExtends(su, initSlots, slotsNum, r.cur, r.ret, r.e);
      ExtendsTrans(su.mode, s, r.e, ClassPasses(su, initSlots, slotsNum, r.cur, r.ret, r.e).e);
    }
  }

  /** The passes over the slot classes extend the state. */
  lemma {:induction false} PassesExtends(su: Setup, initSlots: uint8, endSlots: uint8, slotsNum: uint8, ret: ReturnCode, s: EngineState)
    requires slotsNum <= endSlots <= SLOT_NUM_16 && Fits(su.devLimit, s, 0)
    ensures Extends(su.mode, s, Passes(su, initSlots, endSlots, slotsNum, ret, s).e)
    decreases endSlots - slotsNum, 1
  {
    ClassExtends(su, initSlots, slotsNum, 0, ret, s);
    var c := ClassPasses(su, initSlots, slotsNum, 0, ret, s);
    if !c.done && slotsNum < endSlots {
      var p := Passes(su, initSlots, endSlots, slotsNum + 1, c.ret, c.e);
      assert Passes(su, initSlots, endSlots, slotsNum, ret, s) == p;
      PassesExtendsNext(su, initSlots, endSlots, slotsNum, c.ret, s, c.e, p);
    }
  }

  /** PassesExtends when the next class follows: e is the state this class
      leaves, which extends s. */
  lemma {:induction false} PassesExtendsNext(su: Setup, initSlots: uint8, endSlots: uint8, slotsNum: uint8, ret: ReturnCode,
                                             s: EngineState, e: EngineState, p: Outcome)
    requires slotsNum < endSlots <= SLOT_NUM_16 && Fits(su.devLimit, e, 0) && Extends(su.mode, s, e)
    requires p == Passes(su, initSlots, endSlots, slotsNum + 1, ret, e)
    ensures Extends(su.mode, s, p.e)
    decreases endSlots - slotsNum, 0
  {
    PassesExtends(su, initSlots, endSlots, slotsNum + 1, ret, e);
    ExtendsTrans(su.mode, s, e, p.e);
  }

  /** A whole resolution extends the state it started from: no frame sent
      before is lost, every frame it sends is a SENSB_REQ / ALLB_REQ, a
      SLOT_MARKER or (outside EMV mode) a SLPB_REQ, and a counted device keeps
      the answer it was counted with. */
  lemma RunExtends(su: Setup, initSlots: uint8, endSlots: uint8, list0: seq<ListenDevice>, sent0: seq<seq<byte>>)
    requires ResolutionArgsOk(su.mode, initSlots, endSlots) && |list0| >= Max(su.devLimit, 1)
    ensures Extends(su.mode, EngineState(list0, 0, false, sent0), Run(su, initSlots, endSlots, list0, sent0).e)
  {
    var s0 := EngineState(list0, 0, false, sent0);
    var o := Opening(su, initSlots, list0, sent0);
    if su.mode != ISO {
      OneFrameExtends(su.mode, s0, o.0, 0, SensbReqFrame(su.afi, su.param, SENS_CMD_ALLB_REQ, initSlots));
    } else {
      ExtendsRefl(su.mode, s0);
    }
    if !(su.mode != ISO && o.1 != ST_ERR_NONE && initSlots == SLOT_NUM_1) && !(su.mode == EMV && o.0.list[0].sensbResLen == 0)
       && initSlots <= endSlots {
      PassesExtends(su, initSlots, endSlots, initSlots, o.1, o.0);
      ExtendsTrans(su.mode, s0, o.0, Passes(su, initSlots, endSlots, initSlots, o.1, o.0).e);
    }
  }

  /** Counting a valid answer keeps the bookkeeping: the resolution stops
      within the device bounds or goes on between two slots. */
  lemma CountProgress(su: Setup, before: seq<ListenDevice>, slotsNum: uint8, cur: nat, s: EngineState)
    requires Fits(su.devLimit, s, cur) && Identified(s.list[s.cnt])
    requires Progress(su.mode, su.devLimit, slotsNum, s.list, before, s.cnt, cur)
    ensures var r := CountStep(su, slotsNum, cur, s);
      Counted(su.mode, su.devLimit, slotsNum, r.e.list, before, r.e.cnt, r.cur, r.done)
  {
    if su.mode == NFC {
      CountProgressNfc(su, before, slotsNum, cur, s);
    } else {
      CountProgressIsoEmv(su, before, slotsNum, cur, s);
    }
  }

  /** CountProgress in NFC mode: the device counted before in the same pass,
      if any, goes to sleep. */
  lemma CountProgressNfc(su: Setup, before: seq<ListenDevice>, slotsNum: uint8, cur: nat, s: EngineState)
    requires su.mode == NFC
    requires Fits(su.devLimit, s, cur) && Identified(s.list[s.cnt])
    requires Progress(su.mode, su.devLimit, slotsNum, s.list, before, s.cnt, cur)
    ensures var r := CountStep(su, slotsNum, cur, s);
      Counted(su.mode, su.devLimit, slotsNum, r.e.list, before, r.e.cnt, r.cur, r.done)
  {
    if cur != 0 {
      CountProgressNfcAfter(su, before, slotsNum, cur, s);
    } else {
      CountKeepsBookkeeping(s.list, before, s.cnt, NFC);
    }
  }

  /** CountProgressNfc for a device that is not the first of its pass. */
  lemma CountProgressNfcAfter(su: Setup, before: seq<ListenDevice>, slotsNum: uint8, cur: nat, s: EngineState)
    requires su.mode == NFC && cur != 0
    requires Fits(su.devLimit, s, cur) && Identified(s.list[s.cnt])
    requires Progress(su.mode, su.devLimit, slotsNum, s.list, before, s.cnt, cur)
    ensures var r := CountStep(su, slotsNum, cur, s);
      Counted(su.mode, su.devLimit, slotsNum, r.e.list, before, r.e.cnt, r.cur, r.done)
  {
    var woke := s.list[s.cnt := s.list[s.cnt].(isSleep := false)];
    SleepKeepsBookkeeping(s.list, before, s.cnt, NFC);
    var slept := s.list[s.cnt - 1 := s.list[s.cnt - 1].(isSleep := true)];
    CountKeepsBookkeeping(slept, before, s.cnt, NFC);
    assert CountStep(su, slotsNum, cur, s).e.list == slept[s.cnt := slept[s.cnt].(isSleep := false)]
      by { assert slept[s.cnt := slept[s.cnt].(isSleep := false)] == woke[s.cnt - 1 := woke[s.cnt - 1].(isSleep := true)]; }
  }

  /** CountProgress in ISO and EMV modes, where the device just counted is
      the one that may go to sleep. */
  lemma CountProgressIsoEmv(su: Setup, before: seq<ListenDevice>, slotsNum: uint8, cur: nat, s: EngineState)
    requires su.mode != NFC
    requires Fits(su.devLimit, s, cur) && Identified(s.list[s.cnt])
    requires Progress(su.mode, su.devLimit, slotsNum, s.list, before, s.cnt, cur)
    ensures var r := CountStep(su, slotsNum, cur, s);
      Counted(su.mode, su.devLimit, slotsNum, r.e.list, before, r.e.cnt, r.cur, r.done)
  {
    var r := CountStep(su, slotsNum, cur, s);
    var woke := s.list[s.cnt := s.list[s.cnt].(isSleep := false)];
    CountKeepsBookkeeping(s.list, before, s.cnt, su.mode);
    if su.mode == ISO && !r.done {
      SleepKeepsBookkeeping(woke, before, s.cnt + 1, ISO);
    }
  }

  /** Writing an answer into the next free entry, leaving its sleep flag,
      keeps the progress between two slots. */
  lemma AnswerKeepsProgress(mode: ComplianceMode, devLimit: uint8, slotsNum: uint8,
                            now: seq<ListenDevice>, next: seq<ListenDevice>, before: seq<ListenDevice>, cnt: nat, cur: nat)
    requires Progress(mode, devLimit, slotsNum, now, before, cnt, cur)
    requires cnt < |now| == |next| && next == now[cnt := next[cnt]] && next[cnt].isSleep == now[cnt].isSleep
    ensures Progress(mode, devLimit, slotsNum, next, before, cnt, cur)
  {
  }

  /** One slot keeps the bookkeeping between two slots, or ends the
      resolution as Finished describes. */
  lemma SlotProgress(su: Setup, before: seq<ListenDevice>, slotsNum: uint8, slotCode: uint8, cur: nat, ret: ReturnCode, s: EngineState)
    requires slotsNum <= SLOT_NUM_16 && slotCode < NumberOfSlots(slotsNum) && Fits(su.devLimit, s, cur)
    requires Progress(su.mode, su.devLimit, slotsNum, s.list, before, s.cnt, cur)
    requires slotCode == 0 ==> !s.pending
    ensures var r := SlotStep(su, slotsNum, slotCode, cur, ret, s);
      (!r.done ==> Progress(su.mode, su.devLimit, slotsNum, r.e.list, before, r.e.cnt, r.cur))
      && (r.done ==> Finished(su.mode, su.devLimit, slotsNum, slotsNum, r.e.list, before, r.e.cnt, r.e.pending, r.ret))
  {
    NumberOfSlotsRange(slotsNum);
    var x := SlotExchange(su, slotCode, ret, s);
    AnswerKeepsProgress(su.mode, su.devLimit, slotsNum, s.list, x.0.list, before, s.cnt, cur);
    if x.1 != ST_ERR_TIMEOUT && Identified(x.0.list[x.0.cnt]) && x.1 == ST_ERR_NONE {
      CountProgress(su, before, slotsNum, cur, x.0);
    }
  }

  /** The slots of a round from slotCode on keep the bookkeeping, or end the
      resolution as Finished describes. */
  lemma {:induction false} SlotsProgress(su: Setup, before: seq<ListenDevice>, slotsNum: uint8, slotCode: uint8, cur: nat, ret: ReturnCode, s: EngineState)
    requires slotsNum <= SLOT_NUM_16 && slotCode < NumberOfSlots(slotsNum) && Fits(su.devLimit, s, cur)
    requires Progress(su.mode, su.devLimit, slotsNum, s.list, before, s.cnt, cur)
    requires slotCode == 0 ==> !s.pending
    ensures var r := SlotsFrom(su, slotsNum, slotCode, cur, ret, s);
      (!r.done ==> Progress(su.mode, su.devLimit, slotsNum, r.e.list, before, r.e.cnt, r.cur))
      && (r.done ==> Finished(su.mode, su.devLimit, slotsNum, slotsNum, r.e.list, before, r.e.cnt, r.e.pending, r.ret))
    decreases NumberOfSlots(slotsNum) - slotCode, 1
  {
    SlotProgress(su, before, slotsNum, slotCode, cur, ret, s);
    var r := SlotStep(su, slotsNum, slotCode, cur, ret, s);
    if !r.done && slotCode + 1 < NumberOfSlots(slotsNum) {
      var p := SlotsFrom(su, slotsNum, slotCode + 1, r.cur, r.ret, r.e);
      assert SlotsFrom(su, slotsNum, slotCode, cur, ret, s) == p;
      SlotsProgressNext(su, before, slotsNum, slotCode, r.cur, r.ret, r.e, p);
    }
  }

  /** SlotsProgress when another slot follows slot slotCode: e is the state
      that slot leaves, p the slots after it. */
  lemma {:induction false} SlotsProgressNext(su: Setup, before: seq<ListenDevice>, slotsNum: uint8, slotCode: uint8,
                                             cur: nat, ret: ReturnCode, e: EngineState, p: Step)
    requires slotsNum <= SLOT_NUM_16 && slotCode + 1 < NumberOfSlots(slotsNum) && Fits(su.devLimit, e, cur)
    requires Progress(su.mode, su.devLimit, slotsNum, e.list, before, e.cnt, cur)
    requires p == SlotsFrom(su, slotsNum, slotCode + 1, cur, ret, e)
    ensures !p.done ==> Progress(su.mode, su.devLimit, slotsNum, p.e.list, before, p.e.cnt, p.cur)
    ensures p.done ==> Finished(su.mode, su.devLimit, slotsNum, slotsNum, p.e.list, before, p.e.cnt, p.e.pending, p.ret)
    decreases NumberOfSlots(slotsNum) - slotCode, 0
  {
    SlotsProgress(su, before, slotsNum, slotCode + 1, cur, ret, e);
  }

  /** The opening of a pass keeps the bookkeeping, with no device counted in
      the new pass yet. */
  lemma OpenProgress(su: Setup, before: seq<ListenDevice>, initSlots: uint8, slotsNum: uint8, cur: nat, ret: ReturnCode, s: EngineState)
    requires slotsNum <= SLOT_NUM_16 && Fits(su.devLimit, s, cur)
    requires Progress(su.mode, su.devLimit, slotsNum, s.list, before, s.cnt, cur)
    ensures var o := OpenStep(su, initSlots, slotsNum, cur, ret, s);
      Progress(su.mode, su.devLimit, slotsNum, o.0.list, before, o.0.cnt, 0)
  {
    var slept := if su.mode == NFC && cur != 0 then SleepStep(su, s, s.cnt - 1) else s;
    if su.mode == NFC && cur != 0 {
      SleepKeepsBookkeeping(s.list, before, s.cnt, NFC);
    }
    assert Progress(su.mode, su.devLimit, slotsNum, slept.list, before, slept.cnt, 0);
    var o := OpenStep(su, initSlots, slotsNum, cur, ret, s);
    if slotsNum != initSlots || s.pending {
      AnswerKeepsProgress(su.mode, su.devLimit, slotsNum, slept.list, o.0.list, before, s.cnt, 0);
    }
  }

  /** Between two slots, a resolution that stops with success and no
      collision pending stops as Finished describes. */
  lemma ProgressFinishes(mode: ComplianceMode, devLimit: uint8, slotsNum: uint8, toSlots: uint8,
                         now: seq<ListenDevice>, before: seq<ListenDevice>, cnt: nat, cur: nat)
    requires Progress(mode, devLimit, slotsNum, now, before, cnt, cur)
    requires toSlots == SLOT_NUM_1 ==> slotsNum == SLOT_NUM_1
    ensures Finished(mode, devLimit, slotsNum, toSlots, now, before, cnt, false, ST_ERR_NONE)
  {
  }

  /** A pass keeps the bookkeeping, leaving a collision pending, or ends the
      resolution as Finished describes. */
  lemma RoundProgress(su: Setup, before: seq<ListenDevice>, initSlots: uint8, slotsNum: uint8, cur: nat, ret: ReturnCode, s: EngineState)
    requires slotsNum <= SLOT_NUM_16 && Fits(su.devLimit, s, cur)
    requires Progress(su.mode, su.devLimit, slotsNum, s.list, before, s.cnt, cur)
    ensures var r := RoundStep(su, initSlots, slotsNum, cur, ret, s);
      (!r.done ==> Progress(su.mode, su.devLimit, slotsNum, r.e.list, before, r.e.cnt, r.cur))
      && (r.done ==> Finished(su.mode, su.devLimit, slotsNum, slotsNum, r.e.list, before, r.e.cnt, r.e.pending, r.ret))
  {
    NumberOfSlotsRange(slotsNum);
    OpenProgress(su, before, initSlots, slotsNum, cur, ret, s);
    var o := OpenStep(su, initSlots, slotsNum, cur, ret, s);
    SlotsProgress(su, before, slotsNum, 0, 0, o.1, o.0.(pending := false));
    var t := SlotsFrom(su, slotsNum, 0, 0, o.1, o.0.(pending := false));
    if !t.done && !t.e.pending {
      ProgressFinishes(su.mode, su.devLimit, slotsNum, slotsNum, t.e.list, before, t.e.cnt, t.cur);
    }
  }

  /** A resolution that stops as Finished describes for the rounds from
      fromSlots to midSlots does so for the rounds up to any later toSlots. */
  lemma FinishedWider(mode: ComplianceMode, devLimit: uint8, fromSlots: uint8, midSlots: uint8, toSlots: uint8,
                      now: seq<ListenDevice>, before: seq<ListenDevice>, cnt: nat, pending: bool, ret: ReturnCode)
    requires midSlots <= toSlots
    requires Finished(mode, devLimit, fromSlots, midSlots, now, before, cnt, pending, ret)
    ensures Finished(mode, devLimit, fromSlots, toSlots, now, before, cnt, pending, ret)
  {
  }

  /** A resolution that stops as Finished describes for the rounds from
      midSlots on does so for the rounds from any earlier fromSlots. */
  lemma FinishedEarlier(mode: ComplianceMode, devLimit: uint8, fromSlots: uint8, midSlots: uint8, toSlots: uint8,
                        now: seq<ListenDevice>, before: seq<ListenDevice>, cnt: nat, pending: bool, ret: ReturnCode)
    requires fromSlots <= midSlots
    requires Finished(mode, devLimit, midSlots, toSlots, now, before, cnt, pending, ret)
    ensures Finished(mode, devLimit, fromSlots, toSlots, now, before, cnt, pending, ret)
  {
  }

  /** The passes over one slot class keep the bookkeeping, with no device
      counted in the last pass, or end the resolution as Finished describes. */
  lemma {:induction false} ClassProgress(su: Setup, before: seq<ListenDevice>, initSlots: uint8, slotsNum: uint8,
                                         cur: nat, ret: ReturnCode, s: EngineState)
    requires slotsNum <= SLOT_NUM_16 && Fits(su.devLimit, s, cur)
    requires Progress(su.mode, su.devLimit, slotsNum, s.list, before, s.cnt, cur)
    ensures var c := ClassPasses(su, initSlots, slotsNum, cur, ret, s);
      (!c.done ==> Progress(su.mode, su.devLimit, slotsNum, c.e.list, before, c.e.cnt, 0))
      && (c.done ==> Finished(su.mode, su.devLimit, slotsNum, slotsNum, c.e.list, before, c.e.cnt, c.e.pending, c.ret))
    decreases Max(su.devLimit, 1) - s.cnt
  {
    RoundProgress(su, before, initSlots, slotsNum, cur, ret, s);
    var r := RoundStep(su, initSlots, slotsNum, cur, ret, s);
    if !r.done && r.cur != 0 {
      ClassProgress(su, before, initSlots, slotsNum, r.cur, r.ret, r.e);
    }
  }

  /** Between two slot classes the bookkeeping carries over to the next class. */
  lemma ProgressNextClass(mode: ComplianceMode, devLimit: uint8, slotsNum: uint8,
                          now: seq<ListenDevice>, before: seq<ListenDevice>, cnt: nat)
    requires slotsNum < SLOT_NUM_16 && Progress(mode, devLimit, slotsNum, now, before, cnt, 0)
    ensures Progress(mode, devLimit, slotsNum + 1, now, before, cnt, 0)
  {
  }

  /** The slot classes from slotsNum on end the resolution as Finished
      describes. */
  lemma {:induction false} PassesProgress(su: Setup, before: seq<ListenDevice>, initSlots: uint8, endSlots: uint8,
                                          slotsNum: uint8, ret: ReturnCode, s: EngineState)
    requires slotsNum <= endSlots <= SLOT_NUM_16 && Fits(su.devLimit, s, 0)
    requires Progress(su.mode, su.devLimit, slotsNum, s.list, before, s.cnt, 0)
    ensures var p := Passes(su, initSlots, endSlots, slotsNum, ret, s);
      Finished(su.mode, su.devLimit, slotsNum, endSlots, p.e.list, before, p.e.cnt, p.e.pending, p.ret)
    decreases endSlots - slotsNum, 1
  {
    var c := ClassPasses(su, initSlots, slotsNum, 0, ret, s);
    if !c.done && slotsNum < endSlots {
      var p := Passes(su, initSlots, endSlots, slotsNum + 1, c.ret, c.e);
      assert Passes(su, initSlots, endSlots, slotsNum, ret, s) == p;
      ClassProgress(su, before, initSlots, slotsNum, 0, ret, s);
      ProgressNextClass(su.mode, su.devLimit, slotsNum, c.e.list, before, c.e.cnt);
      PassesProgressNext(su, before, initSlots, endSlots, slotsNum, c.ret, c.e, p);
    } else {
      PassesProgressLast(su, before, initSlots, endSlots, slotsNum, ret, s);
    }
  }

  /** PassesProgress when the class ends the resolution or is the last one. */
  lemma PassesProgressLast(su: Setup, before: seq<ListenDevice>, initSlots: uint8, endSlots: uint8,
                           slotsNum: uint8, ret: ReturnCode, s: EngineState)
    requires slotsNum <= endSlots <= SLOT_NUM_16 && Fits(su.devLimit, s, 0)
    requires Progress(su.mode, su.devLimit, slotsNum, s.list, before, s.cnt, 0)
    requires ClassPasses(su, initSlots, slotsNum, 0, ret, s).done || slotsNum == endSlots
    ensures var p := Passes(su, initSlots, endSlots, slotsNum, ret, s);
      Finished(su.mode, su.devLimit, slotsNum, endSlots, p.e.list, before, p.e.cnt, p.e.pending, p.ret)
  {
    ClassProgress(su, before, initSlots, slotsNum, 0, ret, s);
    var c := ClassPasses(su, initSlots, slotsNum, 0, ret, s);
    if c.done {
      assert Passes(su, initSlots, endSlots, slotsNum, ret, s) == Outcome(c.ret, c.e);
      FinishedWider(su.mode, su.devLimit, slotsNum, slotsNum, endSlots, c.e.list, before, c.e.cnt, c.e.pending, c.ret);
    } else {
      assert Passes(su, initSlots, endSlots, slotsNum, ret, s) == Outcome(ST_ERR_NONE, c.e);
      ProgressFinishes(su.mode, su.devLimit, slotsNum, endSlots, c.e.list, before, c.e.cnt, 0);
    }
  }

  /** PassesProgress when the next class follows: e is the state this class
      leaves, with the progress of the next class. */
  lemma {:induction false} PassesProgressNext(su: Setup, before: seq<ListenDevice>, initSlots: uint8, endSlots: uint8,
                                              slotsNum: uint8, ret: ReturnCode, e: EngineState, p: Outcome)
    requires slotsNum < endSlots <= SLOT_NUM_16 && Fits(su.devLimit, e, 0)
    requires Progress(su.mode, su.devLimit, slotsNum + 1, e.list, before, e.cnt, 0)
    requires p == Passes(su, initSlots, endSlots, slotsNum + 1, ret, e)
    ensures Finished(su.mode, su.devLimit, slotsNum, endSlots, p.e.list, before, p.e.cnt, p.e.pending, p.ret)
    decreases endSlots - slotsNum, 0
  {
    PassesProgress(su, before, initSlots, endSlots, slotsNum + 1, ret, e);
    FinishedEarlier(su.mode, su.devLimit, slotsNum, slotsNum + 1, endSlots, p.e.list, before, p.e.cnt, p.e.pending, p.ret);
  }

  /** In ISO mode an answer already valid in entry 0, left there by
      technology detection, is counted as the only device, awake, with no
      exchange at all. */
  lemma IsoReuse(su: Setup, endSlots: uint8, list0: seq<ListenDevice>, sent0: seq<seq<byte>>)
    requires su.mode == ISO && endSlots <= SLOT_NUM_16 && |list0| >= Max(su.devLimit, 1)
    requires Identified(list0[0])
    ensures var r := Run(su, SLOT_NUM_1, endSlots, list0, sent0);
      r.ret == ST_ERR_NONE && r.e.cnt == 1 && r.e.list == list0[0 := list0[0].(isSleep := false)] && r.e.sent == sent0
  {
    var s0 := EngineState(list0, 0, false, sent0);
    NumberOfSlotsRange(SLOT_NUM_1);
    var c := CountStep(su, SLOT_NUM_1, 0, s0);
    assert SlotStep(su, SLOT_NUM_1, 0, 0, ST_ERR_NONE, s0) == c;
    assert SlotsFrom(su, SLOT_NUM_1, 0, 0, ST_ERR_NONE, s0) == c;
    assert OpenStep(su, SLOT_NUM_1, SLOT_NUM_1, 0, ST_ERR_NONE, s0) == (s0, ST_ERR_NONE);
    assert RoundStep(su, SLOT_NUM_1, SLOT_NUM_1, 0, ST_ERR_NONE, s0) == c;
  }

  /** A completed resolution meets Resolved, and a collision is left pending
      only with success. */
  lemma RunResolved(su: Setup, initSlots: uint8, endSlots: uint8, list0: seq<ListenDevice>, sent0: seq<seq<byte>>)
    requires ResolutionArgsOk(su.mode, initSlots, endSlots) && |list0| >= Max(su.devLimit, 1)
    ensures var r := Run(su, initSlots, endSlots, list0, sent0);
      Resolved(su.mode, su.devLimit, initSlots, endSlots, list0, r.e.list, r.e.cnt, r.ret,
               PresenceVerdict(su.replies(|sent0|)), |r.e.sent| - |sent0|)
      && (r.e.pending ==> r.ret == ST_ERR_NONE)
  {
    var o := Opening(su, initSlots, list0, sent0);
    assert Progress(su.mode, su.devLimit, initSlots, o.0.list, list0, 0, 0);
    if initSlots <= endSlots {
      PassesProgress(su, list0, initSlots, endSlots, initSlots, o.1, o.0);
    }
    if su.mode == ISO && Identified(list0[0]) {
      IsoReuse(su, endSlots, list0, sent0);
    }
  }
  /** What a count sends and marks asleep: in ISO mode a SLPB_REQ to the new
      device when the resolution goes on, in NFC mode a SLPB_REQ to the
      device counted before it in the same pass, nothing in EMV mode. */
  lemma CountFrames(su: Setup, slotsNum: uint8, cur: nat, s: EngineState)
    requires Fits(su.devLimit, s, cur)
    ensures var r := CountStep(su, slotsNum, cur, s);
      var prev := su.mode == NFC && cur != 0;
      var next := su.mode == ISO && !r.done;
      r.e.sent == s.sent + (if prev then [[CMD_SLPB_REQ] + s.list[s.cnt - 1].sensbRes.nfcid0] else [])
                          + (if next then [[CMD_SLPB_REQ] + s.list[s.cnt].sensbRes.nfcid0] else [])
      && r.e.list == (if prev then s.list[s.cnt - 1 := s.list[s.cnt - 1].(isSleep := true)] else s.list)
                     [s.cnt := s.list[s.cnt].(isSleep := next)]
  {
  }

  /** What one slot does, by the status of its exchange: a slot other than
      the first is opened by a SLOT_MARKER with its code; a timeout skips the
      slot; a valid answer with no error is counted with the answer it
      brought; anything else is a collision, which ends collision detection
      (device limit 0) in a single-slot pass and is otherwise left pending. */
  lemma SlotOutcomes(su: Setup, slotsNum: uint8, slotCode: uint8, cur: nat, ret: ReturnCode, s: EngineState)
    requires slotsNum <= SLOT_NUM_16 && slotCode < NumberOfSlots(slotsNum) && Fits(su.devLimit, s, cur)
    ensures NumberOfSlots(slotsNum) <= SLOTMARKER_SLOTCODE_MAX
    ensures var x := SlotExchange(su, slotCode, ret, s); var r := SlotStep(su, slotsNum, slotCode, cur, ret, s);
      var valid := x.1 == ST_ERR_NONE && Identified(x.0.list[s.cnt]);
      (slotCode == 0 ==> x == (s, ret))
      && (slotCode != 0 ==> |s.sent| < |r.e.sent| && r.e.sent[|s.sent|] == SlotMarkerFrame(slotCode)
                            && x.1 == SlotMarkerVerdict(su.replies(|s.sent|), s.list[s.cnt].sensbRes))
      && (x.1 == ST_ERR_TIMEOUT ==> !r.done && r.ret == ST_ERR_TIMEOUT && r.cur == cur && r.e == x.0)
      && (x.1 != ST_ERR_TIMEOUT && valid ==>
            r.ret == ST_ERR_NONE && r.cur == cur + 1 && r.e.cnt == s.cnt + 1 && r.e.pending == s.pending
            && r.e.list[s.cnt].sensbRes == x.0.list[s.cnt].sensbRes && !r.e.list[s.cnt].isSleep == (r.done || su.mode != ISO))
      && (x.1 != ST_ERR_TIMEOUT && !valid ==>
            r.cur == cur && r.e.list == x.0.list && r.e.sent == x.0.sent && r.e.cnt == s.cnt
            && (r.done <==> su.devLimit == 0 && slotsNum == SLOT_NUM_1)
            && (r.done ==> r.ret == ST_ERR_RF_COLLISION) && (!r.done ==> r.e.pending))
  {
    NumberOfSlotsRange(slotsNum);
    var x := SlotExchange(su, slotCode, ret, s);
    if slotCode != 0 {
      CountFrames(su, slotsNum, cur, x.0);
    }
  }

  /** A pass that walks all its slots ends the resolution with ST_ERR_NONE
      exactly when no collision is left pending; a slot that ends the
      resolution ends the pass with it. */
  lemma RoundOutcome(su: Setup, initSlots: uint8, slotsNum: uint8, cur: nat, ret: ReturnCode, s: EngineState)
    requires slotsNum <= SLOT_NUM_16 && Fits(su.devLimit, s, cur)
    ensures NumberOfSlots(slotsNum) >= 1
    ensures var o := OpenStep(su, initSlots, slotsNum, cur, ret, s);
      var t := SlotsFrom(su, slotsNum, 0, 0, o.1, o.0.(pending := false));
      var r := RoundStep(su, initSlots, slotsNum, cur, ret, s);
      r.e == t.e && r.cur == t.cur
      && (t.done ==> r == t)
      && (!t.done ==> (r.done <==> !t.e.pending) && (r.done ==> r.ret == ST_ERR_NONE))
  {
    NumberOfSlotsRange(slotsNum);
  }

  /** What the opening of a pass sends: in NFC mode a SLPB_REQ to the device
      counted last when the previous pass of the class found one, then a
      SENSB_REQ with the class's number of slots into the next free entry,
      except for the first pass of the first class when no collision is
      pending, which keeps the answer already there and the status. */
  lemma OpenFrames(su: Setup, initSlots: uint8, slotsNum: uint8, cur: nat, ret: ReturnCode, s: EngineState)
    requires slotsNum <= SLOT_NUM_16 && Fits(su.devLimit, s, cur)
    ensures var o := OpenStep(su, initSlots, slotsNum, cur, ret, s);
      var sleeps := su.mode == NFC && cur != 0;
      var asks := slotsNum != initSlots || s.pending;
      var k := |s.sent| + if sleeps then 1 else 0;
      o.0.sent == s.sent + (if sleeps then [[CMD_SLPB_REQ] + s.list[s.cnt - 1].sensbRes.nfcid0] else [])
                         + (if asks then [SensbReqFrame(su.afi, su.param, SENS_CMD_SENSB_REQ, slotsNum)] else [])
      && (sleeps ==> o.0.list[s.cnt - 1].isSleep)
      && (asks ==> o.1 == PresenceVerdict(su.replies(k)) && o.0.list[s.cnt].sensbResLen == PresenceLen(su.replies(k)))
      && (!asks ==> o.1 == ret && o.0.list[s.cnt] == s.list[s.cnt])
  {
  }

  /** A pass that counted a device and left a collision pending is followed by
      another pass of the same class; otherwise the class ends with that
      pass. */
  lemma ClassRepeats(su: Setup, initSlots: uint8, slotsNum: uint8, cur: nat, ret: ReturnCode, s: EngineState)
    requires slotsNum <= SLOT_NUM_16 && Fits(su.devLimit, s, cur)
    ensures var r := RoundStep(su, initSlots, slotsNum, cur, ret, s);
      var c := ClassPasses(su, initSlots, slotsNum, cur, ret, s);
      (r.done || r.cur == 0 ==> c == r)
      && (!r.done && r.cur != 0 ==> r.e.pending && c == ClassPasses(su, initSlots, slotsNum, r.cur, r.ret, r.e))
  {
  }

  /** A single-slot start outside ISO mode whose ALLB_REQ fails returns that
      failure at once: nothing counted, nothing sent after the ALLB_REQ. */
  lemma RunAllbFailure(su: Setup, endSlots: uint8, list0: seq<ListenDevice>, sent0: seq<seq<byte>>)
    requires su.mode != ISO && endSlots <= SLOT_NUM_16 && |list0| >= Max(su.devLimit, 1)
    requires PresenceVerdict(su.replies(|sent0|)) != ST_ERR_NONE
    ensures var r := Run(su, SLOT_NUM_1, endSlots, list0, sent0);
      r.ret == PresenceVerdict(su.replies(|sent0|)) && r.e.cnt == 0 && !r.e.pending
      && r.e.sent == sent0 + [SensbReqFrame(su.afi, su.param, SENS_CMD_ALLB_REQ, SLOT_NUM_1)]
  {
  }

  /** In EMV mode an empty answer to the opening ALLB_REQ is ST_ERR_FRAMING,
      unless a single-slot start has already returned the ALLB_REQ's failure. */
  lemma RunEmvFraming(su: Setup, initSlots: uint8, endSlots: uint8, list0: seq<ListenDevice>, sent0: seq<seq<byte>>)
    requires su.mode == EMV && ResolutionArgsOk(su.mode, initSlots, endSlots) && |list0| >= Max(su.devLimit, 1)
    requires PresenceLen(su.replies(|sent0|)) == 0
    requires initSlots != SLOT_NUM_1 || PresenceVerdict(su.replies(|sent0|)) == ST_ERR_NONE
    ensures var r := Run(su, initSlots, endSlots, list0, sent0);
      r.ret == ST_ERR_FRAMING && r.e.cnt == 0 && !r.e.pending
      && r.e.sent == sent0 + [SensbReqFrame(su.afi, su.param, SENS_CMD_ALLB_REQ, initSlots)]
  {
  }

  /** Collision detection only (device limit 0) from a single slot: when the
      opening leaves an answer that is not valid, and no earlier return
      applies, the resolution returns ST_ERR_RF_COLLISION with nothing
      counted and no frame sent after the opening. In ISO mode the answer
      judged is the one technology detection left in entry 0. */
  lemma RunDetectionCollision(su: Setup, endSlots: uint8, list0: seq<ListenDevice>, sent0: seq<seq<byte>>)
    requires su.devLimit == 0 && ResolutionArgsOk(su.mode, SLOT_NUM_1, endSlots) && |list0| >= 1
    requires var o := Opening(su, SLOT_NUM_1, list0, sent0);
      o.1 == ST_ERR_NONE && !Identified(o.0.list[0]) && (su.mode == EMV ==> o.0.list[0].sensbResLen != 0)
    ensures var o := Opening(su, SLOT_NUM_1, list0, sent0); var r := Run(su, SLOT_NUM_1, endSlots, list0, sent0);
      r.ret == ST_ERR_RF_COLLISION && r.e.cnt == 0 && r.e.list == o.0.list && r.e.sent == o.0.sent
  {
    var o := Opening(su, SLOT_NUM_1, list0, sent0);
    var s := o.0.(pending := false);
    NumberOfSlotsRange(SLOT_NUM_1);
    var t := Step(true, ST_ERR_RF_COLLISION, 0, s);
    assert SlotStep(su, SLOT_NUM_1, 0, 0, o.1, s) == t;
    assert SlotsFrom(su, SLOT_NUM_1, 0, 0, o.1, s) == t;
    assert OpenStep(su, SLOT_NUM_1, SLOT_NUM_1, 0, o.1, o.0) == o;
    assert RoundStep(su, SLOT_NUM_1, SLOT_NUM_1, 0, o.1, o.0) == t;
    assert ClassPasses(su, SLOT_NUM_1, SLOT_NUM_1, 0, o.1, o.0) == t;
  }

  /** The NFC-B poller of one RF front end: the AFI and PARAM of its SENSB_REQ
      (gRfalNfcb) and the RF link its exchanges go through. */
  class NfcbPoller {
    var afi: byte
    var param: byte
    const rf: RfLink

    constructor (link: RfLink)
      ensures rf == link && afi == 0 && param == 0
    {
      rf := link;
      afi := 0;
      param := 0;
    }

    /** rfalNfcbPollerInitialize: when the RF layer accepts the NFC-B poll mode
        (setModeStatus), the default AFI and PARAM are stored; otherwise its
        error is returned and nothing is stored. */
    method Initialize(setModeStatus: ReturnCode) returns (ret: ReturnCode)
      modifies this
      ensures ret == setModeStatus
      ensures ret == ST_ERR_NONE ==> afi == NFCB_AFI && param == NFCB_PARAM
      ensures ret != ST_ERR_NONE ==> afi == old(afi) && param == old(param)
    {
      if setModeStatus != ST_ERR_NONE {
        return setModeStatus;
      }
      afi := NFCB_AFI;
      param := NFCB_PARAM;
      return ST_ERR_NONE;
    }

    /** rfalNfcbPollerInitializeWithParams: the plain initialisation, then the
        caller's AFI and the advanced and extended bits of its PARAM. */
    method InitializeWithParams(setModeStatus: ReturnCode, newAfi: byte, newParam: byte) returns (ret: ReturnCode)
      modifies this
      ensures ret == setModeStatus
      ensures ret == ST_ERR_NONE ==> afi == newAfi && param == newParam & SENSB_REQ_PARAM
      ensures ret == ST_ERR_NONE ==> param & !SENSB_REQ_PARAM == 0
      ensures ret != ST_ERR_NONE ==> afi == old(afi) && param == old(param)
    {
      ret := Initialize(setModeStatus);
      if ret != ST_ERR_NONE {
        return;
      }
      afi := newAfi;
      param := newParam & SENSB_REQ_PARAM;
      return ST_ERR_NONE;
    }

    /** rfalNfcbPollerCheckPresence into entry `at` of `dst` (null standing for
        a null response or length output): bad arguments give ST_ERR_PARAM
        before anything is sent; otherwise one SENSB_REQ / ALLB_REQ goes out and
        the entry receives the answer, with the length cleared after a
        transmission error. */
    method CheckPresence(cmd: byte, slots: uint8, dst: array?<ListenDevice>, at: nat) returns (ret: ReturnCode)
      requires dst != null ==> at < dst.Length
      modifies dst, rf
      ensures !PresenceArgsOk(cmd, slots) || dst == null ==>
        ret == ST_ERR_PARAM && rf.sent == old(rf.sent) && (dst != null ==> dst[..] == old(dst[..]))
      ensures PresenceArgsOk(cmd, slots) && dst != null ==>
        var reply := rf.replies(|old(rf.sent)|);
        rf.sent == old(rf.sent) + [SensbReqFrame(afi, param, cmd, slots)]
        && dst[..] == old(dst[..])[at := old(dst[at]).(sensbRes := Received(reply, ZeroSensbRes), sensbResLen := PresenceLen(reply))]
        && ret == PresenceVerdict(reply)
    {
      if !PresenceArgsOk(cmd, slots) || dst == null {
        return ST_ERR_PARAM;
      }
      dst[at] := dst[at].(sensbRes := ZeroSensbRes, sensbResLen := 0);
      var frame := SensbReqFrame(afi, param, cmd, slots);
      var reply := rf.Transceive(frame);
      assert rf.sent == old(rf.sent) + [SensbReqFrame(afi, param, cmd, slots)];
      dst[at] := dst[at].(sensbRes := Received(reply, ZeroSensbRes), sensbResLen := RxLenOctet(reply.rxLen));
      assert dst[..] == old(dst[..])[at := dst[at]];
      if reply.status == ST_ERR_CRC || reply.status == ST_ERR_FRAMING {
        dst[at] := dst[at].(sensbResLen := 0);
        return ST_ERR_NONE;
      }
      if reply.status == ST_ERR_NONE {
        return CheckSensbRes(dst[at].sensbRes, dst[at].sensbResLen);
      }
      return reply.status;
    }

    /** rfalNfcbPollerSleep: a null identifier gives ST_ERR_PARAM and nothing is
        sent; otherwise SLPB_REQ with the PUPI goes out and the answer is judged. */
    method Sleep(nfcid0: Option<seq<byte>>) returns (ret: ReturnCode)
      modifies rf
      ensures nfcid0.None? ==> ret == ST_ERR_PARAM && rf.sent == old(rf.sent)
      ensures nfcid0.Some? ==>
        rf.sent == old(rf.sent) + [[CMD_SLPB_REQ] + nfcid0.value]
        && ret == SleepVerdict(rf.replies(|old(rf.sent)|))
    {
      if nfcid0.None? {
        return ST_ERR_PARAM;
      }
      var reply := rf.Transceive([CMD_SLPB_REQ] + nfcid0.value);
      if reply.status != ST_ERR_NONE {
        return reply.status;
      }
      if reply.rxLen != SLPB_RES_LEN || reply.rx.None? || reply.rx.value.cmd != CMD_SLPB_RES {
        return ST_ERR_PROTO;
      }
      return ST_ERR_NONE;
    }

    /** rfalNfcbPollerSlotMarker into entry `at` of `dst`: a slot code outside
        1 .. 16 or a null output gives ST_ERR_PARAM before anything is sent;
        otherwise the SLOT_MARKER goes out and the entry receives the answer. */
    method SlotMarker(slotCode: uint8, dst: array?<ListenDevice>, at: nat) returns (ret: ReturnCode)
      requires dst != null ==> at < dst.Length
      modifies dst, rf
      ensures dst == null || slotCode < SLOTMARKER_SLOTCODE_MIN || slotCode > SLOTMARKER_SLOTCODE_MAX ==>
        ret == ST_ERR_PARAM && rf.sent == old(rf.sent) && (dst != null ==> dst[..] == old(dst[..]))
      ensures dst != null && SLOTMARKER_SLOTCODE_MIN <= slotCode <= SLOTMARKER_SLOTCODE_MAX ==>
        var reply := rf.replies(|old(rf.sent)|);
        rf.sent == old(rf.sent) + [SlotMarkerFrame(slotCode)]
        && dst[..] == old(dst[..])[at := old(dst[at]).(sensbRes := Received(reply, old(dst[at].sensbRes)), sensbResLen := RxLenOctet(reply.rxLen))]
        && ret == SlotMarkerVerdict(reply, old(dst[at].sensbRes))
    {
      if dst == null || slotCode < SLOTMARKER_SLOTCODE_MIN || slotCode > SLOTMARKER_SLOTCODE_MAX {
        return ST_ERR_PARAM;
      }
      var reply := rf.Transceive(SlotMarkerFrame(slotCode));
      dst[at] := dst[at].(sensbRes := Received(reply, dst[at].sensbRes), sensbResLen := RxLenOctet(reply.rxLen));
      if reply.status == ST_ERR_CRC || reply.status == ST_ERR_FRAMING {
        return ST_ERR_RF_COLLISION;
      }
      if reply.status == ST_ERR_NONE {
        return CheckSensbRes(dst[at].sensbRes, dst[at].sensbResLen);
      }
      return reply.status;
    }

    /** rfalNfcbPollerTechnologyDetection: a SENSB_REQ with a single slot, the
        same in every compliance mode. */
    method TechnologyDetection(mode: ComplianceMode, dst: array?<ListenDevice>, at: nat) returns (ret: ReturnCode)
      requires dst != null ==> at < dst.Length
      modifies dst, rf
      ensures dst == null ==> ret == ST_ERR_PARAM && rf.sent == old(rf.sent)
      ensures dst != null ==>
        var reply := rf.replies(|old(rf.sent)|);
        rf.sent == old(rf.sent) + [SensbReqFrame(afi, param, SENS_CMD_SENSB_REQ, SLOT_NUM_1)]
        && dst[..] == old(dst[..])[at := old(dst[at]).(sensbRes := Received(reply, ZeroSensbRes), sensbResLen := PresenceLen(reply))]
        && ret == PresenceVerdict(reply)
    {
      ret := CheckPresence(SENS_CMD_SENSB_REQ, SLOT_NUM_1, dst, at);
    }


    /** The collision resolution's state as the engine sees it: the device
        list, *devCnt, *colPending and the frames sent so far. */
    ghost function State(list: array<ListenDevice>, devCnt: Ref<uint8>, colPending: Ref<bool>): EngineState
      reads list, devCnt, colPending, rf
    {
      EngineState(list[..], devCnt.val, colPending.val, rf.sent)
    }

    /** What stays fixed during a collision resolution. */
    ghost function Su(mode: ComplianceMode, devLimit: uint8): Setup
      reads this
    {
      Setup(mode, devLimit, afi, param, rf.replies)
    }

    /** rfalNfcbPollerSlottedCollisionResolution (Activity 1.1, section 9.3.5):
        a null output or bad slot range gives ST_ERR_PARAM before anything is
        sent; otherwise the resolution does exactly what Run describes. */
    method SlottedCollisionResolution(mode: ComplianceMode, devLimit: uint8, initSlots: uint8, endSlots: uint8,
                                      list: array?<ListenDevice>, devCnt: Ref?<uint8>, colPending: Ref?<bool>)
      returns (ret: ReturnCode)
      requires list != null ==> list.Length >= Max(devLimit, 1)
      modifies list, devCnt, colPending, rf
      ensures list == null || devCnt == null || colPending == null || !ResolutionArgsOk(mode, initSlots, endSlots) ==>
        ret == ST_ERR_PARAM && rf.sent == old(rf.sent)
        && (list != null ==> list[..] == old(list[..]))
        && (devCnt != null ==> devCnt.val == old(devCnt.val))
        && (colPending != null ==> colPending.val == old(colPending.val))
      ensures list != null && devCnt != null && colPending != null && ResolutionArgsOk(mode, initSlots, endSlots) ==>
        Outcome(ret, State(list, devCnt, colPending)) == Run(Su(mode, devLimit), initSlots, endSlots, old(list[..]), old(rf.sent))
    {
      if list == null || devCnt == null || colPending == null || !ResolutionArgsOk(mode, initSlots, endSlots) {
        return ST_ERR_PARAM;
      }
      ghost var su := Su(mode, devLimit);
      ghost var goal := Run(su, initSlots, endSlots, list[..], rf.sent);

      ret := ST_ERR_NONE;
      devCnt.val := 0;
      var curDevCnt: uint8 := 0;
      colPending.val := false;

      if mode != ISO {
        ret := CheckPresence(SENS_CMD_ALLB_REQ, initSlots, list, 0);
        if ret != ST_ERR_NONE && initSlots == SLOT_NUM_1 {
          return ret;
        }
      }

      if mode == EMV && list[0].sensbResLen == 0 {
        return ST_ERR_FRAMING;
      }

      ret := ResolveClasses(mode, devLimit, initSlots, endSlots, list, devCnt, colPending, ret);
    }

    /** The for loop of rfalNfcbPollerSlottedCollisionResolution over the slot
        classes from initSlots to endSlots, as Passes describes; once every
        class is done the resolution succeeds. */
    method ResolveClasses(mode: ComplianceMode, devLimit: uint8, initSlots: uint8, endSlots: uint8,
                          list: array<ListenDevice>, devCnt: Ref<uint8>, colPending: Ref<bool>, retIn: ReturnCode)
      returns (ret: ReturnCode)
      requires endSlots <= SLOT_NUM_16 && Fits(devLimit, State(list, devCnt, colPending), 0)
      modifies list, devCnt, colPending, rf
      ensures Outcome(ret, State(list, devCnt, colPending))
              == if initSlots <= endSlots then Passes(Su(mode, devLimit), initSlots, endSlots, initSlots, retIn, old(State(list, devCnt, colPending)))
                 else Outcome(ST_ERR_NONE, old(State(list, devCnt, colPending)))
    {
      ghost var su := Su(mode, devLimit);
      ghost var goal := if initSlots <= endSlots then Passes(su, initSlots, endSlots, initSlots, retIn, State(list, devCnt, colPending))
                        else Outcome(ST_ERR_NONE, State(list, devCnt, colPending));
      ret := retIn;
      var slotsNum := initSlots;
      while slotsNum <= endSlots
        invariant Su(mode, devLimit) == su
        invariant slotsNum <= endSlots ==>
          Fits(devLimit, State(list, devCnt, colPending), 0)
          && Passes(su, initSlots, endSlots, slotsNum, ret, State(list, devCnt, colPending)) == goal
        invariant slotsNum > endSlots ==> goal == Outcome(ST_ERR_NONE, State(list, devCnt, colPending))
        decreases endSlots as int + 1 - slotsNum as int
      {
        var done;
        done, ret := ResolveClass(mode, devLimit, initSlots, endSlots, slotsNum, list, devCnt, colPending, ret);
        if done {
          return;
        }
        slotsNum := slotsNum + 1;
      }
      return ST_ERR_NONE;
    }

    /** The passes over one slot class, as ClassPasses describes: a pass that
        leaves a collision pending is repeated while it counts devices. */
    method ResolveClass(mode: ComplianceMode, devLimit: uint8, initSlots: uint8, endSlots: uint8, slotsNum: uint8,
                        list: array<ListenDevice>, devCnt: Ref<uint8>, colPending: Ref<bool>, retIn: ReturnCode)
      returns (done: bool, ret: ReturnCode)
      requires slotsNum <= endSlots <= SLOT_NUM_16 && Fits(devLimit, State(list, devCnt, colPending), 0)
      modifies list, devCnt, colPending, rf
      ensures !done ==> Fits(devLimit, State(list, devCnt, colPending), 0)
      ensures Passes(Su(mode, devLimit), initSlots, endSlots, slotsNum, retIn, old(State(list, devCnt, colPending)))
              == if done then Outcome(ret, State(list, devCnt, colPending))
                 else if slotsNum < endSlots then Passes(Su(mode, devLimit), initSlots, endSlots, slotsNum + 1, ret, State(list, devCnt, colPending))
                 else Outcome(ST_ERR_NONE, State(list, devCnt, colPending))
    {
      ghost var s0 := State(list, devCnt, colPending);
      ghost var goal := ClassPasses(Su(mode, devLimit), initSlots, slotsNum, 0, retIn, s0);
      var curDevCnt: uint8 := 0;
      ret := retIn;
      while true
        invariant Fits(devLimit, State(list, devCnt, colPending), curDevCnt)
        invariant ClassPasses(Su(mode, devLimit), initSlots, slotsNum, curDevCnt, ret, State(list, devCnt, colPending)) == goal
        decreases Max(devLimit, 1) - devCnt.val
      {
        done, ret, curDevCnt := Round(mode, devLimit, initSlots, slotsNum, list, devCnt, colPending, curDevCnt, ret);
        if done || curDevCnt == 0 {
          break;
        }
      }
      PassesUnfold(Su(mode, devLimit), initSlots, endSlots, slotsNum, retIn, s0);
    }

    /** One pass over a slot class, as RoundStep describes: the opening, then
        every slot; success when no collision is left pending. */
    method Round(mode: ComplianceMode, devLimit: uint8, initSlots: uint8, slotsNum: uint8,
                 list: array<ListenDevice>, devCnt: Ref<uint8>, colPending: Ref<bool>,
                 curIn: uint8, retIn: ReturnCode)
      returns (done: bool, ret: ReturnCode, cur: uint8)
      requires slotsNum <= SLOT_NUM_16 && Fits(devLimit, State(list, devCnt, colPending), curIn)
      modifies list, devCnt, colPending, rf
      ensures Step(done, ret, cur, State(list, devCnt, colPending))
              == RoundStep(Su(mode, devLimit), initSlots, slotsNum, curIn, retIn, old(State(list, devCnt, colPending)))
    {
      ret := OpenRound(mode, devLimit, initSlots, slotsNum, list, devCnt, colPending, curIn, retIn);
      colPending.val := false;
      done, ret, cur := ResolveSlots(mode, devLimit, slotsNum, list, devCnt, colPending, ret);
      if done {
        return;
      }
      if !colPending.val {
        return true, ST_ERR_NONE, cur;
      }
    }

    /** The for loop of one pass over the slots of a slot class, as SlotsFrom
        describes from slot 0 with no device counted in the pass yet. */
    method ResolveSlots(mode: ComplianceMode, devLimit: uint8, slotsNum: uint8,
                        list: array<ListenDevice>, devCnt: Ref<uint8>, colPending: Ref<bool>, retIn: ReturnCode)
      returns (done: bool, ret: ReturnCode, cur: uint8)
      requires slotsNum <= SLOT_NUM_16 && Fits(devLimit, State(list, devCnt, colPending), 0)
      modifies list, devCnt, colPending, rf
      ensures Step(done, ret, cur, State(list, devCnt, colPending))
              == SlotsFrom(Su(mode, devLimit), slotsNum, 0, 0, retIn, old(State(list, devCnt, colPending)))
    {
      NumberOfSlotsRange(slotsNum);
      ghost var goal := SlotsFrom(Su(mode, devLimit), slotsNum, 0, 0, retIn, State(list, devCnt, colPending));
      var slotCode: uint8 := 0;
      cur := 0;
      ret := retIn;
      while true
        invariant slotCode < NumberOfSlots(slotsNum)
        invariant Fits(devLimit, State(list, devCnt, colPending), cur)
        invariant SlotsFrom(Su(mode, devLimit), slotsNum, slotCode, cur, ret, State(list, devCnt, colPending)) == goal
        decreases NumberOfSlots(slotsNum) - slotCode
      {
        done, ret, cur := ResolveSlot(mode, devLimit, slotsNum, slotCode, list, devCnt, colPending, cur, ret);
        if done {
          return;
        }
        slotCode := slotCode + 1;
        if slotCode >= NumberOfSlots(slotsNum) {
          return;
        }
      }
    }

    /** Sends SLPB_REQ to the device in entry i and marks it asleep whatever
        the answer, as the collision resolution does (its status is ignored). */
    method SleepDevice(list: array<ListenDevice>, i: nat)
      requires i < list.Length
      modifies list, rf
      ensures list[..] == old(list[..])[i := old(list[i]).(isSleep := true)]
      ensures rf.sent == old(rf.sent) + [[CMD_SLPB_REQ] + old(list[i]).sensbRes.nfcid0]
    {
      var slept := Sleep(Some(list[i].sensbRes.nfcid0));
      list[i] := list[i].(isSleep := true);
    }

    /** The opening of a pass, as OpenStep describes. */
    method OpenRound(mode: ComplianceMode, devLimit: uint8, initSlots: uint8, slotsNum: uint8,
                     list: array<ListenDevice>, devCnt: Ref<uint8>, colPending: Ref<bool>,
                     curIn: uint8, retIn: ReturnCode)
      returns (ret: ReturnCode)
      requires slotsNum <= SLOT_NUM_16 && Fits(devLimit, State(list, devCnt, colPending), curIn)
      modifies list, rf
      ensures (State(list, devCnt, colPending), ret)
              == OpenStep(Su(mode, devLimit), initSlots, slotsNum, curIn, retIn, old(State(list, devCnt, colPending)))
    {
      if mode == NFC && curIn != 0 {
        SleepDevice(list, devCnt.val - 1);
      }

      ret := retIn;
      if slotsNum != initSlots || colPending.val {
        ret := CheckPresence(SENS_CMD_SENSB_REQ, slotsNum, list, devCnt.val);
      }
    }

    /** One slot of a pass, as SlotStep describes: a slot other than the first
        is opened by a SLOT_MARKER; unless it timed out, a valid answer is
        counted and an invalid one is a collision. */
    method ResolveSlot(mode: ComplianceMode, devLimit: uint8, slotsNum: uint8, slotCode: uint8,
                       list: array<ListenDevice>, devCnt: Ref<uint8>, colPending: Ref<bool>,
                       curIn: uint8, retIn: ReturnCode)
      returns (done: bool, ret: ReturnCode, cur: uint8)
      requires slotsNum <= SLOT_NUM_16 && slotCode < NumberOfSlots(slotsNum)
      requires Fits(devLimit, State(list, devCnt, colPending), curIn)
      modifies list, devCnt, colPending, rf
      ensures Step(done, ret, cur, State(list, devCnt, colPending))
              == SlotStep(Su(mode, devLimit), slotsNum, slotCode, curIn, retIn, old(State(list, devCnt, colPending)))
    {
      NumberOfSlotsRange(slotsNum);
      done := false;
      ret := retIn;
      cur := curIn;

      if slotCode != 0 {
        ret := SlotMarker(slotCode, list, devCnt.val);
      }

      if ret != ST_ERR_TIMEOUT {
        if CheckSensbRes(list[devCnt.val].sensbRes, list[devCnt.val].sensbResLen) == ST_ERR_NONE && ret == ST_ERR_NONE {
          done, cur := CountDevice(mode, devLimit, slotsNum, list, devCnt, colPending, cur);
        } else {
          if devLimit == 0 && slotsNum == SLOT_NUM_1 {
            return true, ST_ERR_RF_COLLISION, cur;
          }
          colPending.val := true;
        }
      }
    }

    /** A valid answer in the next free entry, as CountStep describes: the
        entry is marked awake and counted; EMV mode stops at once, ISO mode
        stops at the device limit or in a single-slot pass and otherwise puts
        the new device to sleep, NFC mode puts the previous device of the pass
        to sleep and stops under the same conditions. */
    method CountDevice(mode: ComplianceMode, devLimit: uint8, slotsNum: uint8,
                       list: array<ListenDevice>, devCnt: Ref<uint8>, colPending: Ref<bool>, curIn: uint8)
      returns (done: bool, cur: uint8)
      requires Fits(devLimit, State(list, devCnt, colPending), curIn)
      modifies list, devCnt, rf
      ensures Step(done, ST_ERR_NONE, cur, State(list, devCnt, colPending))
              == CountStep(Su(mode, devLimit), slotsNum, curIn, old(State(list, devCnt, colPending)))
    {
      list[devCnt.val] := list[devCnt.val].(isSleep := false);
      cur := curIn + 1;
      if mode == EMV {
        devCnt.val := devCnt.val + 1;
        return true, cur;
      } else if mode == ISO {
        devCnt.val := devCnt.val + 1;
        if devCnt.val >= devLimit || slotsNum == SLOT_NUM_1 {
          return true, cur;
        }
        SleepDevice(list, devCnt.val - 1);
        done := false;
      } else {
        if curIn != 0 {
          SleepDevice(list, devCnt.val - 1);
        }
        devCnt.val := devCnt.val + 1;
        done := devCnt.val >= devLimit || slotsNum == SLOT_NUM_1;
      }
    }

    /** rfalNfcbPollerCollisionResolution: the slotted resolution over the whole
        range of passes, from one slot to sixteen, with the pending-collision
        flag discarded. */
    method CollisionResolution(mode: ComplianceMode, devLimit: uint8, list: array?<ListenDevice>, devCnt: Ref?<uint8>)
      returns (ret: ReturnCode)
      requires list != null ==> list.Length >= Max(devLimit, 1)
      modifies list, devCnt, rf
      ensures list == null || devCnt == null ==>
        ret == ST_ERR_PARAM && rf.sent == old(rf.sent)
        && (list != null ==> list[..] == old(list[..]))
        && (devCnt != null ==> devCnt.val == old(devCnt.val))
      ensures list != null && devCnt != null ==>
        var r := Run(Su(mode, devLimit), SLOT_NUM_1, SLOT_NUM_16, old(list[..]), old(rf.sent));
        ret == r.ret && list[..] == r.e.list && devCnt.val == r.e.cnt && rf.sent == r.e.sent
    {
      var colPending := new Ref(false);
      ret := SlottedCollisionResolution(mode, devLimit, SLOT_NUM_1, SLOT_NUM_16, list, devCnt, colPending);
    }
  }
}
