# NFC-B poller and NDEF type resolution, modelled in Dafny

This project models four parts of an NFC reader library (ST's RFAL and NDEF
stack for Arduino):

- **`Nfcb`** (`nfcb.dfy`) models the NFC-B poller of `src/rfal_nfcb.cpp`. It covers:
  - the SENSB_RES validator;
  - the SENSB_REQ / ALLB_REQ, SLOT_MARKER and SLPB_REQ exchanges;
  - the poller initialisation;
  - technology detection;
  - the slotted collision resolution of NFC Forum Activity 1.1 (section 9.3.5) in its three compliance modes (ISO, NFC Forum, EMVCo);
  - the TR2 lookup.

  The poller is a class. Its `afi`/`param` fields play the part of the global `gRfalNfcb`. Its device list is an `array`, and `devCnt` / `colPending` are caller-owned `Ref` cells. The RF front end is an `RfLink` object. It answers exchange number k with the k-th reply of a fixed script and logs every frame it was asked to send, so contracts can speak about exactly what went on air.
- **`NdefTypes`** (`ndef_types.dfy`) models `src/ndef_types.cpp`. It covers:
  - the first-match table search from (TNF, type string) to a type id;
  - the TNF dispatch of a record;
  - attaching a type to a record and reading it back, with the short-record bit;
  - `ndefRecordToType` up to the call of the per-type converter.
- **`NfcUtils`** (`nfc_utils.dfy`) models the helper macros of `src/nfc_utils.h`: MIN/MAX, bit masks, big-endian reads, and the in-place byte reversal as a method over an `array`.
- **`StErrno`** (`st_errno.dfy`) models the error codes of `src/st_errno.h`:
  - the codes and their names;
  - the group tags;
  - `ST_ERR_INSERT_*_GRP` / `ST_ERR_NO_MASK`, with C's `|` written out bit by bit;
  - `EXIT_ON_ERR`.

Some constants come from headers that are not part of this model (`rfal_nfcb.h`, `ndef_class.h` and the headers it pulls in, and the type-string buffers). Those whose value the code never depends on are declared without a value, and their types carry only what the code relies on:
- a SENSB_RES length (`SENSB_RES_LEN`) is never zero;
- the TR2 mask selects one of four table entries;
- a well-known type name is never empty;
- `SENSB_REQ_ADV_FEATURE`, the default AFI and PARAM, and the two SENS command flags are any octet.

The others are given a value. These values are assumptions of the model, taken from the standards the library implements:
- `SENSB_RES_EXT_LEN` is `SENSB_RES_LEN + 1`: the extended SENSB_RES adds the SFGI octet (NFC Forum Digital 1.1).
- The number-of-slots identifiers `RFAL_NFCB_SLOT_NUM_1 .. _16` are the exponents 0 .. 4. The source relies on this: `rfalNfcbNI2NumberOfSlots(ni)` is `1 << ni`, and the collision resolution steps through the identifiers with `++`.
- The TNF values `TNF_EMPTY .. TNF_RESERVED` are 0 .. 7, as in section 3.2.6 of the NFC Forum NDEF technical specification.
- The type ids `NDEF_TYPE_EMPTY .. NDEF_TYPE_MEDIA_WIFI` are 0 .. 6, the positions of their rows in the type table, and their count is 7. `NdefTypes.TableIdsArePositions` depends on this.
- `NDEF_SHORT_RECORD_LENGTH_MAX` is 255, the largest value of the one-octet payload length of a short record.

The command octets (`RFAL_NFCB_CMD_*`), the SLOT_MARKER code range and the masks of `src/rfal_nfcb.cpp` are the values written there.

Two behaviours of the code are worth stating, because a reader could expect otherwise:
- **Technology detection with no device present.** The presence check passes the RF layer's status through (src/rfal_nfcb.cpp:183-198). A silent field, which the RF layer reports as `ST_ERR_TIMEOUT`, therefore gives `ST_ERR_TIMEOUT`, not an empty success (`Nfcb.PresenceVerdict`).
- **Collision detection only (`devLimit == 0`).** The opening ALLB_REQ writes its answer into entry 0 (src/rfal_nfcb.cpp:301) before `ST_ERR_RF_COLLISION` is returned (:380-381). So the list is changed even though no device is counted (`Nfcb.RunDetectionCollision`).

## Model

| member | source | states |
|---|---|---|
| NfcUtils.Max | src/nfc_utils.h:61 | MAX returns one of its operands and is no smaller than either |
| NfcUtils.Min | src/nfc_utils.h:64 | MIN returns one of its operands and is no larger than either |
| NfcUtils.BitMask | src/nfc_utils.h:66-69 | BITMASK_n is 2^n − 1 for n = 1..4 |
| NfcUtils.U16ToU8 | src/nfc_utils.h:70 | U16TOU8 keeps the value modulo 256 |
| NfcUtils.GetU16 | src/nfc_utils.h:71 | GETU16 is a[0]·256 + a[1] (so below 2^16), and both octets can be read back from it |
| NfcUtils.GetU32 | src/nfc_utils.h:72 | GETU32 is the big-endian value of a[0..3] in 32 bits; the first and last octets can be read back |
| NfcUtils.ReverseBytes | src/nfc_utils.h:74-76 | after the two converging cursors, the first n octets are the reversal of the old ones and every octet from n on is unchanged |
| NfcUtils.ReversedAt | src/nfc_utils.h:74-76 | position i of the reversal holds old position n − 1 − i |
| NfcUtils.ReversedTwice | src/nfc_utils.h:74-76 | reversing twice restores the buffer |
| NfcUtils.ReversedShort | src/nfc_utils.h:74-76 | a buffer of at most one octet is left as it is |
| StErrno.Code | src/st_errno.h:60-107 | every named error code fits one octet |
| StErrno.NameOfCode | src/st_errno.h:60-107 | decoding the number of a named code gives back that name |
| StErrno.CodesDistinct | src/st_errno.h:60-107 | no two names share a number |
| StErrno.IncompleteByteCode | src/st_errno.h:99-107 | ST_ERR_INCOMPLETE_BYTE_0n is ST_ERR_INCOMPLETE_BYTE + n for n = 1..7 |
| StErrno.GroupCode | src/st_errno.h:113-123 | every group tag is a multiple of 0x100 |
| StErrno.GroupCodesDistinct | src/st_errno.h:113-123 | no two groups share a tag |
| StErrno.BitOrDisjoint | src/st_errno.h:126-136 | OR-ing a value below 2^n into a multiple of 2^n is addition |
| StErrno.GroupOrIsSum | src/st_errno.h:126-136 | a group tag OR a one-octet number is their sum |
| StErrno.InsertGroup | src/st_errno.h:126-136 | for x ≤ 0xFF, ST_ERR_NO_MASK of the tagged code gives x back and the group tag is what remains |
| StErrno.NoMask | src/st_errno.h:145 | ST_ERR_NO_MASK yields at most 0xFF and leaves one-octet values alone |
| StErrno.NoMaskIdempotent | src/st_errno.h:145 | masking twice is masking once |
| StErrno.ExitOnErr | src/st_errno.h:150-155 | the status of f is returned exactly when it is an error, and the rest runs only after success |
| Nfcb.NumberOfSlots | src/rfal_nfcb.cpp:78 | (uint8_t)(1 << ni) is 2^ni below 8 and 0 once shifted out of the octet |
| Nfcb.NumberOfSlotsRange | src/rfal_nfcb.cpp:78 | the identifiers NUM_1..NUM_16 give 1 to 16 slots |
| Nfcb.CheckSensbRes | src/rfal_nfcb.cpp:108-120 | ST_ERR_NONE exactly when the length is one of the two SENSB_RES lengths, the RFU bit is clear and the command is SENSB_RES; ST_ERR_PROTO otherwise |
| Nfcb.CheckSensbResAcceptsListeners | src/rfal_nfcb.cpp:108-120 | the validator accepts exactly the frames and lengths a conforming listener sends |
| Nfcb.CheckSensbResLengthFirst | src/rfal_nfcb.cpp:110-112 | a wrong length, the empty one included, is a protocol error whatever the content |
| Nfcb.NfcbPoller.Initialize | src/rfal_nfcb.cpp:129-144 | on success the default AFI and PARAM are stored; a set-mode error is returned with nothing stored |
| Nfcb.NfcbPoller.InitializeWithParams | src/rfal_nfcb.cpp:147-157 | on success the caller's AFI and only the advanced/extended bits of its PARAM are stored |
| Nfcb.SensbReqFrame | src/rfal_nfcb.cpp:178-180 | SENSB_REQ is three octets: command 0x05, the AFI, then PARAM |
| Nfcb.SensbReqParamBits | src/rfal_nfcb.cpp:180 | the PARAM octet carries the command flag and slot identifier, and no bit of the stored PARAM outside the advanced/extended mask |
| Nfcb.PresenceVerdict | src/rfal_nfcb.cpp:187-198 | CRC/framing errors become success, a clean reception gets the validator's own verdict (ST_ERR_NONE or ST_ERR_PROTO), any other status (timeout included) is passed on |
| Nfcb.PresenceLen | src/rfal_nfcb.cpp:185-191 | the reported length is cleared after a CRC or framing error and is the received length otherwise |
| Nfcb.PresenceErrorLeavesNoDevice | src/rfal_nfcb.cpp:188-191 | after a transmission error the entry is never taken for a valid device and no error is reported |
| Nfcb.NfcbPoller.CheckPresence | src/rfal_nfcb.cpp:161-199 | bad command, slot class or output gives ST_ERR_PARAM with nothing sent or written; otherwise exactly the SENSB_REQ frame is sent, only the target entry changes, and the status is the presence verdict |
| Nfcb.SleepVerdict | src/rfal_nfcb.cpp:218-224 | success exactly for a clean one-octet SLPB_RES; a transceive error is passed on; anything else is ST_ERR_PROTO |
| Nfcb.NfcbPoller.Sleep | src/rfal_nfcb.cpp:203-225 | a null PUPI gives ST_ERR_PARAM with nothing sent; otherwise exactly one SLPB_REQ carrying the PUPI is sent and the answer is judged |
| Nfcb.SlotMarkerFrame | src/rfal_nfcb.cpp:242 | APn is one octet whose low nibble is the SENSB_REQ command |
| Nfcb.SlotMarkerFrameDistinct | src/rfal_nfcb.cpp:242 | for slot codes 1..15 the high nibble is the slot code, distinct codes give distinct frames, and none is the SENSB_REQ octet |
| Nfcb.SlotCodeSixteenWraps | src/rfal_nfcb.cpp:236-242 | the parameter check admits slot code 16, whose APn wraps to the bare SENSB_REQ octet |
| Nfcb.SlotMarkerVerdict | src/rfal_nfcb.cpp:248-257 | CRC/framing errors are reported as a collision, a clean reception gets the validator's own verdict (ST_ERR_NONE or ST_ERR_PROTO), other statuses are passed on |
| Nfcb.NfcbPoller.SlotMarker | src/rfal_nfcb.cpp:229-258 | a slot code outside 1..16 or a null output gives ST_ERR_PARAM with nothing sent; otherwise exactly the SLOT_MARKER is sent, only the target entry changes, and the status is the slot-marker verdict |
| Nfcb.NfcbPoller.TechnologyDetection | src/rfal_nfcb.cpp:261-266 | a single-slot SENSB_REQ presence check, the same in every mode |
| Nfcb.SensbReqStep | src/rfal_nfcb.cpp:322-325 | the presence check inside the resolution: exactly the SENSB_REQ / ALLB_REQ frame is appended, only the target entry changes (its sleep flag kept), and the entry's length and the status are those of the presence check for the next reply |
| Nfcb.SlotMarkerStep | src/rfal_nfcb.cpp:334-336 | a SLOT_MARKER into the next free entry: exactly its frame is appended, only that entry changes, and the status is the slot-marker verdict |
| Nfcb.SleepStep | src/rfal_nfcb.cpp:316-318 | one SLPB_REQ to the entry's PUPI is appended and that entry is marked asleep, with the count and pending flag kept |
| Nfcb.CountStep | src/rfal_nfcb.cpp:341-377 | a valid answer is counted: the count and the pass's count grow by one, the entry keeps its answer, the status is ST_ERR_NONE; the resolution stops exactly in EMV mode, at the device limit or in a single-slot pass; the new entry is awake unless ISO mode goes on |
| Nfcb.CountFrames | src/rfal_nfcb.cpp:344-374 | the frames a count sends and the sleep flags it sets: a SLPB_REQ to the previous device of the pass in NFC mode, a SLPB_REQ to the new device when ISO mode goes on, none in EMV mode |
| Nfcb.SlotExchange | src/rfal_nfcb.cpp:333-336 | slot 0 is judged by the answer and status the opening left; a later slot changes only the next free entry |
| Nfcb.SlotStep | src/rfal_nfcb.cpp:332-391 | one slot keeps the next free entry within the list, and ends the resolution only with ST_ERR_NONE or ST_ERR_RF_COLLISION |
| Nfcb.SlotOutcomes | src/rfal_nfcb.cpp:332-391 | a round has at most 16 slots; a later slot sends its SLOT_MARKER first; a timeout is skipped with nothing counted; a valid answer with no error is counted with the answer it brought; anything else is a collision, which ends the resolution with ST_ERR_RF_COLLISION exactly in collision detection only at one slot, and is otherwise left pending |
| Nfcb.SlotsFrom | src/rfal_nfcb.cpp:332-391 | the slots of a pass from a given one to the last, or up to one that ends the resolution; an unfinished pass has counted exactly its own devices |
| Nfcb.OpenStep | src/rfal_nfcb.cpp:315-325 | the opening of a pass keeps the count and the pending flag and leaves the next free entry in the list |
| Nfcb.OpenFrames | src/rfal_nfcb.cpp:315-325 | the frames the opening sends: in NFC mode a SLPB_REQ to the device counted last when the previous pass found one (marked asleep), then the SENSB_REQ with the class's slots into the next free entry, except for the first pass of the first class with no collision pending, which keeps the status and the entry |
| Nfcb.RoundStep | src/rfal_nfcb.cpp:314-399 | a pass that does not end the resolution leaves a collision pending and has counted exactly its own devices; ending it gives ST_ERR_NONE or ST_ERR_RF_COLLISION |
| Nfcb.RoundOutcome | src/rfal_nfcb.cpp:327-396 | a pass whose slots are all walked ends the resolution exactly when no collision is left pending, and then with ST_ERR_NONE; a slot that ends the resolution ends the pass with it |
| Nfcb.ClassPasses | src/rfal_nfcb.cpp:314-399 | the passes over one slot class; unless the resolution ends, the class ends with a collision pending and no device found in its last pass |
| Nfcb.ClassRepeats | src/rfal_nfcb.cpp:394-399 | a pass that leaves a collision pending and found a device is followed by another pass with the same number of slots; any other pass is the last of its class |
| Nfcb.Passes | src/rfal_nfcb.cpp:313-402 | the slot classes from one number of slots to the last; the result is ST_ERR_NONE or ST_ERR_RF_COLLISION |
| Nfcb.Opening | src/rfal_nfcb.cpp:292-305 | no device counted and no collision pending; outside ISO mode exactly the ALLB_REQ is sent into entry 0 and its verdict is the status; ISO mode sends nothing and keeps the list |
| Nfcb.Run | src/rfal_nfcb.cpp:292-402 | the whole resolution after the parameter check; a status other than ST_ERR_NONE or ST_ERR_RF_COLLISION comes only from the opening outside ISO mode at one slot, or from EMV mode |
| Nfcb.RunExtends | src/rfal_nfcb.cpp:292-402 | no frame sent before is lost; every frame sent is a SENSB_REQ / ALLB_REQ, a SLOT_MARKER carrying a slot code, or a SLPB_REQ, and never a SLPB_REQ in EMV mode; a counted device keeps the answer it was counted with |
| Nfcb.RunResolved | src/rfal_nfcb.cpp:292-402 | counted entries hold valid answers, entries past the next free one are untouched, every counted device but the last is asleep, sleep flags never set in EMV mode; at most max(devLimit, 1) devices, at most one in EMV mode or with single-slot passes only; an error leaves no device counted and is one of the three early returns; a pending collision only with success |
| Nfcb.IsoReuse | src/rfal_nfcb.cpp:292-354 | in ISO mode a valid answer left in entry 0 by technology detection is counted as the only device, awake, with ST_ERR_NONE and no frame sent |
| Nfcb.RunAllbFailure | src/rfal_nfcb.cpp:300-304 | outside ISO mode a failed ALLB_REQ in a single-slot start is returned as it is, with nothing counted and nothing sent after it |
| Nfcb.RunEmvFraming | src/rfal_nfcb.cpp:308-311 | in EMV mode an empty answer to the ALLB_REQ gives ST_ERR_FRAMING, with nothing counted and nothing sent after it |
| Nfcb.RunDetectionCollision | src/rfal_nfcb.cpp:378-382 | collision detection only from one slot: an invalid first answer gives ST_ERR_RF_COLLISION with nothing counted and no frame after the opening, while entry 0 keeps what the opening wrote |
| Nfcb.NfcbPoller.SlottedCollisionResolution | src/rfal_nfcb.cpp:278-403 | a null output or bad slot range gives ST_ERR_PARAM with nothing sent or changed; otherwise the status, the device list, *devCnt, *colPending and the frames sent equal those of Run |
| Nfcb.NfcbPoller.ResolveClasses | src/rfal_nfcb.cpp:313-402 | the for loop over the slot classes ends with the status and state of Passes, or with ST_ERR_NONE and nothing changed when the range is empty |
| Nfcb.NfcbPoller.ResolveClass | src/rfal_nfcb.cpp:314-399 | the do-while loop over the passes of one class leaves the state from which Passes continues with the next class, or returns what Passes returns |
| Nfcb.NfcbPoller.Round | src/rfal_nfcb.cpp:315-396 | one pass ends with the status, pass count and state of RoundStep |
| Nfcb.NfcbPoller.ResolveSlots | src/rfal_nfcb.cpp:328-391 | the do-while loop over the slots of a pass ends with the status, pass count and state of SlotsFrom from slot 0 |
| Nfcb.NfcbPoller.OpenRound | src/rfal_nfcb.cpp:315-325 | the opening of a pass leaves the status and state of OpenStep |
| Nfcb.NfcbPoller.ResolveSlot | src/rfal_nfcb.cpp:333-387 | one slot leaves the status, pass count and state of SlotStep |
| Nfcb.NfcbPoller.CountDevice | src/rfal_nfcb.cpp:342-377 | counting a valid answer leaves the pass count and state of CountStep |
| Nfcb.NfcbPoller.SleepDevice | src/rfal_nfcb.cpp:358-359 | one SLPB_REQ to the entry's PUPI, and only that entry is marked asleep, whatever the answer |
| Nfcb.NfcbPoller.CollisionResolution | src/rfal_nfcb.cpp:270-274 | a null output gives ST_ERR_PARAM with nothing sent or changed; otherwise the status, the device list, *devCnt and the frames sent equal those of Run from one slot to sixteen |
| Nfcb.TR2ToFDT | src/rfal_nfcb.cpp:407-416 | the result is always one of 1792, 3328, 5376, 9472, the entry the masked code selects |
| Nfcb.TR2ToFDTMonotone | src/rfal_nfcb.cpp:407-416 | a larger masked TR2 code never gives a shorter FDT |
| NdefTypes.TableIdsArePositions | src/ndef_types.cpp:90-98 | the table lists the seven type ids in order |
| NdefTypes.MatchesIsEquality | src/ndef_types.cpp:108-119 | the TNF / length / octet comparison is equality of TNF and type string |
| NdefTypes.FirstMatch | src/ndef_types.cpp:106-122 | the search stops at a matching row with no match before it, or runs off the end with no match at all |
| NdefTypes.TypeLookup | src/ndef_types.cpp:106-124 | a found id is below the count, its row has exactly this TNF and string, and no earlier row matches; nothing is found exactly when no row matches |
| NdefTypes.LookupComplete | src/ndef_types.cpp:106-121 | any row carrying this TNF and string is found, at its own position or earlier |
| NdefTypes.EmptyStringLookup | src/ndef_types.cpp:86-113 | an empty type string denotes a type exactly under the empty TNF, and then it is NDEF_TYPE_EMPTY |
| NdefTypes.TypeStringLookup | src/ndef_types.cpp:83-125 | a null string or output gives ST_ERR_PROTO; otherwise ST_ERR_NONE with a matching id, or ST_ERR_NOTFOUND |
| NdefTypes.TypeStringToTypeId | src/ndef_types.cpp:83-125 | the loop returns the lookup's status and writes the first matching id, leaving the output untouched otherwise |
| NdefTypes.RecordTypeStringToTypeId | src/ndef_types.cpp:129-161 | null arguments give ST_ERR_PARAM; an id is produced exactly on success, and it is below the count; for a record read without error under the four table TNFs the result is the table lookup of the record's type string: the first matching id, or ST_ERR_NOTFOUND when no row matches |
| NdefTypes.RecordTypeDispatch | src/ndef_types.cpp:140-158 | a read error is passed on; ST_ERR_INTERNAL exactly from the reserved TNF up; ST_ERR_NOT_IMPLEMENTED exactly for absolute-URI, unknown and unchanged TNFs; success exactly for a table hit under the other four |
| NdefTypes.SetGetAsymmetry | src/ndef_types.cpp:237-272 | a type with id equal to the count is accepted when set but never returned when read; every readable type is settable |
| NdefTypes.GetNdefType | src/ndef_types.cpp:256-272 | a type is returned exactly for a record whose attached type has id below the count and both callbacks, and it is the attached one |
| NdefTypes.SetNdefType | src/ndef_types.cpp:233-252 | null record or type, id above the count or a missing callback gives ST_ERR_PARAM with the record unchanged; otherwise the type is attached and SR is set exactly when the payload length is at most 255 |
| NdefTypes.SetThenGet | src/ndef_types.cpp:233-272 | reading back a freshly set type gives it when its id is below the count and nothing when it equals the count |
| NdefTypes.DispatchTypeId | src/ndef_types.cpp:183-200 | the seven known ids go to their converter, any other id is ST_ERR_NOT_IMPLEMENTED |
| NdefTypes.RecordToType | src/ndef_types.cpp:165-201 | a valid attached type is copied out; otherwise a converter is reached only with the id the table denotes; a failed type lookup's status is passed on unchanged; a null record is ST_ERR_PARAM |
| NdefTypes.RecordToTypeDefaultUnreachable | src/ndef_types.cpp:183-200 | ST_ERR_NOT_IMPLEMENTED comes only from the TNF dispatch or from reading the type, never from the id switch |

## Left out

- RF front end: `rfalSetMode`, `rfalSetErrorHandling`, `rfalSetGT`, `rfalSetFDTListen`/`rfalSetFDTPoll` and `rfalTransceiveBlockingTxRx` are hardware I/O. Exchanges go through the scripted `RfLink`. The outcome of `rfalSetMode` is a parameter of `Initialize`. Guard and frame-delay times, and the FWT constants, are not modelled.
- C memory layout: the struct-to-octet casts, `ST_MEMSET` and `ST_MEMCPY` become datatype values. The cleared receive buffer is `ZeroSensbRes`. A SLPB_REQ carries the whole stored PUPI: the PUPI and the application data are octet sequences of any length, not the four octets of ISO/IEC 14443-3, so the model does not fix the SLPB_REQ at five octets.
- The two outputs of the presence check and the slot marker (response and length) are one entry of the device list, so a single null test stands for both.
- Nfcb.NfcbPoller.SlottedCollisionResolution: requires a list of at least max(devLimit, 1) entries. The C code writes entries below that index without checking the buffer size.
- The body of `rfalNfcbPollerSlottedCollisionResolution` is split into the methods `ResolveClasses` (the for loop), `ResolveClass` (the outer do-while), `Round`, `OpenRound`, `ResolveSlots` (the inner do-while), `ResolveSlot`, `CountDevice` and `SleepDevice`. Their order and branches are the source's. Each is proved equal to the reference function of the same step (`Passes`, `ClassPasses`, `RoundStep`, `OpenStep`, `SlotsFrom`, `SlotStep`, `CountStep`), and the whole resolution to `Run`.
- Nfcb.NfcbPoller.Sleep: the SLPB_REQ answer buffer is the `rx` of the reply; its length is the reply's length.
- `ndefRecordGetType`, `ndefRecordGetPayloadLength` and `ndefHeaderSetValueSR` are not part of this model. What `ndefRecordGetType` reports is the `RecordType` argument. The payload length of a record with a type attached is what the type's `getPayloadLength` callback reports (`NdefType.payloadLength`). The SR bit is a field of the record.
- The per-type converters (`ndefRecordToRtdText` and the rest) and `ndefTypeToRecord` with its converters are not part of this model. `RecordToType` ends by naming the converter it hands over to.
- The octets of the well-known type strings (`bufRtdTypeText` and the rest) are not part of this model; they are known only to be non-empty.
- `errorToString` is not modelled: it is a diagnostic string table.
- Plumbing macros (`EVAL_ST_ERR_*_GOTO`, `SIZEOF_ARRAY`, `NO_WARNING`, `ST_MEMMOVE`) have no behaviour of their own to model.

## Findings

| source | as written | input that shows it | evidently intended | confidence | as-written member | corrected member |
|---|---|---|---|---|---|---|
| src/rfal_nfcb.cpp:236-242 | `rfalNfcbPollerSlotMarker` accepts slot codes 1..16 and builds APn as `(slotCode << 4) \| 0x05` in a uint8_t | slotCode = 16: APn becomes 0x05, the SENSB_REQ command octet, with no slot code in it | slot codes 1..15 only (four bits), each with its own APn distinct from SENSB_REQ | medium, not executed | Nfcb.SlotCodeSixteenWraps | Nfcb.SlotMarkerFrameDistinct |

The collision resolution only ever sends codes in the corrected range 1..15. `Nfcb.SlotExchange` sends a SLOT_MARKER only for a code below 16, `Nfcb.SlotMarkerStep` requires `Nfcb.MarkerSlotCode`, and `Nfcb.RunExtends` proves that every SLOT_MARKER the resolution sends carries a slot code.
