/** NDEF record types (src/ndef_types.cpp): resolving a record's TNF and type
    string to one of the library's well-known type ids by a first-match table
    search, dispatching on the TNF, attaching a type to a record and reading
    it back. */
module NdefTypes {

  import opened NfcUtils
  import opened StErrno

  // Type Name Format values of the NDEF record header (NFC Forum NDEF
  // technical specification, section 3.2.6).
  const TNF_EMPTY: byte := 0x00
  const TNF_RTD_WELL_KNOWN_TYPE: byte := 0x01
  const TNF_MEDIA_TYPE: byte := 0x02
  const TNF_URI: byte := 0x03
  const TNF_RTD_EXTERNAL_TYPE: byte := 0x04
  const TNF_UNKNOWN: byte := 0x05
  const TNF_UNCHANGED: byte := 0x06
  const TNF_RESERVED: byte := 0x07

  // The library's type ids (ndefTypeId), in the order of the type table,
  // followed by their count.
  const TYPE_EMPTY: nat := 0
  const TYPE_RTD_DEVICE_INFO: nat := 1
  const TYPE_RTD_TEXT: nat := 2
  const TYPE_RTD_URI: nat := 3
  const TYPE_RTD_AAR: nat := 4
  const TYPE_MEDIA_VCARD: nat := 5
  const TYPE_MEDIA_WIFI: nat := 6
  const TYPE_ID_COUNT: nat := 7

  /** The largest payload a short record (SR bit set) can announce in its
      one-octet payload length field. */
  const SHORT_RECORD_LENGTH_MAX: nat := 255

  /** A type name of a well-known type: never empty. */
  type TypeName = s: seq<byte> | |s| > 0 witness [0]

  // The type strings of the well-known types (bufRtdTypeDeviceInfo,
  // bufRtdTypeText, bufRtdTypeUri, bufRtdTypeAar, bufMediaTypeVCard,
  // bufMediaTypeWifi); their octets are defined outside this file.
  const RTD_TYPE_DEVICE_INFO: TypeName
  const RTD_TYPE_TEXT: TypeName
  const RTD_TYPE_URI: TypeName
  const RTD_TYPE_AAR: TypeName
  const MEDIA_TYPE_VCARD: TypeName
  const MEDIA_TYPE_WIFI: TypeName

  /** One row of the type table: a type id and the TNF and type string that
      denote it. */
  datatype TypeEntry = TypeEntry(typeId: nat, tnf: byte, name: seq<byte>)

  const TYPE_TABLE: seq<TypeEntry> := [
    TypeEntry(TYPE_EMPTY, TNF_EMPTY, []),
    TypeEntry(TYPE_RTD_DEVICE_INFO, TNF_RTD_WELL_KNOWN_TYPE, RTD_TYPE_DEVICE_INFO),
    TypeEntry(TYPE_RTD_TEXT, TNF_RTD_WELL_KNOWN_TYPE, RTD_TYPE_TEXT),
    TypeEntry(TYPE_RTD_URI, TNF_RTD_WELL_KNOWN_TYPE, RTD_TYPE_URI),
    TypeEntry(TYPE_RTD_AAR, TNF_RTD_EXTERNAL_TYPE, RTD_TYPE_AAR),
    TypeEntry(TYPE_MEDIA_VCARD, TNF_MEDIA_TYPE, MEDIA_TYPE_VCARD),
    TypeEntry(TYPE_MEDIA_WIFI, TNF_MEDIA_TYPE, MEDIA_TYPE_WIFI)
  ]

  /** Every row's id is its position in the table. */
  lemma TableIdsArePositions()
    ensures |TYPE_TABLE| == TYPE_ID_COUNT
    ensures forall j :: 0 <= j < |TYPE_TABLE| ==> TYPE_TABLE[j].typeId == j
  {
  }

  /** The table test: same TNF, same length, and then either both strings are
      empty or their octets compare equal; that is, the TNF and the whole
      string are equal. */
  predicate Matches(e: TypeEntry, tnf: byte, s: seq<byte>)
  {
    e.tnf == tnf && |s| == |e.name| && (|s| == 0 || s == e.name)
  }

  /** The octet test of the table amounts to plain equality of TNF and string. */
  lemma MatchesIsEquality(e: TypeEntry, tnf: byte, s: seq<byte>)
    ensures Matches(e, tnf, s) <==> e.tnf == tnf && e.name == s
  {
  }

  /** The position of the first row from i on that matches, or the table size
      when none does. */
  function FirstMatch(tnf: byte, s: seq<byte>, i: nat): (r: nat)
    requires i <= |TYPE_TABLE|
    ensures i <= r <= |TYPE_TABLE|
    ensures r < |TYPE_TABLE| ==> Matches(TYPE_TABLE[r], tnf, s)
    ensures forall k :: i <= k < r ==> !Matches(TYPE_TABLE[k], tnf, s)
    decreases |TYPE_TABLE| - i
  {
    if i == |TYPE_TABLE| then i
    else if Matches(TYPE_TABLE[i], tnf, s) then i
    else FirstMatch(tnf, s, i + 1)
  }

  /** The type id denoted by a TNF and a type string, if the table has one. */
  function TypeLookup(tnf: byte, s: seq<byte>): (r: Option<nat>)
    ensures r.Some? ==>
      r.value < TYPE_ID_COUNT && TYPE_TABLE[r.value].tnf == tnf && TYPE_TABLE[r.value].name == s
    ensures r.Some? ==> forall k :: 0 <= k < r.value ==> !Matches(TYPE_TABLE[k], tnf, s)
    ensures r.None? <==> forall k :: 0 <= k < |TYPE_TABLE| ==> !Matches(TYPE_TABLE[k], tnf, s)
  {
    var j := FirstMatch(tnf, s, 0);
    if j < |TYPE_TABLE| then
      TableIdsArePositions();
      Some(TYPE_TABLE[j].typeId)
    else None
  }

  /** An empty type string denotes a type exactly under the empty TNF, and
      then it is the empty type. */
  lemma EmptyStringLookup(tnf: byte)
    ensures TypeLookup(tnf, []) == if tnf == TNF_EMPTY then Some(TYPE_EMPTY) else None
  {
    if tnf != TNF_EMPTY {
      forall k | 0 <= k < |TYPE_TABLE|
        ensures !Matches(TYPE_TABLE[k], tnf, [])
      {
        assert k == 0 || |TYPE_TABLE[k].name| > 0;
      }
    }
  }

  /** Any table row carrying exactly this TNF and string is found, at its own
      position or at an earlier row that denotes the same pair. */
  lemma {:induction false} LookupComplete(tnf: byte, s: seq<byte>, j: nat)
    requires j < |TYPE_TABLE| && TYPE_TABLE[j].tnf == tnf && TYPE_TABLE[j].name == s
    ensures TypeLookup(tnf, s).Some? && TypeLookup(tnf, s).value <= j
  {
    MatchesIsEquality(TYPE_TABLE[j], tnf, s);
    TableIdsArePositions();
  }

  /** The outcome of a lookup: its status and, on success, the id written to
      the caller's output. */
  datatype Lookup = Lookup(status: ReturnCode, typeId: Option<nat>)

  /** ndefTypeStringToTypeId as a value: a missing string or output gives
      ST_ERR_PROTO, a table hit ST_ERR_NONE with its id, a miss ST_ERR_NOTFOUND
      with nothing written. */
  function TypeStringLookup(tnf: byte, s: Option<seq<byte>>, outPresent: bool): (r: Lookup)
    ensures s.None? || !outPresent ==> r == Lookup(ST_ERR_PROTO, None)
    ensures s.Some? && outPresent ==>
      (r.status == ST_ERR_NONE <==> r.typeId.Some?)
      && (r.status == ST_ERR_NONE || r.status == ST_ERR_NOTFOUND)
      && (r.typeId.Some? ==>
            r.typeId.value < TYPE_ID_COUNT
            && TYPE_TABLE[r.typeId.value].tnf == tnf && TYPE_TABLE[r.typeId.value].name == s.value)
  {
    if s.None? || !outPresent then Lookup(ST_ERR_PROTO, None)
    else match TypeLookup(tnf, s.value)
      case Some(id) => Lookup(ST_ERR_NONE, Some(id))
      case None => Lookup(ST_ERR_NOTFOUND, None)
  }

  /** ndefTypeStringToTypeId: a linear search of the table in order that
      stops at the first row with the same TNF, length and octets and writes
      its id to the output. */
  method TypeStringToTypeId(tnf: byte, s: Option<seq<byte>>, typeId: Ref?<nat>) returns (ret: ReturnCode)
    modifies typeId
    ensures ret == TypeStringLookup(tnf, s, typeId != null).status
    ensures typeId != null && s.Some? && TypeLookup(tnf, s.value).Some? ==>
      typeId.val == TypeLookup(tnf, s.value).value
    ensures typeId != null && (s.None? || TypeLookup(tnf, s.value).None?) ==>
      typeId.val == old(typeId.val)
  {
    if s.None? || typeId == null {
      return ST_ERR_PROTO;
    }
    var str := s.value;
    TableIdsArePositions();
    var i := 0;
    while i < |TYPE_TABLE|
      invariant 0 <= i <= |TYPE_TABLE|
      invariant FirstMatch(tnf, str, 0) >= i
      invariant typeId.val == old(typeId.val)
    {
      var e := TYPE_TABLE[i];
      if e.tnf == tnf {
        if |str| == |e.name| {
          if |str| == 0 {
            typeId.val := e.typeId;
            return ST_ERR_NONE;
          } else if e.name == str {
            typeId.val := e.typeId;
            return ST_ERR_NONE;
          }
        }
      }
      i := i + 1;
    }
    return ST_ERR_NOTFOUND;
  }

  /** What ndefRecordGetType reports of a record: its status, its TNF and its
      type string. */
  datatype RecordType = RecordType(status: ReturnCode, tnf: byte, name: seq<byte>)

  /** ndefRecordTypeStringToTypeId: a missing record or output gives
      ST_ERR_PARAM, an error reading the type is passed on, a TNF from the
      reserved value up is an internal error, the four TNFs of the table go to
      the table search and the others (absolute URI, unknown, unchanged) are
      not implemented. */
  function RecordTypeStringToTypeId(record: Option<RecordType>, outPresent: bool): (r: Lookup)
    ensures record.None? || !outPresent ==> r == Lookup(ST_ERR_PARAM, None)
    ensures r.typeId.Some? <==> r.status == ST_ERR_NONE
    ensures r.typeId.Some? ==> r.typeId.value < TYPE_ID_COUNT
    ensures record.Some? && outPresent && record.value.status == ST_ERR_NONE
            && record.value.tnf in {TNF_EMPTY, TNF_RTD_WELL_KNOWN_TYPE, TNF_RTD_EXTERNAL_TYPE, TNF_MEDIA_TYPE} ==>
      r == TypeStringLookup(record.value.tnf, Some(record.value.name), true)
      && r.typeId == TypeLookup(record.value.tnf, record.value.name)
      && (r.typeId.None? ==> r.status == ST_ERR_NOTFOUND)
  {
    if record.None? || !outPresent then Lookup(ST_ERR_PARAM, None)
    else if record.value.status != ST_ERR_NONE then Lookup(record.value.status, None)
    else if record.value.tnf >= TNF_RESERVED then Lookup(ST_ERR_INTERNAL, None)
    else if record.value.tnf in {TNF_EMPTY, TNF_RTD_WELL_KNOWN_TYPE, TNF_RTD_EXTERNAL_TYPE, TNF_MEDIA_TYPE} then
      TypeStringLookup(record.value.tnf, Some(record.value.name), true)
    else Lookup(ST_ERR_NOT_IMPLEMENTED, None)
  }

  /** Which status a record resolves to, case by case: the dispatch on the
      TNF in both directions. */
  lemma RecordTypeDispatch(rt: RecordType)
    ensures var r := RecordTypeStringToTypeId(Some(rt), true);
      (rt.status != ST_ERR_NONE ==> r == Lookup(rt.status, None))
      && (rt.status == ST_ERR_NONE ==>
            (r.status == ST_ERR_INTERNAL <==> rt.tnf >= TNF_RESERVED)
            && (r.status == ST_ERR_NOT_IMPLEMENTED <==>
                  rt.tnf == TNF_URI || rt.tnf == TNF_UNKNOWN || rt.tnf == TNF_UNCHANGED)
            && (r.status == ST_ERR_NONE <==>
                  rt.tnf < TNF_RESERVED && TypeLookup(rt.tnf, rt.name).Some?
                  && rt.tnf != TNF_URI && rt.tnf != TNF_UNKNOWN && rt.tnf != TNF_UNCHANGED))
  {
  }

  /** An NDEF type as attached to a record: its id, whether its two
      callbacks are set, and the payload length its getPayloadLength callback
      reports. The type's own data is not modelled. */
  datatype NdefType = NdefType(id: nat, hasGetPayloadLength: bool, hasGetPayloadItem: bool, payloadLength: nat)

  /** The types ndefRecordSetNdefType attaches: id up to and including the
      count, and both callbacks set. */
  predicate SetAccepts(t: NdefType)
  {
    t.id <= TYPE_ID_COUNT && t.hasGetPayloadLength && t.hasGetPayloadItem
  }

  /** The types ndefRecordGetNdefType hands back: id strictly below the count,
      and both callbacks set. */
  predicate ValidType(t: NdefType)
  {
    t.id < TYPE_ID_COUNT && t.hasGetPayloadItem && t.hasGetPayloadLength
  }

  /** Setting accepts exactly one id more than getting returns: a type with
      id equal to the count can be attached but is never read back. */
  lemma SetGetAsymmetry(t: NdefType)
    ensures SetAccepts(t) && !ValidType(t) <==>
      t.id == TYPE_ID_COUNT && t.hasGetPayloadLength && t.hasGetPayloadItem
    ensures ValidType(t) ==> SetAccepts(t)
  {
  }

  /** The parts of an NDEF record that attaching a type touches: the
      attached type and the short-record (SR) bit of the header. */
  class NdefRecord {
    var ndeftype: Option<NdefType>
    var shortRecord: bool

    constructor ()
      ensures ndeftype == None && !shortRecord
    {
      ndeftype := None;
      shortRecord := false;
    }
  }

  /** ndefRecordGetNdefType: the attached type when there is a record and a
      type with an id below the count and both callbacks; nothing otherwise. */
  function GetNdefType(record: NdefRecord?): (r: Option<NdefType>)
    reads record
    ensures r.Some? <==> record != null && record.ndeftype.Some? && ValidType(record.ndeftype.value)
    ensures r.Some? ==> r == record.ndeftype
  {
    if record == null then None
    else if record.ndeftype.Some? && ValidType(record.ndeftype.value) then record.ndeftype
    else None
  }

  /** ndefRecordSetNdefType: a missing record or type, an id above the count
      or a missing callback give ST_ERR_PARAM and change nothing; otherwise
      the type is attached and the SR bit is set exactly when its payload fits
      a short record. */
  method SetNdefType(record: NdefRecord?, t: Option<NdefType>) returns (ret: ReturnCode)
    modifies record
    ensures record == null || t.None? || !SetAccepts(t.value) ==>
      ret == ST_ERR_PARAM && (record != null ==> unchanged(record))
    ensures record != null && t.Some? && SetAccepts(t.value) ==>
      ret == ST_ERR_NONE && record.ndeftype == t
      && (record.shortRecord <==> t.value.payloadLength <= SHORT_RECORD_LENGTH_MAX)
  {
    if record == null || t.None? || t.value.id > TYPE_ID_COUNT
       || !t.value.hasGetPayloadLength || !t.value.hasGetPayloadItem {
      return ST_ERR_PARAM;
    }
    record.ndeftype := t;
    var payloadLength := record.ndeftype.value.payloadLength;
    record.shortRecord := payloadLength <= SHORT_RECORD_LENGTH_MAX;
    return ST_ERR_NONE;
  }

  /** A type set with an id below the count is read back unchanged; one with
      id equal to the count is attached but reads back as no type. */
  method SetThenGet(record: NdefRecord, t: NdefType) returns (got: Option<NdefType>)
    requires SetAccepts(t)
    modifies record
    ensures got == (if t.id < TYPE_ID_COUNT then Some(t) else None)
  {
    var ret := SetNdefType(record, Some(t));
    got := GetNdefType(record);
  }

  /** How ndefRecordToType ends: the attached type copied out, an error
      status, or a hand-over to the converter of a resolved type id. */
  datatype ToType = Copied(t: NdefType) | Failed(status: ReturnCode) | Convert(typeId: nat)

  /** The switch of ndefRecordToType on a resolved type id: each of the
      seven known ids goes to its converter, any other id is not implemented. */
  function DispatchTypeId(id: nat): (r: ToType)
    ensures r.Convert? <==> id < TYPE_ID_COUNT
    ensures r.Convert? ==> r.typeId == id
    ensures r.Failed? ==> r.status == ST_ERR_NOT_IMPLEMENTED
    ensures !r.Copied?
  {
    if id < TYPE_ID_COUNT then Convert(id) else Failed(ST_ERR_NOT_IMPLEMENTED)
  }

  /** ndefRecordToType up to its dispatch: a valid attached type is copied
      with ST_ERR_NONE; otherwise the TNF and type string are resolved, an
      error is passed on, and a resolved id goes to its converter, with ids
      outside the seven known ones not implemented. */
  function RecordToType(record: NdefRecord?, rt: RecordType): (r: ToType)
    reads record
    ensures GetNdefType(record).Some? ==> r == Copied(GetNdefType(record).value)
    ensures r.Copied? ==> record != null && record.ndeftype == Some(r.t)
    ensures r.Convert? ==>
      record != null && r.typeId < TYPE_ID_COUNT && TypeLookup(rt.tnf, rt.name) == Some(r.typeId)
    ensures r.Failed? ==> r.status != ST_ERR_NONE
    ensures record == null ==> r == Failed(ST_ERR_PARAM)
    ensures var lookup := RecordTypeStringToTypeId(if record == null then None else Some(rt), true);
      GetNdefType(record).None? && lookup.status != ST_ERR_NONE ==> r == Failed(lookup.status)
  {
    var attached := GetNdefType(record);
    if attached.Some? then Copied(attached.value)
    else
      var lookup := RecordTypeStringToTypeId(if record == null then None else Some(rt), true);
      if lookup.status != ST_ERR_NONE then Failed(lookup.status)
      else DispatchTypeId(lookup.typeId.value)
  }

  /** The default branch of the dispatch is dead: a record whose type string
      resolves always reaches a converter, so ST_ERR_NOT_IMPLEMENTED comes only
      from the TNF dispatch or from reading the type. */
  lemma RecordToTypeDefaultUnreachable(record: NdefRecord?, rt: RecordType)
    requires RecordToType(record, rt) == Failed(ST_ERR_NOT_IMPLEMENTED)
    ensures record != null
    ensures rt.status == ST_ERR_NOT_IMPLEMENTED
      || (rt.status == ST_ERR_NONE && (rt.tnf == TNF_URI || rt.tnf == TNF_UNKNOWN || rt.tnf == TNF_UNCHANGED))
  {
    RecordTypeDispatch(rt);
  }
}
