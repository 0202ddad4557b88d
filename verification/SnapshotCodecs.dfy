/** The UE context snapshot and the two codecs that carry it: the JSON conversions, and the record that the
    AMF leaves in Redis for a limited time. */
module SnapshotCodecs {
  import opened Contexts

  type U8 = x: int | 0 <= x < 0x100
  type U32 = x: int | 0 <= x < 0x1_0000_0000
  type U64 = x: int | 0 <= x < 0x1_0000_0000_0000_0000
  type I32 = x: int | -0x8000_0000 <= x < 0x8000_0000
  type I64 = x: int | -0x8000_0000_0000_0000 <= x < 0x8000_0000_0000_0000

  /** OrchraUeContextSnapshot */
  datatype Snapshot = Snapshot(
    contextId: string, traceId: string, supi: string, pduSessionId: U32, targetSlice: string, timestamp: I64,
    dnn: string, sst: U8, sd: string, ip: string,
    dlNasCount: U32, ulNasCount: U32, vectorPointer: U32, kamf: string, kseaf: string,
    ranUeNgapId: U64, amfUeNgapId: U64,
    gnbAssocId: I32, sctpStreamRecv: I32, sctpStreamSend: I32, ueContextRequest: bool, ncc: U8,
    targetRanUeNgapId: U32, targetGnbAssocId: I32,
    upfNodeId: string, upfN4Addr: string, upfSeid: U64, upfTeid: U32)

  /** The keys of the two JSON objects, one name for each string. */
  datatype Key =
    | ContextId | TraceId | SupiKey | Timestamp | PduSessionId | Dnn | Sst | Sd | Ip
    | DlNasCount | UlNasCount | Kamf | VectorPointer | Kseaf | RanUeNgapId
    | UpfNodeId | UpfN4Addr | UpfSeid | UpfTeid

  datatype Json = Str(text: string) | Num(number: int)

  type Object = map<Key, Json>

  // ------------------------------------------------------- to_json and from_json

  function ToJson(s: Snapshot): Object {
    map[ContextId := Str(s.contextId), TraceId := Str(s.traceId), SupiKey := Str(s.supi),
        Timestamp := Num(s.timestamp), PduSessionId := Num(s.pduSessionId), Dnn := Str(s.dnn),
        Sst := Num(s.sst), Sd := Str(s.sd), Ip := Str(s.ip),
        DlNasCount := Num(s.dlNasCount), UlNasCount := Num(s.ulNasCount), Kamf := Str(s.kamf),
        VectorPointer := Num(s.vectorPointer), Kseaf := Str(s.kseaf), RanUeNgapId := Num(s.ranUeNgapId),
        UpfNodeId := Str(s.upfNodeId), UpfN4Addr := Str(s.upfN4Addr), UpfSeid := Num(s.upfSeid),
        UpfTeid := Num(s.upfTeid)]
  }

  predicate IsNumeric(k: Key) {
    k in {Timestamp, PduSessionId, Sst, DlNasCount, UlNasCount, VectorPointer, RanUeNgapId, UpfSeid, UpfTeid}
  }

  /** No value is of the wrong type; otherwise j.value throws. */
  predicate WellTyped(j: Object) {
    forall k | k in j :: j[k].Num? == IsNumeric(k)
  }

  /** j.value(key, "") */
  function TextOr(j: Object, k: Key): string {
    if k in j && j[k].Str? then j[k].text else ""
  }

  /** j.value(key, 0) before it is narrowed */
  function NumberOr(j: Object, k: Key): int {
    if k in j && j[k].Num? then j[k].number else 0
  }

  function AsU8(n: int): U8 { n % 0x100 }
  function AsU32(n: int): U32 { n % 0x1_0000_0000 }
  function AsU64(n: int): U64 { n % 0x1_0000_0000_0000_0000 }
  function AsI64(n: int): I64 {
    var m := AsU64(n);
    if m < 0x8000_0000_0000_0000 then m else m - 0x1_0000_0000_0000_0000
  }
  function AsI32(n: int): I32 {
    var m := AsU32(n);
    if m < 0x8000_0000 then m else m - 0x1_0000_0000
  }

  /** from_json into the object `s`; fields that are not serialised stay as they are. */
  function FromJson(j: Object, s: Snapshot): Option<Snapshot> {
    if !WellTyped(j) then None
    else
      Some(s.(contextId := TextOr(j, ContextId), traceId := TextOr(j, TraceId), supi := TextOr(j, SupiKey),
              timestamp := AsI64(NumberOr(j, Timestamp)), pduSessionId := AsU32(NumberOr(j, PduSessionId)),
              dnn := TextOr(j, Dnn), sst := AsU8(AsU32(NumberOr(j, Sst))), sd := TextOr(j, Sd), ip := TextOr(j, Ip),
              dlNasCount := AsU32(NumberOr(j, DlNasCount)), ulNasCount := AsU32(NumberOr(j, UlNasCount)),
              kamf := TextOr(j, Kamf), vectorPointer := AsU32(NumberOr(j, VectorPointer)), kseaf := TextOr(j, Kseaf),
              ranUeNgapId := AsU64(NumberOr(j, RanUeNgapId)), upfNodeId := TextOr(j, UpfNodeId),
              upfN4Addr := TextOr(j, UpfN4Addr), upfSeid := AsU64(NumberOr(j, UpfSeid)),
              upfTeid := AsU32(NumberOr(j, UpfTeid))))
  }

  /** The nine fields that the JSON form does not have. */
  function Unserialised(s: Snapshot): (string, U64, I32, I32, I32, bool, U8, U32, I32) {
    (s.targetSlice, s.amfUeNgapId, s.gnbAssocId, s.sctpStreamRecv, s.sctpStreamSend, s.ueContextRequest,
     s.ncc, s.targetRanUeNgapId, s.targetGnbAssocId)
  }

  /** The nineteen that it has. */
  predicate SameSerialised(a: Snapshot, b: Snapshot) {
    && a.contextId == b.contextId && a.traceId == b.traceId && a.supi == b.supi && a.timestamp == b.timestamp
    && a.pduSessionId == b.pduSessionId && a.dnn == b.dnn && a.sst == b.sst && a.sd == b.sd && a.ip == b.ip
    && a.dlNasCount == b.dlNasCount && a.ulNasCount == b.ulNasCount && a.kamf == b.kamf
    && a.vectorPointer == b.vectorPointer && a.kseaf == b.kseaf && a.ranUeNgapId == b.ranUeNgapId
    && a.upfNodeId == b.upfNodeId && a.upfN4Addr == b.upfN4Addr && a.upfSeid == b.upfSeid && a.upfTeid == b.upfTeid
  }

  lemma JsonTexts(s: Snapshot)
    ensures var j := ToJson(s);
            && TextOr(j, ContextId) == s.contextId && TextOr(j, TraceId) == s.traceId && TextOr(j, SupiKey) == s.supi
            && TextOr(j, Dnn) == s.dnn && TextOr(j, Sd) == s.sd && TextOr(j, Ip) == s.ip
            && TextOr(j, Kamf) == s.kamf && TextOr(j, Kseaf) == s.kseaf
            && TextOr(j, UpfNodeId) == s.upfNodeId && TextOr(j, UpfN4Addr) == s.upfN4Addr
  {
  }

  lemma JsonNumbers(s: Snapshot)
    ensures var j := ToJson(s);
            && NumberOr(j, Timestamp) == s.timestamp && NumberOr(j, PduSessionId) == s.pduSessionId
            && NumberOr(j, Sst) == s.sst && NumberOr(j, DlNasCount) == s.dlNasCount
            && NumberOr(j, UlNasCount) == s.ulNasCount && NumberOr(j, VectorPointer) == s.vectorPointer
            && NumberOr(j, RanUeNgapId) == s.ranUeNgapId && NumberOr(j, UpfSeid) == s.upfSeid
            && NumberOr(j, UpfTeid) == s.upfTeid
  {
  }

  lemma JsonWellTyped(s: Snapshot)
    ensures WellTyped(ToJson(s))
  {
  }

  /** Every number of a snapshot fits the type that it is read back as. */
  lemma NumbersFit(s: Snapshot)
    ensures && AsI64(s.timestamp) == s.timestamp && AsU32(s.pduSessionId) == s.pduSessionId
            && AsU8(AsU32(s.sst)) == s.sst && AsU32(s.dlNasCount) == s.dlNasCount
            && AsU32(s.ulNasCount) == s.ulNasCount && AsU32(s.vectorPointer) == s.vectorPointer
            && AsU64(s.ranUeNgapId) == s.ranUeNgapId && AsU64(s.upfSeid) == s.upfSeid
            && AsU32(s.upfTeid) == s.upfTeid
  {
    assert s.timestamp < 0 ==> AsU64(s.timestamp) == s.timestamp + 0x1_0000_0000_0000_0000;
  }

  /** JSON round trip: all nineteen fields come back, into whatever object they are read; the other nine,
      the AMF id and the gNB association among them, are that object's own. */
  lemma JsonRoundTrip(s: Snapshot, into: Snapshot)
    ensures var r := FromJson(ToJson(s), into);
            r.Some? && SameSerialised(r.value, s) && Unserialised(r.value) == Unserialised(into)
  {
    JsonTexts(s);
    JsonNumbers(s);
    JsonWellTyped(s);
    NumbersFit(s);
  }

  /** Which key carries which text. */
  lemma JsonCarriesTexts(s: Snapshot)
    ensures var j := ToJson(s);
            && j[ContextId] == Str(s.contextId) && j[TraceId] == Str(s.traceId) && j[SupiKey] == Str(s.supi)
            && j[Dnn] == Str(s.dnn) && j[Sd] == Str(s.sd) && j[Ip] == Str(s.ip) && j[Kamf] == Str(s.kamf)
            && j[Kseaf] == Str(s.kseaf) && j[UpfNodeId] == Str(s.upfNodeId) && j[UpfN4Addr] == Str(s.upfN4Addr)
  {
  }

  /** And which number. */
  lemma JsonCarriesNumbers(s: Snapshot)
    ensures var j := ToJson(s);
            && j[Timestamp] == Num(s.timestamp) && j[PduSessionId] == Num(s.pduSessionId) && j[Sst] == Num(s.sst)
            && j[DlNasCount] == Num(s.dlNasCount) && j[UlNasCount] == Num(s.ulNasCount)
            && j[VectorPointer] == Num(s.vectorPointer) && j[RanUeNgapId] == Num(s.ranUeNgapId)
            && j[UpfSeid] == Num(s.upfSeid) && j[UpfTeid] == Num(s.upfTeid)
  {
  }

  /** Reading wraps a number that does not fit. */
  lemma ReadingWraps(n: int)
    ensures n == n / 0x100 * 0x100 + AsU8(n) && n == n / 0x1_0000_0000 * 0x1_0000_0000 + AsU32(n)
    ensures n == n / 0x1_0000_0000_0000_0000 * 0x1_0000_0000_0000_0000 + AsU64(n)
  {
  }

  /** As a signed number it is the same but for one wrap. */
  lemma ReadingWrapsSigned(n: int)
    ensures AsI32(n) == AsU32(n) || AsI32(n) == AsU32(n) - 0x1_0000_0000
    ensures AsI64(n) == AsU64(n) || AsI64(n) == AsU64(n) - 0x1_0000_0000_0000_0000
  {
  }

  /** A key that is missing reads as empty or zero. */
  lemma MissingReadsAsNothing(s: Snapshot)
    ensures var r := FromJson(map[], s);
            && r.Some? && Unserialised(r.value) == Unserialised(s)
            && SameSerialised(r.value, Snapshot("", "", "", 0, "", 0, "", 0, "", "", 0, 0, 0, "", "",
                                                0, 0, 0, 0, 0, false, 0, 0, 0, "", "", 0, 0))
  {
  }

  predicate WronglyTyped(j: Object, k: Key) {
    k in j && j[k].Num? != (k in {Timestamp, PduSessionId, Sst, DlNasCount, UlNasCount, VectorPointer, RanUeNgapId,
                                  UpfSeid, UpfTeid})
  }

  lemma WellTypedObjects(j: Object)
    ensures !WellTyped(j) <==> exists k :: WronglyTyped(j, k)
  {
    forall k | k in j ensures WronglyTyped(j, k) <==> j[k].Num? != IsNumeric(k) { }
    if !WellTyped(j) {
      var k :| k in j && j[k].Num? != IsNumeric(k);
      assert WronglyTyped(j, k);
    }
  }

  /** A value of the wrong type stops the reading of either object, and so does a missing key that of a record. */
  lemma BadObjectsStop(j: Object, s: Snapshot)
    ensures FromJson(j, s).None? <==> exists k :: WronglyTyped(j, k)
    ensures FromRecord(j).None? <==>
            (exists k :: WronglyTyped(j, k)) ||
            !({SupiKey, PduSessionId, Dnn, Sst, Sd, Ip, Kseaf, Kamf, UpfN4Addr, UpfSeid} <= j.Keys)
  {
    WellTypedObjects(j);
  }

  /** The JSON form is injective on the nineteen fields. */
  lemma JsonTellsApart(a: Snapshot, b: Snapshot)
    ensures ToJson(a) == ToJson(b) <==> SameSerialised(a, b)
  {
    JsonTexts(a); JsonTexts(b);
    JsonNumbers(a); JsonNumbers(b);
  }

  // ------------------------------------------------------- the Redis record

  function ToRecord(s: Snapshot): Object {
    map[SupiKey := Str(s.supi), PduSessionId := Num(AsI32(s.pduSessionId)), Dnn := Str(s.dnn), Sst := Num(s.sst),
        Sd := Str(s.sd), Ip := Str(s.ip), Kseaf := Str(s.kseaf), Kamf := Str(s.kamf),
        UpfN4Addr := Str(s.upfN4Addr), UpfSeid := Num(s.upfSeid)]
  }

  /** What an import knows of a snapshot; its other fields are never set. */
  datatype Imported = Imported(supi: string, pduSessionId: U8, dnn: string, sst: U8, sd: string, ip: string,
                               kseaf: string, kamf: string, upfN4Addr: string, upfSeid: U64)

  const RECORD_KEYS := {SupiKey, PduSessionId, Dnn, Sst, Sd, Ip, Kseaf, Kamf, UpfN4Addr, UpfSeid}

  function FromRecord(j: Object): Option<Imported> {
    if !(RECORD_KEYS <= j.Keys) || !WellTyped(j) then None
    else
      Some(Imported(TextOr(j, SupiKey), AsU8(NumberOr(j, PduSessionId)), TextOr(j, Dnn), AsU8(NumberOr(j, Sst)),
                    TextOr(j, Sd), TextOr(j, Ip), TextOr(j, Kseaf), TextOr(j, Kamf), TextOr(j, UpfN4Addr),
                    AsU64(NumberOr(j, UpfSeid))))
  }

  /** The ten fields of a snapshot, its PDU session id in eight bits. */
  function Projection(s: Snapshot): Imported {
    Imported(s.supi, AsU8(s.pduSessionId), s.dnn, s.sst, s.sd, s.ip, s.kseaf, s.kamf, s.upfN4Addr, s.upfSeid)
  }

  /** Redis round trip: the ten fields come back, the PDU session id exactly when it is below 256. */
  lemma RecordRoundTrip(s: Snapshot)
    ensures FromRecord(ToRecord(s)) == Some(Projection(s))
    ensures Projection(s).pduSessionId == s.pduSessionId <==> s.pduSessionId < 0x100
  {
    var j := ToRecord(s);
    assert j.Keys == RECORD_KEYS;
    assert AsU8(AsI32(s.pduSessionId)) == AsU8(s.pduSessionId);
  }

  /** One projection of the other: the record's keys are among those of the JSON form, with the same values,
      but for a PDU session id of 2^31 or more. */
  lemma RecordIsPartOfJson(s: Snapshot, k: Key)
    ensures k in ToRecord(s) ==> k in ToJson(s)
    ensures k in ToRecord(s) ==>
              (ToRecord(s)[k] == ToJson(s)[k] <==> k != PduSessionId || s.pduSessionId < 0x8000_0000)
    ensures ToRecord(s).Keys < ToJson(s).Keys
  {
    assert DlNasCount in ToJson(s) && DlNasCount !in ToRecord(s);
  }

  // ------------------------------------------------------- the key store over time

  const TTL := 120
  const KEY_PREFIX := "orchra:ue:"

  function RedisKey(supi: string): string {
    KEY_PREFIX + supi
  }

  lemma RedisKeysDiffer(a: string, b: string)
    ensures RedisKey(a) == RedisKey(b) <==> a == b
  {
    assert RedisKey(a)[|KEY_PREFIX|..] == a && RedisKey(b)[|KEY_PREFIX|..] == b;
  }

  /** A stored value; without a deadline it stays. */
  datatype Entry = Entry(record: Object, deadline: Option<nat>)

  /** Which of the two commands of an export the connection fails at. */
  datatype Fault = NoFault | SetFails | ExpireFails

  datatype Export = Export(time: nat, snapshot: Snapshot, fault: Fault)

  type Store = map<string, Entry>

  function AfterExport(store: Store, e: Export): Store {
    if e.fault == SetFails then store
    else store[RedisKey(e.snapshot.supi) :=
                 Entry(ToRecord(e.snapshot), if e.fault == NoFault then Some(e.time + TTL) else None)]
  }

  function Lookup(store: Store, now: nat, supi: string): Option<Imported> {
    var key := RedisKey(supi);
    if key in store && (store[key].deadline.Some? ==> now < store[key].deadline.value)
    then FromRecord(store[key].record) else None
  }

  function AfterExports(store: Store, history: seq<Export>): Store
    decreases |history|
  {
    if history == [] then store
    else AfterExport(AfterExports(store, history[..|history| - 1]), history[|history| - 1])
  }

  /** The last export of this UE that was stored. */
  function LastStored(history: seq<Export>, supi: string): (r: Option<Export>)
    ensures r.Some? ==> r.value in history && r.value.snapshot.supi == supi && r.value.fault != SetFails
    ensures r.None? ==> forall e | e in history :: e.snapshot.supi != supi || e.fault == SetFails
    decreases |history|
  {
    if history == [] then None
    else
      var e := history[|history| - 1];
      if e.snapshot.supi == supi && e.fault != SetFails then Some(e)
      else LastStored(history[..|history| - 1], supi)
  }

  /** Nothing was exported later for this UE. */
  lemma {:induction false} LastStoredIsLast(history: seq<Export>, supi: string, i: nat)
    requires i < |history| && history[i].snapshot.supi == supi && history[i].fault != SetFails
    requires forall j | i < j < |history| :: history[j].snapshot.supi != supi || history[j].fault == SetFails
    ensures LastStored(history, supi) == Some(history[i])
    decreases |history|
  {
    if i < |history| - 1 {
      LastStoredIsLast(history[..|history| - 1], supi, i);
    }
  }

  /** History: whatever was exported for whichever UEs, an import yields the projection of that UE's last
      stored export while it has not expired, never anything of another UE, and nothing otherwise. */
  lemma {:induction false} ImportAfterHistory(history: seq<Export>, now: nat, supi: string)
    ensures var r := Lookup(AfterExports(map[], history), now, supi);
            var l := LastStored(history, supi);
            && r == (if l.Some? && (l.value.fault == NoFault ==> now < l.value.time + 120)
                     then Some(Projection(l.value.snapshot)) else None)
            && (r.Some? ==> r.value.supi == supi)
    decreases |history|
  {
    if history != [] {
      var e := history[|history| - 1];
      RedisKeysDiffer(supi, e.snapshot.supi);
      RecordRoundTrip(e.snapshot);
      ImportAfterHistory(history[..|history| - 1], now, supi);
    }
  }

  /** The keys of the store, and how long a record stays: the text "orchra:ue:" and the SUPI, and 120 seconds after its
      export, unless the deadline could not be set. */
  lemma {:induction false} StoreAfterHistory(history: seq<Export>, supi: string)
    ensures var store := AfterExports(map[], history);
            var key := "orchra:ue:" + supi; var l := LastStored(history, supi);
            && (key in store <==> l.Some?)
            && (l.Some? ==> store[key] == Entry(ToRecord(l.value.snapshot),
                                                if l.value.fault == NoFault then Some(l.value.time + 120) else None))
    decreases |history|
  {
    if history != [] {
      RedisKeysDiffer(supi, history[|history| - 1].snapshot.supi);
      StoreAfterHistory(history[..|history| - 1], supi);
    }
  }

  /** The process's side of it: no connection before init_redis. */
  class RedisClient {
    var connected: bool
    var store: Store

    constructor ()
      ensures !connected && store == map[]
    {
      connected, store := false, map[];
    }

    method InitRedis()
      modifies this`connected
      ensures connected
    {
      connected := true;
    }

    method ExportSnapshot(now: nat, s: Snapshot, fault: Fault) returns (ok: bool)
      modifies this`store
      ensures store == if connected then AfterExport(old(store), Export(now, s, fault)) else old(store)
      ensures ok == (connected && fault == NoFault)
    {
      if !connected {
        return false;
      }
      var j := ToRecord(s);
      var key := RedisKey(s.supi);
      if fault == SetFails {
        return false;
      }
      store := store[key := Entry(j, None)];
      if fault == ExpireFails {
        return false;
      }
      store := store[key := store[key].(deadline := Some(now + TTL))];
      ok := true;
    }

    method ImportSnapshot(now: nat, supi: string) returns (r: Option<Imported>)
      ensures r == if connected then Lookup(store, now, supi) else None
    {
      if !connected {
        return None;
      }
      var key := RedisKey(supi);
      if key !in store {
        return None;
      }
      var entry := store[key];
      if entry.deadline.Some? && entry.deadline.value <= now {
        return None;
      }
      r := FromRecord(entry.record);
    }
  }
}
