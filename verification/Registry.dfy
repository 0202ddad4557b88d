/** The index tables of the AMF as a value, and the effect of every NGAP procedure on them.

    A UE is reached through five tables: (RAN id, gNB id) and AMF id lead to its NGAP
    context, (RAN id, AMF id) to its UE context, AMF id and SUPI to its NAS record.
    Object references are used here only as identities; what the objects hold is in
    the `ngap`, `ue` and `nas` maps.  Class `AmfTables` (AmfTables.dfy) performs the same
    steps on the heap. */
module Registry {
  import opened Contexts

  type RanKey = (RanId, GnbId)
  type UeKey = (RanId, AmfId)

  datatype State = State(
    gnbs: map<Assoc, Gnb>,              // association -> gNB context
    assocOf: map<GnbId, Assoc>,         // gNB id -> association of its context
    byRan: map<RanKey, NgapContext>,    // ranid2uecontext
    byAmf: map<AmfId, NgapContext>,     // amfueid2uecontext
    byUeKey: map<UeKey, UeContext>,     // ue_ctx_key
    nasByAmf: map<AmfId, NasRecord>,    // amfueid2nas_context
    nasBySupi: map<Supi, NasRecord>,    // supi2nas_context
    amfBySupi: map<Supi, AmfId>,        // supi2amfId
    ngap: map<NgapContext, Ngap>,
    ue: map<UeContext, Ue>,
    nas: map<NasRecord, Nas>,
    nextAmfId: nat)                     // amf_app_ue_ngap_id_generator

  /** How far an NG Setup Request gets: without a gNB id it has no effect; refused for its TA list or PLMN it has set
      the gNB id; accepted, it gives up the UEs of the association or retains them, and the response may fail to
      encode. */
  datatype Setup = Malformed | Refused | Released(encodes: bool) | Retained(encodes: bool)

  /** What the tables take from the snapshot of a migrated UE. */
  datatype Ids = Ids(supi: Supi, amfId: AmfId, ranId: RanId, assoc: Assoc, targetRanId: RanId, targetAssoc: Assoc)

  /** What a message or an internal task message asks for, already decoded.  The objects in InitialUe, Establish,
      NasAttach and Restore are those allocated if a new context is needed, a Restore without NGAP context is one whose
      keys did not decode; the record of GutiRebind is the one that the GUTI leads to; `order` is the list that
      get_ue_ngap_contexts built. */
  datatype Event =
    | NewAssociation(assoc: Assoc, gnb: Gnb)
    | NgSetup(assoc: Assoc, gnbId: GnbId, setup: Setup, order: seq<NgapContext>)
    | InitialUe(assoc: Assoc, ranId: RanId, newNgap: NgapContext)
    | Establish(ranId: RanId, gnbId: GnbId, newUe: UeContext)
    | DlNas(ranId: RanId, amfId: AmfId)
    | HandoverRequired(assoc: Assoc, amfId: AmfId, ranId: RanId, typeOk: bool, keyOk: bool, target: GnbId)
    | HandoverAck(assoc: Assoc, amfId: AmfId, ranId: RanId)
    | HandoverNotify(assoc: Assoc, amfId: AmfId, ranId: RanId, hasLocation: bool)
    | ReleaseComplete(assoc: Assoc, amfId: AmfId, ranId: RanId)
    | NasAttach(ranId: RanId, amfId: AmfId, supi: Supi, newNas: NasRecord)
    | GutiRebind(ranId: RanId, amfId: AmfId, record: NasRecord)
    | Restore(ids: Ids, newNas: NasRecord, made: Option<NgapContext>)
    | Deregister(amfId: AmfId)
    | NgReset(assoc: Assoc, order: seq<NgapContext>)
    | NgShutdown(assoc: Assoc, order: seq<NgapContext>)

  function NgapOf(s: State, u: NgapContext): Ngap {
    if u in s.ngap then s.ngap[u] else Ngap(0, None, 0, NotConnected, 0, 0, NoCause, 0)
  }

  function UeOf(s: State, c: UeContext): Ue {
    if c in s.ue then s.ue[c] else Ue(0, 0, 0)
  }

  function NasOf(s: State, r: NasRecord): Nas {
    if r in s.nas then s.nas[r] else Nas(0, 0, 0, CmIdle)
  }

  // ---------------------------------------------------------------- the procedures

  /** A new SCTP association gets a gNB context; its gNB id and state before NG Setup are what they are. */
  function OnNewAssociation(s: State, assoc: Assoc, g: Gnb): State {
    if assoc in s.gnbs then s else s.(gnbs := s.gnbs[assoc := g])
  }

  const AMF_ID_MASK: nat := 0x1_0000_0000

  /** Initial UE Message, N2 part. A resetting or stopping association is only warned about. */
  function OnInitialUe(s: State, assoc: Assoc, ranId: RanId, newNgap: NgapContext): State
  {
    if assoc !in s.gnbs || s.gnbs[assoc].state == Unready then s
    else
      var key := (ranId, s.gnbs[assoc].id);
      if key in s.byRan then
        var u := s.byRan[key];
        s.(ngap := s.ngap[u := NgapOf(s, u).(ranId := ranId, assoc := assoc)])
      else
        s.(byRan := s.byRan[key := newNgap],
           ngap := s.ngap[newNgap := Ngap(ranId, None, assoc, NotConnected, 0, 0, NoCause, 0)])
  }

  /** The AMF id that generate_amf_ue_ngap_id returns next. */
  function NextAmfId(s: State): AmfId {
    s.nextAmfId % AMF_ID_MASK
  }

  /** NAS signalling establishment, UE context part: found under the new key, or created. */
  function EstablishUe(s: State, ranId: RanId, gnbId: GnbId, newUe: UeContext): State {
    var key := (ranId, NextAmfId(s));
    var c := if key in s.byUeKey then s.byUeKey[key] else newUe;
    s.(nextAmfId := s.nextAmfId + 1,
       byUeKey := s.byUeKey[key := c],
       ue := s.ue[c := Ue(ranId, key.1, gnbId)])
  }

  /** NAS signalling establishment: a new AMF id is drawn and both contexts receive it. */
  function OnEstablish(s: State, ranId: RanId, gnbId: GnbId, newUe: UeContext): State {
    var s' := EstablishUe(s, ranId, gnbId, newUe);
    if (ranId, gnbId) !in s.byRan then s'
    else
      var u := s.byRan[(ranId, gnbId)];
      s'.(byAmf := s'.byAmf[NextAmfId(s) := u],
          ngap := s'.ngap[u := NgapOf(s, u).(amfId := Some(NextAmfId(s)))])
  }

  /** The NGAP context that the lookup through the UE context key finds. */
  function ViaUeKey(s: State, key: UeKey): Option<NgapContext>
  {
    if key !in s.byUeKey then None
    else
      var k := (key.0, UeOf(s, s.byUeKey[key]).gnbId);
      if k in s.byRan then Some(s.byRan[k]) else None
  }

  function OnDlNas(s: State, ranId: RanId, amfId: AmfId): State
  {
    match ViaUeKey(s, (ranId, amfId))
    case None => s
    case Some(u) =>
      if NgapOf(s, u).assoc !in s.gnbs then s
      else
        s.(byAmf := s.byAmf[amfId := u],
           ngap := s.ngap[u := NgapOf(s, u).(amfId := Some(amfId), state := Connected)])
  }

  predicate RequiredAccepted(s: State, assoc: Assoc, amfId: AmfId, ranId: RanId, typeOk: bool)
  {
    && assoc in s.gnbs
    && (ranId, s.gnbs[assoc].id) in s.byRan
    && NgapOf(s, s.byRan[(ranId, s.gnbs[assoc].id)]).amfId == Some(amfId)
    && typeOk
  }

  function OnHandoverRequired(s: State, assoc: Assoc, amfId: AmfId, ranId: RanId,
                              typeOk: bool, keyOk: bool, target: GnbId): State
  {
    if !RequiredAccepted(s, assoc, amfId, ranId, typeOk) then s
    else
      var u := s.byRan[(ranId, s.gnbs[assoc].id)];
      var n := NgapOf(s, u).(assoc := assoc, state := InHandover);
      if amfId in s.nasByAmf && keyOk && target in s.assocOf
      then s.(ngap := s.ngap[u := n.(targetAssoc := s.assocOf[target])])
      else s.(ngap := s.ngap[u := n])
  }

  function OnHandoverAck(s: State, assoc: Assoc, amfId: AmfId, ranId: RanId): State
  {
    if assoc !in s.gnbs || amfId !in s.byAmf then s
    else
      var u := s.byAmf[amfId];
      s.(ngap := s.ngap[u := NgapOf(s, u).(targetRanId := ranId)])
  }

  /** Handover Notify dereferences the UE context it looked up, so it has an effect only
      where that context exists. */
  predicate NotifyAccepted(s: State, assoc: Assoc, amfId: AmfId, hasLocation: bool)
  {
    && assoc in s.gnbs && amfId in s.byAmf && hasLocation && amfId in s.nasByAmf
    && (NgapOf(s, s.byAmf[amfId]).ranId, amfId) in s.byUeKey
  }

  function OnHandoverNotify(s: State, assoc: Assoc, amfId: AmfId, ranId: RanId, hasLocation: bool): State
  {
    if !NotifyAccepted(s, assoc, amfId, hasLocation) then s
    else
      var u := s.byAmf[amfId];
      var c := s.byUeKey[(NgapOf(s, u).ranId, amfId)];
      var r := s.nasByAmf[amfId];
      var gnbId := s.gnbs[assoc].id;
      s.(ngap := s.ngap[u := NgapOf(s, u).(cause := SuccessfulHandover, releaseGnb := NgapOf(s, u).assoc,
                                        ranId := ranId, targetRanId := 0, state := Connected, assoc := assoc)],
         byRan := s.byRan[(ranId, gnbId) := u],
         nas := s.nas[r := NasOf(s, r).(ranId := ranId)],
         ue := s.ue[c := UeOf(s, c).(ranId := ranId, gnbId := gnbId)],
         byUeKey := s.byUeKey[(ranId, amfId) := c])
  }

  datatype ReleaseBranch = Ignored | HandoverRelease | OldContext | ToIdle

  /** Which way UE Context Release Complete goes. */
  function ReleaseBranchOf(s: State, assoc: Assoc, amfId: AmfId, ranId: RanId): ReleaseBranch
  {
    if (ranId, amfId) !in s.byUeKey || amfId !in s.byAmf || assoc !in s.gnbs then Ignored
    else if NgapOf(s, s.byAmf[amfId]).cause == SuccessfulHandover && assoc == NgapOf(s, s.byAmf[amfId]).releaseGnb then
      HandoverRelease
    else if amfId !in s.nasByAmf then Ignored
    else
      var supi := NasOf(s, s.nasByAmf[amfId]).supi;
      if supi in s.amfBySupi && s.amfBySupi[supi] == amfId then ToIdle else OldContext
  }

  function OnReleaseComplete(s: State, assoc: Assoc, amfId: AmfId, ranId: RanId): State
  {
    var branch := ReleaseBranchOf(s, assoc, amfId, ranId);
    if branch == Ignored then s
    else
      var byRan := Without(s.byRan, (ranId, s.gnbs[assoc].id));
      if branch == HandoverRelease then
        var u := s.byAmf[amfId];
        s.(byRan := byRan, ngap := s.ngap[u := NgapOf(s, u).(cause := NoCause)])
      else
        var r := s.nasByAmf[amfId];
        s.(byRan := byRan, byAmf := Without(s.byAmf, amfId),
           nas := if branch == ToIdle then s.nas[r := NasOf(s, r).(cm := CmIdle)] else s.nas)
  }

  /** A new NAS context for this AMF id, then registration with a SUCI that names `supi`. */
  function OnNasAttach(s: State, ranId: RanId, amfId: AmfId, supi: Supi, newNas: NasRecord): State {
    s.(nasByAmf := s.nasByAmf[amfId := newNas],
       nasBySupi := s.nasBySupi[supi := newNas],
       amfBySupi := s.amfBySupi[supi := amfId],
       nas := s.nas[newNas := Nas(ranId, amfId, supi, CmConnected)])
  }

  /** A GUTI in an Initial UE Message leads to a NAS record, which takes the new ids and is entered under them; its
      entry under the AMF id it had before stays. */
  function OnGutiRebind(s: State, ranId: RanId, amfId: AmfId, r: NasRecord): State {
    if r !in s.nas then s
    else
      s.(nas := s.nas[r := NasOf(s, r).(ranId := ranId, amfId := amfId)],
         nasByAmf := s.nasByAmf[amfId := r],
         nasBySupi := s.nasBySupi[NasOf(s, r).supi := r],
         amfBySupi := s.amfBySupi[NasOf(s, r).supi := amfId])
  }

  /** The key under which a restored NGAP context is stored: the association takes the place of the RAN id, and the
      RAN id that of the gNB id. */
  function RestoreKey(i: Ids): RanKey {
    (i.assoc % 0x1_0000_0000, i.ranId % 0x1_0000_0000)
  }

  /** The record that the SUPI leads to, or a new one. */
  function RestoredRecord(s: State, i: Ids, r0: NasRecord): NasRecord {
    if i.supi in s.nasBySupi then s.nasBySupi[i.supi] else r0
  }

  function RestoredNgap(i: Ids): Ngap {
    Ngap(i.ranId, Some(i.amfId), i.assoc, NotConnected, i.targetRanId, i.targetAssoc, NoCause, 0)
  }

  /** A record that is made is entered under its SUPI, and under its AMF id unless that is 0. */
  function RecordsEntered(s: State, i: Ids, r0: NasRecord): map<AmfId, NasRecord> {
    if i.supi !in s.nasBySupi && i.amfId != 0 then s.nasByAmf[i.amfId := r0] else s.nasByAmf
  }

  /** A UE context found under the ids takes them; one that is made is entered nowhere. */
  function UesRestored(s: State, i: Ids): map<UeContext, Ue> {
    if (i.ranId, i.amfId) in s.byUeKey then
      var c := s.byUeKey[(i.ranId, i.amfId)];
      s.ue[c := UeOf(s, c).(ranId := i.ranId, amfId := i.amfId)]
    else s.ue
  }

  /** The first part of a restore, and the whole of one whose keys do not decode: the NAS record takes the ids. */
  function WithRecord(s: State, i: Ids, r0: NasRecord): State {
    var r := RestoredRecord(s, i, r0);
    s.(nasBySupi := s.nasBySupi[i.supi := r], nasByAmf := RecordsEntered(s, i, r0),
       nas := s.nas[r := Nas(i.ranId, i.amfId, i.supi, NasOf(s, r).cm)])
  }

  /** A restore whose keys decode: the record is connected and the NGAP context stored. */
  function OnRestore(s: State, i: Ids, r0: NasRecord, u0: NgapContext): State {
    var r := RestoredRecord(s, i, r0);
    s.(nasBySupi := s.nasBySupi[i.supi := r], nasByAmf := RecordsEntered(s, i, r0),
       nas := s.nas[r := Nas(i.ranId, i.amfId, i.supi, CmConnected)], ue := UesRestored(s, i),
       ngap := s.ngap[u0 := RestoredNgap(i)], byAmf := s.byAmf[i.amfId := u0], byRan := s.byRan[RestoreKey(i) := u0],
       amfBySupi := s.amfBySupi[i.supi := i.amfId])
  }

  /** UE-initiated de-registration: the NAS record leaves both of its tables. */
  function OnDeregister(s: State, amfId: AmfId): State
  {
    WithoutNas(s, amfId)
  }

  /** The NAS record of an AMF id leaves both NAS tables, if there is one. */
  function WithoutNas(s: State, a: AmfId): State
  {
    if a !in s.nasByAmf then s
    else s.(nasBySupi := Without(s.nasBySupi, NasOf(s, s.nasByAmf[a]).supi), nasByAmf := Without(s.nasByAmf, a))
  }

  /** remove_ue_context_with_amf_ue_ngap_id, with its early return when the UE context
      of the NAS record's own RAN id is missing. */
  function RemoveByAmf(s: State, amfId: Option<AmfId>): (r: State)
    ensures r.gnbs == s.gnbs && r.assocOf == s.assocOf
  {
    if amfId.None? then s
    else
      var a := amfId.value;
      var s' := WithoutNas(s, a);
      if a !in s.nasByAmf then s'.(byAmf := Without(s'.byAmf, a))
      else
        var key := (NasOf(s, s.nasByAmf[a]).ranId, a);
        if key !in s.byUeKey then s'
        else s'.(byRan := Without(s'.byRan, (key.0, UeOf(s, s.byUeKey[key]).gnbId)), byAmf := Without(s'.byAmf, a))
  }

  /** remove_ue_context_with_ran_ue_ngap_id */
  function RemoveByRan(s: State, ranId: RanId, gnbId: GnbId): (r: State)
    ensures r.gnbs == s.gnbs && r.assocOf == s.assocOf
  {
    if (ranId, gnbId) !in s.byRan then s
    else
      var id := NgapOf(s, s.byRan[(ranId, gnbId)]).amfId;
      var s' := s.(byRan := Without(s.byRan, (ranId, gnbId)));
      if id.None? then s'
      else
        var s'' := WithoutNas(s', id.value);
        s''.(byAmf := Without(s''.byAmf, id.value))
  }

  /** The two removals that NG Reset, NG Shutdown and NG Setup make for one listed context. */
  function RemoveListed(s: State, u: NgapContext, gnbId: GnbId): State
  {
    RemoveByRan(RemoveByAmf(s, NgapOf(s, u).amfId), NgapOf(s, u).ranId, gnbId)
  }

  function RemoveAllListed(s: State, order: seq<NgapContext>, gnbId: GnbId): (r: State)
    ensures r.gnbs == s.gnbs && r.assocOf == s.assocOf
    decreases |order|
  {
    if order == [] then s
    else RemoveAllListed(RemoveListed(s, order[0], gnbId), order[1..], gnbId)
  }

  /** `order` is a possible answer of get_ue_ngap_contexts for this association. */
  ghost predicate Lists(s: State, assoc: Assoc, order: seq<NgapContext>)
  {
    && (forall u | u in order :: NgapOf(s, u).assoc == assoc && exists k :: k in s.byRan && s.byRan[k] == u)
    && (forall k | k in s.byRan && NgapOf(s, s.byRan[k]).assoc == assoc :: s.byRan[k] in order)
  }

  /** The gNB context of an association takes a gNB id. */
  function WithGnbId(s: State, assoc: Assoc, gnbId: GnbId): State
    requires assoc in s.gnbs
  {
    s.(gnbs := s.gnbs[assoc := s.gnbs[assoc].(id := gnbId)])
  }

  /** What the removals of NG Setup start from. */
  function SettingUp(s: State, assoc: Assoc, gnbId: GnbId): State
    requires assoc in s.gnbs
  {
    WithGnbId(s, assoc, gnbId).(assocOf := s.assocOf[gnbId := assoc])
  }

  /** A response that encodes makes the gNB ready. */
  function SetupAnswered(s: State, assoc: Assoc, gnbId: GnbId, encodes: bool): State {
    if encodes then s.(gnbs := s.gnbs[assoc := Gnb(gnbId, Ready)]) else s
  }

  function OnNgSetup(s: State, assoc: Assoc, gnbId: GnbId, setup: Setup, order: seq<NgapContext>): State {
    if assoc !in s.gnbs then s
    else
      match setup
      case Malformed => s
      case Refused => WithGnbId(s, assoc, gnbId)
      case Retained(encodes) => SetupAnswered(SettingUp(s, assoc, gnbId), assoc, gnbId, encodes)
      case Released(encodes) =>
        SetupAnswered(RemoveAllListed(SettingUp(s, assoc, gnbId), order, gnbId), assoc, gnbId, encodes)
  }

  function OnNgReset(s: State, assoc: Assoc, order: seq<NgapContext>): State
  {
    if assoc !in s.gnbs then s
    else RemoveAllListed(s.(gnbs := s.gnbs[assoc := s.gnbs[assoc].(state := Resetting)]),
                         order, s.gnbs[assoc].id)
  }

  function OnNgShutdown(s: State, assoc: Assoc, order: seq<NgapContext>): State
  {
    if assoc !in s.gnbs then s
    else
      var s' := RemoveAllListed(s, order, s.gnbs[assoc].id);
      s'.(gnbs := Without(s'.gnbs, assoc))
  }

  // ---------------------------------------------------------------- invariants

  /** Every table entry names an object the state knows. */
  predicate TablesClosed(s: State) {
    && (forall k | k in s.byRan :: s.byRan[k] in s.ngap)
    && (forall a | a in s.byAmf :: s.byAmf[a] in s.ngap)
    && (forall k | k in s.byUeKey :: s.byUeKey[k] in s.ue)
    && (forall a | a in s.nasByAmf :: s.nasByAmf[a] in s.nas)
    && (forall x | x in s.nasBySupi :: s.nasBySupi[x] in s.nas)
  }

  /** The association this context is on has a gNB. */
  predicate Served(s: State, u: NgapContext) {
    NgapOf(s, u).assoc in s.gnbs
  }

  /** The RAN-index key that the fields of a served context spell. */
  function HomeKey(s: State, u: NgapContext): RanKey {
    (NgapOf(s, u).ranId, if Served(s, u) then s.gnbs[NgapOf(s, u).assoc].id else 0)
  }

  /** The entry's stored ids match its key. */
  predicate IsHome(s: State, k: RanKey) {
    k in s.byRan && Served(s, s.byRan[k]) && HomeKey(s, s.byRan[k]) == k
  }

  /** An entry left behind at the source of a completed handover: its context has moved on, and
      the release of the source is still awaited. */
  predicate IsStale(s: State, k: RanKey) {
    && k in s.byRan && Served(s, s.byRan[k]) && HomeKey(s, s.byRan[k]) != k
    && var n := NgapOf(s, s.byRan[k]);
    && n.cause == SuccessfulHandover
    && (n.releaseGnb in s.gnbs ==> s.gnbs[n.releaseGnb].id == k.1)
    && n.amfId.Some?
    && (k.0, n.amfId.value) in s.byUeKey && (n.ranId, n.amfId.value) in s.byUeKey
    && s.byUeKey[(k.0, n.amfId.value)] == s.byUeKey[(n.ranId, n.amfId.value)]
  }

  /** The three lookups of one AMF id agree. */
  predicate AmfAgrees(s: State, a: AmfId)
  {
    && a in s.byAmf
    && var u := s.byAmf[a];
    && NgapOf(s, u).amfId == Some(a)
    && Served(s, u)
    && HomeKey(s, u) in s.byRan && s.byRan[HomeKey(s, u)] == u
    && (NgapOf(s, u).ranId, a) in s.byUeKey
    && UeOf(s, s.byUeKey[(NgapOf(s, u).ranId, a)]).gnbId == HomeKey(s, u).1
  }

  /** One RAN-index entry is home or stale, and an assigned AMF id leads back to its context. */
  predicate RanAgrees(s: State, k: RanKey)
  {
    && k in s.byRan
    && (IsHome(s, k) || IsStale(s, k))
    && var id := NgapOf(s, s.byRan[k]).amfId;
    && (id.Some? ==> id.value in s.byAmf && s.byAmf[id.value] == s.byRan[k])
  }

  /** Two entries that the same context left behind. */
  predicate LeftBehindTwice(s: State, k1: RanKey, k2: RanKey) {
    IsStale(s, k1) && IsStale(s, k2) && s.byRan[k1] == s.byRan[k2]
  }

  /** Two keys that name the same UE context. */
  predicate SharesUe(s: State, k1: UeKey, k2: UeKey) {
    k1 in s.byUeKey && k2 in s.byUeKey && s.byUeKey[k1] == s.byUeKey[k2]
  }

  ghost predicate OneStalePerUe(s: State) {
    forall k1, k2 {:trigger LeftBehindTwice(s, k1, k2)} :: LeftBehindTwice(s, k1, k2) ==> k1 == k2
  }

  ghost predicate UeContextsPerAmfId(s: State) {
    forall k1, k2 {:trigger SharesUe(s, k1, k2)} :: SharesUe(s, k1, k2) ==> k1.1 == k2.1
  }

  /** The index tables agree, but for at most one awaited handover release per UE. */
  ghost predicate Agreed(s: State) {
    && TablesClosed(s)
    && (forall a {:trigger AmfAgrees(s, a)} :: a in s.byAmf ==> AmfAgrees(s, a))
    && (forall k {:trigger RanAgrees(s, k)} :: k in s.byRan ==> RanAgrees(s, k))
    && OneStalePerUe(s)
    && UeContextsPerAmfId(s)
  }

  /** No handover release is awaited. */
  ghost predicate Settled(s: State) {
    forall k | k in s.byRan :: IsHome(s, k)
  }
}
