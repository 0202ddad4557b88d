/** Agreement over whole runs of the procedures, and what the procedures achieve. */
module Runs {
  import opened Contexts
  import opened Registry
  import opened Agreement
  import opened Teardown
  import opened Restore

  function Step(s: State, e: Event): State {
    match e
    case NewAssociation(assoc, g) => OnNewAssociation(s, assoc, g)
    case NgSetup(assoc, gnbId, setup, order) => OnNgSetup(s, assoc, gnbId, setup, order)
    case InitialUe(assoc, ranId, u0) => OnInitialUe(s, assoc, ranId, u0)
    case Establish(ranId, gnbId, c0) => OnEstablish(s, ranId, gnbId, c0)
    case DlNas(ranId, a) => OnDlNas(s, ranId, a)
    case HandoverRequired(assoc, a, ranId, typeOk, keyOk, target) =>
      OnHandoverRequired(s, assoc, a, ranId, typeOk, keyOk, target)
    case HandoverAck(assoc, a, ranId) => OnHandoverAck(s, assoc, a, ranId)
    case HandoverNotify(assoc, a, ranId, hasLocation) => OnHandoverNotify(s, assoc, a, ranId, hasLocation)
    case ReleaseComplete(assoc, a, ranId) => OnReleaseComplete(s, assoc, a, ranId)
    case NasAttach(ranId, a, supi, n0) => OnNasAttach(s, ranId, a, supi, n0)
    case GutiRebind(ranId, a, r) => OnGutiRebind(s, ranId, a, r)
    case Restore(i, r0, made) => if made.None? then WithRecord(s, i, r0) else OnRestore(s, i, r0, made.value)
    case Deregister(a) => OnDeregister(s, a)
    case NgReset(assoc, order) => OnNgReset(s, assoc, order)
    case NgShutdown(assoc, order) => OnNgShutdown(s, assoc, order)
  }

  function Run(s: State, es: seq<Event>): State
    decreases |es|
  {
    if es == [] then s else Run(Step(s, es[0]), es[1..])
  }

  /** What the tables say of one AMF id: its NAS record is linked to its RAN id, and the id was drawn from
      the generator.  A record that a GUTI has led to may be entered under several AMF ids. */
  predicate NasFits(s: State, a: AmfId) {
    && NasLinkedAt(s, a)
    && (a in s.nasByAmf || a in s.byAmf ==> a < s.nextAmfId)
  }

  /** No AMF id but a keeps a live UE whose NAS record is r and whose removal would follow this RAN id. */
  ghost predicate LinkedElsewhere(s: State, r: NasRecord, a: AmfId, ranId: RanId) {
    forall b | b in s.byAmf && b in s.nasByAmf && s.nasByAmf[b] == r && b != a ::
      ranId == NgapOf(s, s.byAmf[b]).ranId || (ranId, b) !in s.byUeKey
  }

  /** A restore leaves the NAS records linked: the record that takes the ids elsewhere, and the one entered under the
      restored AMF id, which was drawn. */
  ghost predicate RestoreLinks(s: State, i: Ids, r0: NasRecord, stored: bool) {
    var r, a, entered := RestoredRecord(s, i, r0), i.amfId, RecordsEntered(s, i, r0);
    && LinkedElsewhere(s, r, a, i.ranId)
    && (i.supi !in s.nasBySupi ==> r0 !in s.nas && (a != 0 ==> a < s.nextAmfId))
    && (a in entered && (stored || a in s.byAmf) ==>
          var ranId := if entered[a] == r then i.ranId else NasOf(s, entered[a]).ranId;
          ranId == (if stored then i.ranId else NgapOf(s, s.byAmf[a]).ranId) || (ranId, a) !in s.byUeKey)
  }

  ghost predicate NasFitsAll(s: State) {
    && s.nextAmfId <= AMF_ID_MASK                 // the generator has not wrapped
    && (forall a {:trigger NasFits(s, a)} :: NasFits(s, a))
    && (forall k | k in s.byUeKey :: k.1 < s.nextAmfId)
  }

  ghost predicate Valid(s: State) {
    Agreed(s) && NasFitsAll(s)
  }

  /** What a run may rely on.  Mostly it is the condition that the lemmas of modules Agreement and Teardown find
      exact; beyond that it keeps NAS records linked to RAN ids, which the teardown loops depend on. */
  ghost predicate Guard(s: State, e: Event) {
    match e
    case NewAssociation(assoc, g) => assoc !in s.gnbs ==> AwaitsOnly(s, assoc, g.id)
    case NgSetup(assoc, gnbId, setup, order) =>
      assoc in s.gnbs && !setup.Malformed? ==>
        && SetupMeets(s, assoc, gnbId, setup)
        && (setup.Released? ==> Lists(s, assoc, order) && (gnbId == s.gnbs[assoc].id || NoClash(s, assoc, gnbId)))
    case InitialUe(assoc, ranId, u0) =>
      InitialUeActs(s, assoc) ==>
        var k := (ranId, s.gnbs[assoc].id);
        if k in s.byRan then IsHome(s, k) else u0 !in s.ngap
    case Establish(ranId, gnbId, c0) =>
      && c0 !in s.ue && s.nextAmfId < AMF_ID_MASK
      && ((ranId, gnbId) in s.byRan ==> NgapOf(s, s.byRan[(ranId, gnbId)]).amfId.None?)
    case DlNas(ranId, a) =>
      var found := ViaUeKey(s, (ranId, a));
      found.Some? ==>
        || NgapOf(s, found.value).amfId == Some(a)
        || (NgapOf(s, found.value).amfId.None? && a !in s.byAmf && a !in s.nasByAmf)
    case HandoverRequired(assoc, a, ranId, typeOk, _, _) =>
      RequiredAccepted(s, assoc, a, ranId, typeOk) ==> ServedBy(s, s.byRan[(ranId, s.gnbs[assoc].id)], assoc)
    case HandoverAck(_, _, _) => true
    case HandoverNotify(assoc, a, ranId, hasLocation) =>
      NotifyAccepted(s, assoc, a, hasLocation) ==>
        && (forall k :: AwaitedInPlace(s, s.byAmf[a], (ranId, s.gnbs[assoc].id), k))
        && (Live(s, (ranId, s.gnbs[assoc].id)) ==> s.byRan[(ranId, s.gnbs[assoc].id)] == s.byAmf[a])
        && LinkedElsewhere(s, s.nasByAmf[a], a, ranId)
    case ReleaseComplete(assoc, a, ranId) =>
      (match ReleaseBranchOf(s, assoc, a, ranId)
       case Ignored => true
       case HandoverRelease =>
         var k := (ranId, s.gnbs[assoc].id);
         !Live(s, k) && forall x :: AwaitedAt(s, s.byAmf[a], x) ==> x == k
       case _ =>
         (ranId, s.gnbs[assoc].id) == HomeKey(s, s.byAmf[a]) && forall x :: !AwaitedAt(s, s.byAmf[a], x))
    case NasAttach(ranId, a, supi, n0) =>
      && n0 !in s.nas && a < s.nextAmfId && a !in s.nasByAmf
      && (a in s.byAmf ==> NgapOf(s, s.byAmf[a]).ranId == ranId)
    case GutiRebind(ranId, a, r) =>
      r in s.nas ==>
        && a < s.nextAmfId && (a in s.byAmf ==> NgapOf(s, s.byAmf[a]).ranId == ranId)
        && LinkedElsewhere(s, r, a, ranId)
    case Restore(i, r0, made) =>
      && RestoreLinks(s, i, r0, made.Some?)
      && (made.Some? ==> made.value !in s.ngap && KeyFits(s, i) && KeyFree(s, i) && OldEntryReplaced(s, i))
    case Deregister(_) => true
    case NgReset(assoc, order) => assoc in s.gnbs ==> Lists(s, assoc, order) && AllHome(s, assoc)
    case NgShutdown(assoc, order) => assoc in s.gnbs ==> Lists(s, assoc, order) && AllHome(s, assoc)
  }

  lemma NasTablesIrrelevant(s: State, s': State)
    requires Agreed(s) && TablesClosed(s')
    requires s'.gnbs == s.gnbs && s'.byRan == s.byRan && s'.byAmf == s.byAmf && s'.byUeKey == s.byUeKey
    requires s'.ngap == s.ngap && s'.ue == s.ue
    ensures Agreed(s')
  {
    forall a | a in s'.byAmf ensures AmfAgrees(s', a) { assert AmfAgrees(s, a); }
    forall k | k in s'.byRan ensures RanAgrees(s', k) { assert RanAgrees(s, k); }
    forall k1, k2 | LeftBehindTwice(s', k1, k2) ensures k1 == k2 { assert LeftBehindTwice(s, k1, k2); }
    SameUeKeys(s, s');
  }

  lemma UndrawnUnused(s: State)
    requires NasFitsAll(s) && s.nextAmfId < AMF_ID_MASK
    ensures NextAmfId(s) == s.nextAmfId && Unused(s, NextAmfId(s))
  {
    assert NasFits(s, s.nextAmfId);
  }

  lemma Linked(s: State)
    requires NasFitsAll(s)
    ensures NasLinked(s)
  {
    forall a ensures NasLinkedAt(s, a) { assert NasFits(s, a); }
  }

  /** What a gNB does for itself: it comes, is set up, resets or goes. */
  predicate AboutGnb(e: Event) {
    e.NewAssociation? || e.NgSetup? || e.NgReset? || e.NgShutdown?
  }

  lemma GnbStepKeepsAgreement(s: State, e: Event)
    requires Valid(s) && Guard(s, e) && AboutGnb(e)
    ensures Agreed(Step(s, e))
  {
    Linked(s);
    match e
    case NewAssociation(assoc, g) => NewAssociationAgreement(s, assoc, g);
    case NgSetup(assoc, gnbId, setup, order) => NgSetupAgreement(s, assoc, gnbId, setup, order);
    case NgReset(assoc, order) => if assoc in s.gnbs { ResetAgreement(s, assoc, order); }
    case NgShutdown(assoc, order) => if assoc in s.gnbs { ShutdownAgreement(s, assoc, order); }
  }

  lemma NasStepKeepsAgreement(s: State, e: Event)
    requires Agreed(s) && (e.NasAttach? || e.GutiRebind? || e.Deregister?)
    ensures Agreed(Step(s, e))
  {
    NasTablesIrrelevant(s, Step(s, e));
  }

  lemma RestoreKeepsAgreement(s: State, i: Ids, r0: NasRecord, made: Option<NgapContext>)
    requires Valid(s) && Guard(s, Restore(i, r0, made))
    ensures Agreed(Step(s, Restore(i, r0, made)))
  {
    if made.None? {
      NasTablesIrrelevant(s, WithRecord(s, i, r0));
    } else {
      RestoreAgreement(s, i, r0, made.value);
    }
  }

  /** A guarded step keeps the index tables in agreement. */
  lemma StepKeepsAgreement(s: State, e: Event)
    requires Valid(s) && Guard(s, e)
    ensures Agreed(Step(s, e))
  {
    match e
    case InitialUe(assoc, ranId, u0) => InitialUeAgreement(s, assoc, ranId, u0);
    case Establish(ranId, gnbId, c0) =>
      UndrawnUnused(s);
      EstablishAgreement(s, ranId, gnbId, c0);
    case DlNas(ranId, a) => DlNasAgreement(s, ranId, a);
    case HandoverRequired(assoc, a, ranId, typeOk, keyOk, target) =>
      HandoverRequiredAgreement(s, assoc, a, ranId, typeOk, keyOk, target);
    case HandoverAck(assoc, a, ranId) => HandoverAckAgreement(s, assoc, a, ranId);
    case HandoverNotify(assoc, a, ranId, hasLocation) => HandoverNotifyAgreement(s, assoc, a, ranId, hasLocation);
    case ReleaseComplete(assoc, a, ranId) =>
      if a in s.byAmf { assert AmfAgrees(s, a); }
      ReleaseCompleteAgreement(s, assoc, a, ranId);
    case Restore(i, r0, made) => RestoreKeepsAgreement(s, i, r0, made);
    case _ => if AboutGnb(e) { GnbStepKeepsAgreement(s, e); } else { NasStepKeepsAgreement(s, e); }
  }

  lemma ResetAgreement(s: State, assoc: Assoc, order: seq<NgapContext>)
    requires Agreed(s) && NasLinked(s) && assoc in s.gnbs && Lists(s, assoc, order)
    ensures Agreed(OnNgReset(s, assoc, order)) <==> AllHome(s, assoc)
  {
    ResetTears(s, assoc, order);
    TornAgreement(ResettingGnb(s, assoc), assoc);
    assert AllHome(ResettingGnb(s, assoc), assoc) <==> AllHome(s, assoc);
  }

  lemma ShutdownAgreement(s: State, assoc: Assoc, order: seq<NgapContext>)
    requires Agreed(s) && NasLinked(s) && assoc in s.gnbs && Lists(s, assoc, order)
    ensures Agreed(OnNgShutdown(s, assoc, order)) <==> AllHome(s, assoc)
  {
    ShutdownTears(s, assoc, order);
    if AllHome(s, assoc) {
      var t := Torn(s, On(s, assoc));
      TornAgreement(s, assoc);
      TornGone(s, t, assoc);
      GnbLeaves(t, assoc);
    } else {
      var k :| k in s.byRan && NgapOf(s, s.byRan[k]).assoc == assoc && !IsHome(s, k);
      assert !RanAgrees(OnNgShutdown(s, assoc, order), k);
    }
  }

  // ------------------------------------------------------- the rest of the invariant

  lemma FitsKept(s: State, s': State, a: AmfId)
    requires NasFits(s, a) && s.nextAmfId <= s'.nextAmfId
    requires a in s'.byAmf ==> a in s.byAmf && NgapOf(s', s'.byAmf[a]).ranId == NgapOf(s, s.byAmf[a]).ranId
    requires a in s'.nasByAmf ==>
               && a in s.nasByAmf && NasOf(s', s'.nasByAmf[a]).ranId == NasOf(s, s.nasByAmf[a]).ranId
               && ((NasOf(s, s.nasByAmf[a]).ranId, a) in s'.byUeKey ==> (NasOf(s, s.nasByAmf[a]).ranId, a) in s.byUeKey)
    ensures NasFits(s', a)
  {
    assert NasLinkedAt(s, a);
  }

  /** A context that no AMF id leads to is written, or one whose RAN id stays. */
  lemma RewriteFits(s: State, byRan: map<RanKey, NgapContext>, u: NgapContext, n: Ngap)
    requires NasFitsAll(s) && (n.ranId == NgapOf(s, u).ranId || (TablesClosed(s) && u !in s.ngap))
    ensures NasFitsAll(s.(byRan := byRan, ngap := s.ngap[u := n]))
  {
    var s' := s.(byRan := byRan, ngap := s.ngap[u := n]);
    forall b ensures NasFits(s', b) { assert NasFits(s, b); FitsKept(s, s', b); }
  }

  lemma InitialUeFits(s: State, assoc: Assoc, ranId: RanId, u0: NgapContext)
    requires Valid(s) && Guard(s, InitialUe(assoc, ranId, u0))
    ensures NasFitsAll(OnInitialUe(s, assoc, ranId, u0))
  {
    if InitialUeActs(s, assoc) {
      var k := (ranId, s.gnbs[assoc].id);
      if k in s.byRan {
        RewriteFits(s, s.byRan, s.byRan[k], NgapOf(s, s.byRan[k]).(ranId := ranId, assoc := assoc));
      } else {
        RewriteFits(s, s.byRan[k := u0], u0, Ngap(ranId, None, assoc, NotConnected, 0, 0, NoCause, 0));
      }
    }
  }

  lemma EstablishUeFits(s: State, ranId: RanId, gnbId: GnbId, c0: UeContext)
    requires NasFitsAll(s) && s.nextAmfId < AMF_ID_MASK
    ensures NasFitsAll(EstablishUe(s, ranId, gnbId, c0))
  {
    UndrawnUnused(s);
    var s' := EstablishUe(s, ranId, gnbId, c0);
    assert s' == s.(nextAmfId := s.nextAmfId + 1, byUeKey := s'.byUeKey, ue := s'.ue);
    forall b ensures NasFits(s', b) { assert NasFits(s, b); FitsKept(s, s', b); }
  }

  lemma AssignFits(s: State, s': State, u: NgapContext, n: Ngap, a: AmfId)
    requires NasFitsAll(s) && s' == s.(byAmf := s.byAmf[a := u], ngap := s.ngap[u := n])
    requires n.ranId == NgapOf(s, u).ranId && a !in s.nasByAmf && a < s.nextAmfId
    ensures NasFitsAll(s')
  {
    forall b ensures NasFits(s', b) {
      assert NasFits(s, b);
      if b != a { FitsKept(s, s', b); }
    }
  }

  lemma EstablishFits(s: State, ranId: RanId, gnbId: GnbId, c0: UeContext)
    requires NasFitsAll(s) && s.nextAmfId < AMF_ID_MASK
    ensures NasFitsAll(OnEstablish(s, ranId, gnbId, c0))
  {
    UndrawnUnused(s);
    EstablishUeFits(s, ranId, gnbId, c0);
    if (ranId, gnbId) in s.byRan {
      var u := s.byRan[(ranId, gnbId)];
      AssignFits(EstablishUe(s, ranId, gnbId, c0), OnEstablish(s, ranId, gnbId, c0), u,
                 NgapOf(s, u).(amfId := Some(s.nextAmfId)), s.nextAmfId);
    }
  }

  lemma DlNasFits(s: State, ranId: RanId, a: AmfId)
    requires Valid(s) && Guard(s, DlNas(ranId, a))
    ensures NasFitsAll(OnDlNas(s, ranId, a))
  {
    var found := ViaUeKey(s, (ranId, a));
    if found.Some? && NgapOf(s, found.value).amfId == Some(a) {
      assert RanAgrees(s, (ranId, UeOf(s, s.byUeKey[(ranId, a)]).gnbId));
    }
    forall b ensures NasFits(OnDlNas(s, ranId, a), b) { assert NasFits(s, b); }
  }

  lemma RequiredFits(s: State, assoc: Assoc, a: AmfId, ranId: RanId, typeOk: bool, keyOk: bool, target: GnbId)
    requires NasFitsAll(s)
    ensures NasFitsAll(OnHandoverRequired(s, assoc, a, ranId, typeOk, keyOk, target))
  {
    if RequiredAccepted(s, assoc, a, ranId, typeOk) {
      var s', u := OnHandoverRequired(s, assoc, a, ranId, typeOk, keyOk, target), s.byRan[(ranId, s.gnbs[assoc].id)];
      RewriteFits(s, s.byRan, u, NgapOf(s', u));
    }
  }

  lemma AckFits(s: State, assoc: Assoc, a: AmfId, ranId: RanId)
    requires NasFitsAll(s)
    ensures NasFitsAll(OnHandoverAck(s, assoc, a, ranId))
  {
    forall b ensures NasFits(OnHandoverAck(s, assoc, a, ranId), b) { assert NasFits(s, b); }
  }

  lemma NotifyFits(s: State, assoc: Assoc, a: AmfId, ranId: RanId, hasLocation: bool)
    requires Valid(s) && Guard(s, HandoverNotify(assoc, a, ranId, hasLocation))
    ensures NasFitsAll(OnHandoverNotify(s, assoc, a, ranId, hasLocation))
  {
    if NotifyAccepted(s, assoc, a, hasLocation) {
      assert NasFits(s, a) && AmfAgrees(s, a);
      forall b ensures NasFits(OnHandoverNotify(s, assoc, a, ranId, hasLocation), b) {
        assert NasFits(s, b);
        if b in s.byAmf { assert AmfAgrees(s, b); }
      }
    }
  }

  /** The entries of one UE leave the NGAP indices, and its NAS record may become idle. */
  lemma RemovalFits(s: State, k: RanKey, a: AmfId, r: NasRecord, cm: CmState)
    requires NasFitsAll(s) && r in s.nas
    ensures NasFitsAll(s.(byRan := Without(s.byRan, k), byAmf := Without(s.byAmf, a),
                          nas := s.nas[r := NasOf(s, r).(cm := cm)]))
  {
    var s' := s.(byRan := Without(s.byRan, k), byAmf := Without(s.byAmf, a), nas := s.nas[r := NasOf(s, r).(cm := cm)]);
    forall b ensures NasFits(s', b) { assert NasFits(s, b); FitsKept(s, s', b); }
  }

  lemma ReleaseFits(s: State, assoc: Assoc, a: AmfId, ranId: RanId)
    requires Valid(s)
    ensures NasFitsAll(OnReleaseComplete(s, assoc, a, ranId))
  {
    match ReleaseBranchOf(s, assoc, a, ranId)
    case Ignored =>
    case HandoverRelease =>
      var u := s.byAmf[a];
      RewriteFits(s, Without(s.byRan, (ranId, s.gnbs[assoc].id)), u, NgapOf(s, u).(cause := NoCause));
    case branch =>
      var r := s.nasByAmf[a];
      RemovalFits(s, (ranId, s.gnbs[assoc].id), a, r, if branch == ToIdle then CmIdle else NasOf(s, r).cm);
      assert s.nas[r := s.nas[r]] == s.nas;
  }

  lemma AttachFits(s: State, ranId: RanId, a: AmfId, supi: Supi, n0: NasRecord)
    requires Valid(s) && Guard(s, NasAttach(ranId, a, supi, n0))
    ensures NasFitsAll(OnNasAttach(s, ranId, a, supi, n0))
  {
    forall b ensures NasFits(OnNasAttach(s, ranId, a, supi, n0), b) { assert NasFits(s, b); }
  }

  lemma RebindFits(s: State, ranId: RanId, a: AmfId, r: NasRecord)
    requires Valid(s) && Guard(s, GutiRebind(ranId, a, r))
    ensures NasFitsAll(OnGutiRebind(s, ranId, a, r))
  {
    forall b ensures NasFits(OnGutiRebind(s, ranId, a, r), b) { assert NasFits(s, b); }
  }

  lemma RecordFits(s: State, i: Ids, r0: NasRecord)
    requires Valid(s) && RestoreLinks(s, i, r0, false)
    ensures NasFitsAll(WithRecord(s, i, r0))
  {
    forall b ensures NasFits(WithRecord(s, i, r0), b) { assert NasFits(s, b); }
  }

  lemma StoredFits(s: State, i: Ids, r0: NasRecord, u0: NgapContext)
    requires Valid(s) && RestoreLinks(s, i, r0, true) && u0 !in s.ngap && (i.ranId, i.amfId) in s.byUeKey
    ensures NasFitsAll(OnRestore(s, i, r0, u0))
  {
    forall b ensures NasFits(OnRestore(s, i, r0, u0), b) { assert NasFits(s, b); }
  }

  lemma RestoreFits(s: State, i: Ids, r0: NasRecord, made: Option<NgapContext>)
    requires Valid(s) && Guard(s, Restore(i, r0, made))
    ensures NasFitsAll(Step(s, Restore(i, r0, made)))
  {
    if made.None? { RecordFits(s, i, r0); } else { StoredFits(s, i, r0, made.value); }
  }

  lemma DeregisterFits(s: State, a: AmfId)
    requires NasFitsAll(s)
    ensures NasFitsAll(OnDeregister(s, a))
  {
    forall b ensures NasFits(OnDeregister(s, a), b) { assert NasFits(s, b); }
  }

  lemma TornFits(s: State, t: State, p: set<NgapContext>)
    requires NasFitsAll(s) && t == Torn(s, p).(gnbs := t.gnbs)
    ensures NasFitsAll(t)
  {
    forall b ensures NasFits(t, b) { assert NasFits(s, b); }
  }

  /** A guarded step keeps the rest of the invariant. */
  lemma StepFits(s: State, e: Event)
    requires Valid(s) && Guard(s, e)
    ensures NasFitsAll(Step(s, e))
  {
    match e
    case NewAssociation(assoc, g) => GnbsFit(s, Step(s, e));
    case NgSetup(assoc, gnbId, setup, order) => SetupFits(s, assoc, gnbId, setup, order);
    case InitialUe(assoc, ranId, u0) => InitialUeFits(s, assoc, ranId, u0);
    case Establish(ranId, gnbId, c0) => EstablishFits(s, ranId, gnbId, c0);
    case DlNas(ranId, a) => DlNasFits(s, ranId, a);
    case HandoverRequired(assoc, a, ranId, typeOk, keyOk, target) =>
      RequiredFits(s, assoc, a, ranId, typeOk, keyOk, target);
    case HandoverAck(assoc, a, ranId) => AckFits(s, assoc, a, ranId);
    case HandoverNotify(assoc, a, ranId, hasLocation) => NotifyFits(s, assoc, a, ranId, hasLocation);
    case ReleaseComplete(assoc, a, ranId) => ReleaseFits(s, assoc, a, ranId);
    case NasAttach(ranId, a, supi, n0) => AttachFits(s, ranId, a, supi, n0);
    case GutiRebind(ranId, a, r) => RebindFits(s, ranId, a, r);
    case Restore(i, r0, made) => RestoreFits(s, i, r0, made);
    case Deregister(a) => DeregisterFits(s, a);
    case NgReset(assoc, order) => ResetFits(s, assoc, order);
    case NgShutdown(assoc, order) => ShutdownFits(s, assoc, order);
  }

  lemma GnbsFit(s: State, s': State)
    requires NasFitsAll(s) && ButForGnbs(s', s)
    ensures NasFitsAll(s')
  {
    forall b ensures NasFits(s', b) { assert NasFits(s, b); }
  }

  lemma SetupFits(s: State, assoc: Assoc, gnbId: GnbId, setup: Setup, order: seq<NgapContext>)
    requires Valid(s) && Guard(s, NgSetup(assoc, gnbId, setup, order))
    ensures NasFitsAll(OnNgSetup(s, assoc, gnbId, setup, order))
  {
    var t := OnNgSetup(s, assoc, gnbId, setup, order);
    if assoc in s.gnbs && setup.Released? {
      Linked(s);
      SetupTears(s, assoc, gnbId, setup, order);
      var s1 := Torn(s, On(s, assoc));
      TornFits(s, s1, On(s, assoc));
      GnbsFit(s1, t);
    } else {
      GnbsFit(s, t);
    }
  }

  lemma ResetFits(s: State, assoc: Assoc, order: seq<NgapContext>)
    requires Valid(s) && (assoc in s.gnbs ==> Lists(s, assoc, order))
    ensures NasFitsAll(OnNgReset(s, assoc, order))
  {
    if assoc in s.gnbs {
      Linked(s);
      ResetTears(s, assoc, order);
      var s' := ResettingGnb(s, assoc);
      forall b ensures NasFits(s', b) { assert NasFits(s, b); }
      TornFits(s', OnNgReset(s, assoc, order), On(s', assoc));
    }
  }

  lemma ShutdownFits(s: State, assoc: Assoc, order: seq<NgapContext>)
    requires Valid(s) && (assoc in s.gnbs ==> Lists(s, assoc, order))
    ensures NasFitsAll(OnNgShutdown(s, assoc, order))
  {
    if assoc in s.gnbs {
      Linked(s);
      ShutdownTears(s, assoc, order);
      TornFits(s, OnNgShutdown(s, assoc, order), On(s, assoc));
    }
  }

  /** A run all of whose steps are guarded. */
  ghost predicate Guarded(s: State, es: seq<Event>)
    decreases |es|
  {
    es == [] || (Guard(s, es[0]) && Guarded(Step(s, es[0]), es[1..]))
  }

  lemma {:induction false} GuardedRunIsValid(s: State, es: seq<Event>)
    requires Valid(s) && Guarded(s, es)
    ensures Valid(Run(s, es))
    decreases |es|
  {
    if es != [] {
      StepKeepsAgreement(s, es[0]);
      StepFits(s, es[0]);
      GuardedRunIsValid(Step(s, es[0]), es[1..]);
    }
  }

  /** Index agreement: after any guarded run, the lookup by AMF id, the lookup by RAN key and the lookup
      through the UE context key find the same context, whose stored ids match its keys. */
  lemma LookupsAgreeAfterRun(s: State, es: seq<Event>, a: AmfId)
    requires Valid(s) && Guarded(s, es)
    ensures var r := Run(s, es);
            a in r.byAmf ==>
              var u := r.byAmf[a]; var key := HomeKey(r, u);
              && Served(r, u) && NgapOf(r, u).amfId == Some(a)
              && key in r.byRan && r.byRan[key] == u
              && ViaUeKey(r, (key.0, a)) == Some(u)
  {
    GuardedRunIsValid(s, es);
    var r := Run(s, es);
    if a in r.byAmf { assert AmfAgrees(r, a); }
  }

  /** The converse for the RAN index: with no handover release awaited, every entry matches its key, and
      an assigned AMF id leads back to it. */
  lemma RanEntriesAgreeAfterRun(s: State, es: seq<Event>, k: RanKey)
    requires Valid(s) && Guarded(s, es) && k in Run(s, es).byRan
    ensures var r := Run(s, es); var u := r.byRan[k];
            && (forall a :: NgapOf(r, u).amfId == Some(a) ==> a in r.byAmf && r.byAmf[a] == u)
            && (IsHome(r, k) || (IsStale(r, k) && forall x :: AwaitedAt(r, u, x) ==> x == k))
  {
    GuardedRunIsValid(s, es);
    var r := Run(s, es);
    assert RanAgrees(r, k);
    forall x | AwaitedAt(r, r.byRan[k], x) && IsStale(r, k) ensures x == k { assert LeftBehindTwice(r, x, k); }
  }

  /** Nothing is known: no association, no gNB, no UE. */
  function Start(): State {
    State(map[], map[], map[], map[], map[], map[], map[], map[], map[], map[], map[], 0)
  }

  /** Tables without UEs are valid, whatever gNBs there are; so is the start of the AMF. */
  lemma StartIsValid(s: State)
    requires s.byRan == map[] && s.byAmf == map[] && s.byUeKey == map[] && s.nasByAmf == map[] && s.nasBySupi == map[]
    requires s.nextAmfId <= AMF_ID_MASK
    ensures Valid(s) && Valid(Start())
  {
    forall a ensures NasFits(s, a) { }
    forall a ensures NasFits(Start(), a) { }
  }

  // ------------------------------------------------------- what procedures achieve

  lemma InitialUeIsStored(s: State, assoc: Assoc, ranId: RanId, u0: NgapContext)
    requires Valid(s) && InitialUeActs(s, assoc) && u0 !in s.ngap && (ranId, s.gnbs[assoc].id) !in s.byRan
    ensures var s1 := OnInitialUe(s, assoc, ranId, u0); var key := (ranId, s.gnbs[assoc].id);
            && Valid(s1) && s1.nextAmfId == s.nextAmfId && s1.ue == s.ue && s1.gnbs == s.gnbs
            && key in s1.byRan && s1.byRan[key] == u0
            && NgapOf(s1, u0) == Ngap(ranId, None, assoc, NotConnected, 0, 0, NoCause, 0)
  {
    StepKeepsAgreement(s, InitialUe(assoc, ranId, u0));
    StepFits(s, InitialUe(assoc, ranId, u0));
  }

  lemma EstablishedIsValid(s: State, k: RanKey, c0: UeContext)
    requires Valid(s) && k in s.byRan && NgapOf(s, s.byRan[k]).amfId.None? && c0 !in s.ue && s.nextAmfId < AMF_ID_MASK
    ensures Valid(OnEstablish(s, k.0, k.1, c0))
  {
    StepKeepsAgreement(s, Establish(k.0, k.1, c0));
    StepFits(s, Establish(k.0, k.1, c0));
  }

  lemma EstablishedIsFound(s: State, k: RanKey, c0: UeContext)
    requires Valid(s) && k in s.byRan && NgapOf(s, s.byRan[k]).amfId.None? && c0 !in s.ue && s.nextAmfId < AMF_ID_MASK
    ensures var r := OnEstablish(s, k.0, k.1, c0); var a := s.nextAmfId; var u := s.byRan[k];
            && r.byRan == s.byRan && a in r.byAmf && r.byAmf[a] == u
            && ViaUeKey(r, (k.0, a)) == Some(u) && NgapOf(r, u) == NgapOf(s, u).(amfId := Some(a))
  {
    UndrawnUnused(s);
  }

  lemma RunTwo(s: State, e: Event, f: Event)
    ensures Run(s, [e, f]) == Step(Step(s, e), f)
  {
    assert [e, f][1..] == [f] && [f][1..] == [];
    assert Run(Step(s, e), [f]) == Run(Step(Step(s, e), f), []);
  }

  lemma FirstContactSteps(s: State, assoc: Assoc, ranId: RanId, u0: NgapContext, c0: UeContext)
    requires Valid(s) && InitialUeActs(s, assoc) && s.nextAmfId < AMF_ID_MASK && u0 !in s.ngap && c0 !in s.ue
    requires (ranId, s.gnbs[assoc].id) !in s.byRan
    ensures var key := (ranId, s.gnbs[assoc].id);
            FoundThrice(OnEstablish(OnInitialUe(s, assoc, ranId, u0), ranId, key.1, c0), key, s.nextAmfId, u0, assoc)
  {
    InitialUeIsStored(s, assoc, ranId, u0);
    EstablishedIsValid(OnInitialUe(s, assoc, ranId, u0), (ranId, s.gnbs[assoc].id), c0);
    EstablishedIsFound(OnInitialUe(s, assoc, ranId, u0), (ranId, s.gnbs[assoc].id), c0);
  }

  /** All three lookups find the context u, new and on this association. */
  ghost predicate FoundThrice(r: State, key: RanKey, a: AmfId, u: NgapContext, assoc: Assoc) {
    && Valid(r) && key in r.byRan && r.byRan[key] == u && a in r.byAmf && r.byAmf[a] == u
    && ViaUeKey(r, (key.0, a)) == Some(u)
    && NgapOf(r, u) == Ngap(key.0, Some(a), assoc, NotConnected, 0, 0, NoCause, 0)
  }

  /** First contact: after the Initial UE Message of a UE with a RAN id that is not in use, and the assignment of its
      AMF id, each of the three lookups finds the UE's one new context, with that RAN id, AMF id and association. */
  lemma FirstContact(s: State, assoc: Assoc, ranId: RanId, u0: NgapContext, c0: UeContext)
    requires Valid(s) && InitialUeActs(s, assoc) && s.nextAmfId < AMF_ID_MASK && u0 !in s.ngap && c0 !in s.ue
    requires (ranId, s.gnbs[assoc].id) !in s.byRan
    ensures var key := (ranId, s.gnbs[assoc].id);
            FoundThrice(Run(s, [InitialUe(assoc, ranId, u0), Establish(ranId, key.1, c0)]), key, s.nextAmfId, u0, assoc)
  {
    FirstContactSteps(s, assoc, ranId, u0, c0);
    FirstContactRun(s, assoc, ranId, s.gnbs[assoc].id, u0, c0);
  }

  lemma FirstContactRun(s: State, assoc: Assoc, ranId: RanId, gnbId: GnbId, u0: NgapContext, c0: UeContext)
    ensures Run(s, [InitialUe(assoc, ranId, u0), Establish(ranId, gnbId, c0)])
         == OnEstablish(OnInitialUe(s, assoc, ranId, u0), ranId, gnbId, c0)
  {
    RunTwo(s, InitialUe(assoc, ranId, u0), Establish(ranId, gnbId, c0));
  }

  /** A release that is not that of a handover source takes the UE out of both NGAP indices, and makes it idle exactly
      where its SUPI leads to the AMF id released. */
  lemma ReleasedUeIsGone(s: State, assoc: Assoc, a: AmfId, ranId: RanId)
    requires Valid(s) && Guard(s, ReleaseComplete(assoc, a, ranId))
    requires ReleaseBranchOf(s, assoc, a, ranId) in {OldContext, ToIdle}
    ensures var r := OnReleaseComplete(s, assoc, a, ranId); var u := s.byAmf[a]; var n := s.nasByAmf[a];
            && (forall k | k in r.byRan :: r.byRan[k] != u) && (forall b | b in r.byAmf :: r.byAmf[b] != u)
            && NasOf(r, n).cm == (if ReleaseBranchOf(s, assoc, a, ranId) == ToIdle then CmIdle else NasOf(s, n).cm)
            && (ReleaseBranchOf(s, assoc, a, ranId) == ToIdle <==>
                NasOf(s, n).supi in s.amfBySupi && s.amfBySupi[NasOf(s, n).supi] == a)
  {
    var u := s.byAmf[a];
    assert AmfAgrees(s, a);
    forall k | k in s.byRan && s.byRan[k] == u ensures k == HomeKey(s, u) {
      assert RanAgrees(s, k) && !AwaitedAt(s, u, k);
    }
    forall b | b in s.byAmf && s.byAmf[b] == u ensures b == a { assert AmfAgrees(s, b); }
  }
}
