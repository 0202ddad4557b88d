/** The N2 handover of one UE, interleaved with whatever other UEs do. */
module Handover {
  import opened Contexts
  import opened Registry
  import opened Agreement
  import opened Teardown
  import opened Runs

  /** A RAN-index entry of context u. */
  predicate EntryOf(s: State, k: RanKey, u: NgapContext) {
    k in s.byRan && s.byRan[k] == u
  }

  /** The UE with context u and AMF id a, between the gNBs of associations src and tgt. */
  datatype Mover = Mover(u: NgapContext, a: AmfId, src: Assoc, tgt: Assoc)

  predicate Present(s: State, m: Mover) {
    && m.a in s.byAmf && s.byAmf[m.a] == m.u && m.a in s.nasByAmf
    && m.src in s.gnbs && m.tgt in s.gnbs
  }

  predicate SameGnb(s: State, s': State, g: Assoc) {
    g in s.gnbs ==> g in s'.gnbs && s'.gnbs[g].id == s.gnbs[g].id
  }

  /** Nothing that concerns the mover has changed. */
  ghost predicate Untouched(s: State, s': State, m: Mover)
    requires Present(s, m)
  {
    && Present(s', m)
    && NgapOf(s', m.u) == NgapOf(s, m.u)
    && (forall k {:trigger EntryOf(s', k, m.u)} :: EntryOf(s', k, m.u) <==> EntryOf(s, k, m.u))
    && s'.nasByAmf[m.a] == s.nasByAmf[m.a]
    && NasOf(s', s'.nasByAmf[m.a]) == NasOf(s, s.nasByAmf[m.a])
    && (forall r :: (r, m.a) in s.byUeKey ==> (r, m.a) in s'.byUeKey)
    && SameGnb(s, s', m.src) && SameGnb(s, s', m.tgt)
  }

  /** The AMF id leads to the mover's NAS record. */
  predicate SameRecord(s: State, a: AmfId, m: Mover)
    requires Present(s, m)
  {
    a in s.nasByAmf && s.nasByAmf[a] == s.nasByAmf[m.a]
  }

  /** An entry of the mover answers to this RAN id on this association. */
  predicate AnswersTo(s: State, assoc: Assoc, ranId: RanId, m: Mover) {
    assoc in s.gnbs && EntryOf(s, (ranId, s.gnbs[assoc].id), m.u)
  }

  /** The event is about another UE and another NAS record, and neither takes the mover's gNBs away, nor gives
      them another gNB id, nor gives up the UEs of the one that serves the mover. */
  ghost predicate Foreign(s: State, e: Event, m: Mover)
    requires Present(s, m)
  {
    match e
    case NewAssociation(_, _) => true
    case NgSetup(assoc, gnbId, _, _) =>
      assoc != NgapOf(s, m.u).assoc && (assoc in {m.src, m.tgt} ==> gnbId == s.gnbs[assoc].id)
    case InitialUe(assoc, ranId, _) => !AnswersTo(s, assoc, ranId, m)
    case Establish(ranId, gnbId, _) => !EntryOf(s, (ranId, gnbId), m.u)
    case DlNas(ranId, a) => ViaUeKey(s, (ranId, a)) != Some(m.u)
    case HandoverRequired(assoc, a, ranId, _, _, _) => !AnswersTo(s, assoc, ranId, m)
    case HandoverAck(_, a, _) => a != m.a
    case HandoverNotify(assoc, a, ranId, _) => !SameRecord(s, a, m) && a != m.a && !AnswersTo(s, assoc, ranId, m)
    case ReleaseComplete(assoc, a, ranId) => !SameRecord(s, a, m) && a != m.a && !AnswersTo(s, assoc, ranId, m)
    case NasAttach(_, a, _, _) => a != m.a
    case GutiRebind(_, a, r) => a != m.a && r != s.nasByAmf[m.a]
    case Restore(i, r0, _) =>
      i.amfId != m.a && RestoredRecord(s, i, r0) != s.nasByAmf[m.a] && !EntryOf(s, RestoreKey(i), m.u)
    case Deregister(a) => a != m.a
    case NgReset(assoc, _) => assoc != NgapOf(s, m.u).assoc
    case NgShutdown(assoc, _) => assoc !in {m.src, m.tgt, NgapOf(s, m.u).assoc}
  }

  lemma ForeignRewrite(s: State, s': State, m: Mover, v: NgapContext, n: Ngap)
    requires Present(s, m) && v != m.u && s' == s.(ngap := s.ngap[v := n])
    ensures Untouched(s, s', m)
  {
  }

  lemma ForeignInitialUe(s: State, assoc: Assoc, ranId: RanId, u0: NgapContext, m: Mover)
    requires TablesClosed(s) && Present(s, m) && !AnswersTo(s, assoc, ranId, m)
    requires InitialUeActs(s, assoc) && (ranId, s.gnbs[assoc].id) !in s.byRan ==> u0 !in s.ngap
    ensures Untouched(s, OnInitialUe(s, assoc, ranId, u0), m)
  {
    assert m.u in s.ngap;
  }

  lemma ForeignEstablish(s: State, e: Event, m: Mover)
    requires Valid(s) && Guard(s, e) && Present(s, m) && Foreign(s, e, m) && e.Establish?
    ensures Untouched(s, Step(s, e), m)
  {
    UndrawnUnused(s);
  }

  lemma ForeignDlNas(s: State, e: Event, m: Mover)
    requires Valid(s) && Guard(s, e) && Present(s, m) && Foreign(s, e, m) && e.DlNas?
    ensures Untouched(s, Step(s, e), m)
  {
    var found := ViaUeKey(s, (e.ranId, e.amfId));
    if found.Some? {
      assert RanAgrees(s, (e.ranId, UeOf(s, s.byUeKey[(e.ranId, e.amfId)]).gnbId));
      assert e.amfId != m.a;
    }
  }

  lemma ForeignRequired(s: State, e: Event, m: Mover)
    requires Present(s, m) && Foreign(s, e, m) && e.HandoverRequired?
    ensures Untouched(s, Step(s, e), m)
  {
    if RequiredAccepted(s, e.assoc, e.amfId, e.ranId, e.typeOk) {
      var v := s.byRan[(e.ranId, s.gnbs[e.assoc].id)];
      ForeignRewrite(s, Step(s, e), m, v, NgapOf(Step(s, e), v));
    }
  }

  lemma ForeignAck(s: State, e: Event, m: Mover)
    requires Valid(s) && Present(s, m) && Foreign(s, e, m) && e.HandoverAck?
    ensures Untouched(s, Step(s, e), m)
  {
    if e.amfId in s.byAmf {
      assert AmfAgrees(s, e.amfId) && AmfAgrees(s, m.a);
      if e.assoc in s.gnbs { ForeignRewrite(s, Step(s, e), m, s.byAmf[e.amfId], NgapOf(Step(s, e), s.byAmf[e.amfId])); }
    }
  }

  lemma ForeignNotify(s: State, e: Event, m: Mover)
    requires Valid(s) && Guard(s, e) && Present(s, m) && Foreign(s, e, m) && e.HandoverNotify?
    ensures Untouched(s, Step(s, e), m)
  {
    if e.amfId in s.byAmf { assert AmfAgrees(s, e.amfId) && AmfAgrees(s, m.a); }
    assert NasFits(s, e.amfId) && NasFits(s, m.a);
  }

  lemma ForeignRelease(s: State, assoc: Assoc, a: AmfId, ranId: RanId, m: Mover)
    requires Valid(s) && Present(s, m) && a != m.a && !SameRecord(s, a, m) && !AnswersTo(s, assoc, ranId, m)
    ensures Untouched(s, OnReleaseComplete(s, assoc, a, ranId), m)
  {
    if a in s.byAmf { assert AmfAgrees(s, a) && AmfAgrees(s, m.a); }
  }

  lemma ForeignNas(s: State, e: Event, m: Mover)
    requires Valid(s) && Guard(s, e) && Present(s, m) && Foreign(s, e, m)
    requires e.NasAttach? || e.Deregister?
    ensures Untouched(s, Step(s, e), m)
  {
  }

  lemma ForeignRebind(s: State, ranId: RanId, a: AmfId, r: NasRecord, m: Mover)
    requires Present(s, m) && a != m.a && r != s.nasByAmf[m.a]
    ensures Untouched(s, OnGutiRebind(s, ranId, a, r), m)
  {
  }

  lemma ForeignRecord(s: State, i: Ids, r0: NasRecord, m: Mover)
    requires Present(s, m) && i.amfId != m.a && RestoredRecord(s, i, r0) != s.nasByAmf[m.a]
    ensures Untouched(s, WithRecord(s, i, r0), m)
  {
  }

  lemma ForeignStored(s: State, i: Ids, r0: NasRecord, u0: NgapContext, m: Mover)
    requires TablesClosed(s) && Present(s, m) && i.amfId != m.a && RestoredRecord(s, i, r0) != s.nasByAmf[m.a]
    requires !EntryOf(s, RestoreKey(i), m.u) && u0 !in s.ngap
    ensures Untouched(s, OnRestore(s, i, r0, u0), m)
  {
    assert m.u in s.ngap;
  }

  lemma ForeignRestore(s: State, e: Event, m: Mover)
    requires Valid(s) && Guard(s, e) && Present(s, m) && Foreign(s, e, m) && e.Restore?
    ensures Untouched(s, Step(s, e), m)
  {
    if e.made.None? {
      ForeignRecord(s, e.ids, e.newNas, m);
    } else {
      ForeignStored(s, e.ids, e.newNas, e.made.value, m);
    }
  }

  lemma TornUntouched(s: State, s': State, m: Mover, p: set<NgapContext>)
    requires Present(s, m) && m.u !in p && ButForGnbs(s', Torn(s, p))
    requires m.src in s'.gnbs && m.tgt in s'.gnbs && SameGnb(s, s', m.src) && SameGnb(s, s', m.tgt)
    ensures Untouched(s, s', m)
  {
  }

  /** The tables of UEs are the same. */
  predicate SameUes(s: State, s': State) {
    && s'.byRan == s.byRan && s'.byAmf == s.byAmf && s'.byUeKey == s.byUeKey && s'.nasByAmf == s.nasByAmf
    && s'.ngap == s.ngap && s'.nas == s.nas
  }

  lemma GnbsUntouched(s: State, s': State, m: Mover)
    requires Present(s, m) && SameUes(s, s') && SameGnb(s, s', m.src) && SameGnb(s, s', m.tgt)
    ensures Untouched(s, s', m)
  {
  }

  lemma SetupKeepsGnbs(s: State, e: Event, m: Mover)
    requires Present(s, m) && e.NgSetup? && (e.assoc in {m.src, m.tgt} ==> e.gnbId == s.gnbs[e.assoc].id)
    ensures SameGnb(s, Step(s, e), m.src) && SameGnb(s, Step(s, e), m.tgt)
  {
    if e.assoc in s.gnbs && !e.setup.Malformed? { SetupGnbs(s, e.assoc, e.gnbId, e.setup, e.order); }
  }

  lemma RefusalKeepsUes(s: State, assoc: Assoc, gnbId: GnbId, order: seq<NgapContext>)
    ensures SameUes(s, OnNgSetup(s, assoc, gnbId, Refused, order))
  {
  }

  lemma RetentionKeepsUes(s: State, assoc: Assoc, gnbId: GnbId, encodes: bool, order: seq<NgapContext>)
    ensures SameUes(s, OnNgSetup(s, assoc, gnbId, Retained(encodes), order))
  {
  }

  lemma SetupKeepsUes(s: State, assoc: Assoc, gnbId: GnbId, setup: Setup, order: seq<NgapContext>)
    requires assoc in s.gnbs && !setup.Released?
    ensures SameUes(s, OnNgSetup(s, assoc, gnbId, setup, order))
  {
    if setup.Retained? {
      RetentionKeepsUes(s, assoc, gnbId, setup.encodes, order);
      assert setup == Retained(setup.encodes);
    } else {
      RefusalKeepsUes(s, assoc, gnbId, order);
      assert setup in {Malformed, Refused};
    }
  }

  lemma ForeignSetupKept(s: State, e: Event, m: Mover)
    requires Present(s, m) && Foreign(s, e, m) && e.NgSetup?
    requires e.assoc in s.gnbs && !e.setup.Released?
    ensures Untouched(s, OnNgSetup(s, e.assoc, e.gnbId, e.setup, e.order), m)
  {
    SetupKeepsGnbs(s, e, m);
    SetupKeepsUes(s, e.assoc, e.gnbId, e.setup, e.order);
    GnbsUntouched(s, OnNgSetup(s, e.assoc, e.gnbId, e.setup, e.order), m);
  }

  lemma ForeignSetup(s: State, e: Event, m: Mover)
    requires Valid(s) && Guard(s, e) && Present(s, m) && Foreign(s, e, m) && e.NgSetup?
    requires e.assoc in s.gnbs && e.setup.Released?
    ensures Untouched(s, OnNgSetup(s, e.assoc, e.gnbId, e.setup, e.order), m)
  {
    var t := OnNgSetup(s, e.assoc, e.gnbId, e.setup, e.order);
    SetupKeepsGnbs(s, e, m);
    Linked(s);
    SetupTears(s, e.assoc, e.gnbId, e.setup, e.order);
    TornUntouched(s, t, m, On(s, e.assoc));
  }

  lemma ForeignReset(s: State, e: Event, m: Mover)
    requires Valid(s) && Guard(s, e) && Present(s, m) && Foreign(s, e, m) && e.NgReset?
    ensures Untouched(s, Step(s, e), m)
  {
    if e.assoc in s.gnbs {
      Linked(s);
      ResetTears(s, e.assoc, e.order);
      ResettingUntouched(s, Step(s, e), m, e.assoc);
    }
  }

  lemma ResettingUntouched(s: State, s': State, m: Mover, assoc: Assoc)
    requires Present(s, m) && assoc in s.gnbs && assoc != NgapOf(s, m.u).assoc
    requires s' == Torn(ResettingGnb(s, assoc), On(ResettingGnb(s, assoc), assoc))
    ensures Untouched(s, s', m)
  {
    var s1 := ResettingGnb(s, assoc);
    TornUntouched(s1, s', m, On(s1, assoc));
    forall k ensures EntryOf(s', k, m.u) <==> EntryOf(s, k, m.u) {
      assert EntryOf(s', k, m.u) <==> EntryOf(s1, k, m.u);
    }
  }

  lemma ForeignShutdown(s: State, e: Event, m: Mover)
    requires Valid(s) && Guard(s, e) && Present(s, m) && Foreign(s, e, m) && e.NgShutdown?
    ensures Untouched(s, Step(s, e), m)
  {
    if e.assoc in s.gnbs {
      Linked(s);
      ShutdownTears(s, e.assoc, e.order);
      TornUntouched(s, Step(s, e), m, On(s, e.assoc));
    }
  }

  lemma ForeignNgSetup(s: State, e: Event, m: Mover)
    requires Valid(s) && Guard(s, e) && Present(s, m) && Foreign(s, e, m) && e.NgSetup?
    ensures Untouched(s, Step(s, e), m)
  {
    if e.assoc !in s.gnbs {
      GnbsUntouched(s, s, m);
    } else if e.setup.Released? {
      ForeignSetup(s, e, m);
    } else {
      ForeignSetupKept(s, e, m);
    }
  }

  lemma ForeignGnbStep(s: State, e: Event, m: Mover)
    requires Valid(s) && Guard(s, e) && Present(s, m) && Foreign(s, e, m) && AboutGnb(e)
    ensures Untouched(s, Step(s, e), m)
  {
    match e
    case NewAssociation(_, _) => GnbsUntouched(s, Step(s, e), m);
    case NgSetup(_, _, _, _) => ForeignNgSetup(s, e, m);
    case NgReset(_, _) => ForeignReset(s, e, m);
    case NgShutdown(_, _) => ForeignShutdown(s, e, m);
  }

  lemma ForeignKeeps(s: State, e: Event, m: Mover)
    requires Valid(s) && Guard(s, e) && Present(s, m) && Foreign(s, e, m)
    ensures Untouched(s, Step(s, e), m)
  {
    match e
    case InitialUe(assoc, ranId, u0) => ForeignInitialUe(s, assoc, ranId, u0, m);
    case Establish(_, _, _) => ForeignEstablish(s, e, m);
    case DlNas(_, _) => ForeignDlNas(s, e, m);
    case HandoverRequired(_, _, _, _, _, _) => ForeignRequired(s, e, m);
    case HandoverAck(_, _, _) => ForeignAck(s, e, m);
    case HandoverNotify(_, _, _, _) => ForeignNotify(s, e, m);
    case ReleaseComplete(assoc, a, ranId) => ForeignRelease(s, assoc, a, ranId, m);
    case NasAttach(_, _, _, _) => ForeignNas(s, e, m);
    case GutiRebind(ranId, a, r) => ForeignRebind(s, ranId, a, r, m);
    case Restore(_, _, _) => ForeignRestore(s, e, m);
    case Deregister(_) => ForeignNas(s, e, m);
    case _ => ForeignGnbStep(s, e, m);
  }

  // ------------------------------------------------------- runs of other UEs' events

  ghost predicate ForeignRun(s: State, es: seq<Event>, m: Mover)
    decreases |es|
  {
    es == [] || (Present(s, m) && Guard(s, es[0]) && Foreign(s, es[0], m) && ForeignRun(Step(s, es[0]), es[1..], m))
  }

  lemma {:induction false} ForeignRunKeeps(s: State, es: seq<Event>, m: Mover)
    requires Valid(s) && Present(s, m) && ForeignRun(s, es, m)
    ensures Valid(Run(s, es)) && Untouched(s, Run(s, es), m)
    decreases |es|
  {
    if es != [] {
      var s' := Step(s, es[0]);
      StepKeepsAgreement(s, es[0]);
      StepFits(s, es[0]);
      ForeignKeeps(s, es[0], m);
      ForeignRunKeeps(s', es[1..], m);
      UntouchedTwice(s, s', Run(s, es), m);
    }
  }

  lemma UntouchedTwice(s: State, s': State, s'': State, m: Mover)
    requires Present(s, m) && Untouched(s, s', m) && Untouched(s', s'', m)
    ensures Untouched(s, s'', m)
  {
    forall k ensures EntryOf(s'', k, m.u) <==> EntryOf(s, k, m.u) {
      assert EntryOf(s'', k, m.u) <==> EntryOf(s', k, m.u);
      assert EntryOf(s', k, m.u) <==> EntryOf(s, k, m.u);
    }
  }

  // ------------------------------------------------------- the phases of a handover

  /** The mover's RAN-index entries are exactly these. */
  ghost predicate EntriesAre(s: State, m: Mover, ks: set<RanKey>) {
    forall k {:trigger EntryOf(s, k, m.u)} :: EntryOf(s, k, m.u) <==> k in ks
  }

  function SourceKey(s: State, m: Mover, ranId: RanId): RanKey
    requires Present(s, m)
  {
    (ranId, s.gnbs[m.src].id)
  }

  function TargetKey(s: State, m: Mover, ranId: RanId): RanKey
    requires Present(s, m)
  {
    (ranId, s.gnbs[m.tgt].id)
  }

  /** The RAN id is not that of a live UE at the target, nor one that another AMF id of the mover's NAS record
      had elsewhere. */
  ghost predicate FreeFor(s: State, m: Mover, rt: RanId)
    requires Present(s, m)
  {
    !Live(s, TargetKey(s, m, rt)) && LinkedElsewhere(s, s.nasByAmf[m.a], m.a, rt)
  }

  /** Before Notify: the mover is served by the source, under RAN id rs. */
  ghost predicate AtSource(s: State, m: Mover, rs: RanId, cm: CmState) {
    && Valid(s) && Present(s, m)
    && NgapOf(s, m.u).ranId == rs && NgapOf(s, m.u).assoc == m.src
    && EntriesAre(s, m, {SourceKey(s, m, rs)})
    && NasOf(s, s.nasByAmf[m.a]).cm == cm
  }

  /** Between Notify and the source's Release Complete. */
  ghost predicate BetweenGnbs(s: State, m: Mover, rs: RanId, rt: RanId, cm: CmState) {
    && Valid(s) && Present(s, m)
    && NgapOf(s, m.u).ranId == rt && NgapOf(s, m.u).assoc == m.tgt
    && NgapOf(s, m.u).cause == SuccessfulHandover && NgapOf(s, m.u).releaseGnb == m.src
    && (rs, m.a) in s.byUeKey
    && EntriesAre(s, m, {SourceKey(s, m, rs), TargetKey(s, m, rt)})
    && SourceKey(s, m, rs) != TargetKey(s, m, rt)
    && NasOf(s, s.nasByAmf[m.a]).cm == cm
  }

  /** After the source's Release Complete. */
  ghost predicate AtTarget(s: State, m: Mover, rt: RanId, cm: CmState) {
    && Valid(s) && Present(s, m)
    && NgapOf(s, m.u).ranId == rt && NgapOf(s, m.u).assoc == m.tgt && NgapOf(s, m.u).cause == NoCause
    && EntriesAre(s, m, {TargetKey(s, m, rt)})
    && NasOf(s, s.nasByAmf[m.a]).cm == cm
  }

  lemma GapAtSource(s: State, es: seq<Event>, m: Mover, rs: RanId, cm: CmState)
    requires AtSource(s, m, rs, cm) && ForeignRun(s, es, m)
    ensures AtSource(Run(s, es), m, rs, cm) && NgapOf(Run(s, es), m.u) == NgapOf(s, m.u)
    ensures Run(s, es).gnbs[m.src].id == s.gnbs[m.src].id && Run(s, es).gnbs[m.tgt].id == s.gnbs[m.tgt].id
  {
    ForeignRunKeeps(s, es, m);
    forall k ensures EntryOf(Run(s, es), k, m.u) <==> EntryOf(s, k, m.u) { }
  }

  lemma GapBetweenGnbs(s: State, es: seq<Event>, m: Mover, rs: RanId, rt: RanId, cm: CmState)
    requires BetweenGnbs(s, m, rs, rt, cm) && ForeignRun(s, es, m)
    ensures BetweenGnbs(Run(s, es), m, rs, rt, cm)
  {
    ForeignRunKeeps(s, es, m);
    forall k ensures EntryOf(Run(s, es), k, m.u) <==> EntryOf(s, k, m.u) { }
  }

  lemma StillAtSource(s: State, s': State, m: Mover, rs: RanId, cm: CmState, n: Ngap)
    requires AtSource(s, m, rs, cm) && Valid(s')
    requires s' == s.(ngap := s.ngap[m.u := n]) && n.ranId == rs && n.assoc == m.src
    ensures AtSource(s', m, rs, cm)
  {
    forall k ensures EntryOf(s', k, m.u) <==> EntryOf(s, k, m.u) { }
  }

  lemma RequiredStep(s: State, m: Mover, rs: RanId, cm: CmState, keyOk: bool, target: GnbId)
    requires AtSource(s, m, rs, cm)
    ensures var s' := OnHandoverRequired(s, m.src, m.a, rs, true, keyOk, target);
            && AtSource(s', m, rs, cm) && s'.gnbs == s.gnbs
            && NgapOf(s', m.u).state == InHandover
            && (keyOk && target in s.assocOf ==> NgapOf(s', m.u).targetAssoc == s.assocOf[target])
  {
    var e := HandoverRequired(m.src, m.a, rs, true, keyOk, target);
    assert EntryOf(s, SourceKey(s, m, rs), m.u);
    assert AmfAgrees(s, m.a);
    StepKeepsAgreement(s, e);
    StepFits(s, e);
    StillAtSource(s, Step(s, e), m, rs, cm, NgapOf(Step(s, e), m.u));
  }

  lemma AckStep(s: State, m: Mover, rs: RanId, rt: RanId, cm: CmState)
    requires AtSource(s, m, rs, cm)
    ensures var s' := OnHandoverAck(s, m.tgt, m.a, rt); AtSource(s', m, rs, cm) && NgapOf(s', m.u).targetRanId == rt
  {
    var e := HandoverAck(m.tgt, m.a, rt);
    StepKeepsAgreement(s, e);
    StepFits(s, e);
    StillAtSource(s, Step(s, e), m, rs, cm, NgapOf(Step(s, e), m.u));
  }

  lemma NotifyStep(s: State, m: Mover, rs: RanId, rt: RanId, cm: CmState)
    requires AtSource(s, m, rs, cm)
    requires SourceKey(s, m, rs) != TargetKey(s, m, rt) && FreeFor(s, m, rt)
    ensures BetweenGnbs(OnHandoverNotify(s, m.tgt, m.a, rt, true), m, rs, rt, cm)
    ensures var s' := OnHandoverNotify(s, m.tgt, m.a, rt, true);
            forall k :: k in s'.byRan && Settled(s) && k != SourceKey(s, m, rs) ==> IsHome(s', k)
  {
    var e := HandoverNotify(m.tgt, m.a, rt, true);
    var s' := Step(s, e);
    assert AmfAgrees(s, m.a) && EntryOf(s, SourceKey(s, m, rs), m.u);
    forall k ensures !AwaitedAt(s, m.u, k) {
      assert EntryOf(s, k, m.u) <==> k in {SourceKey(s, m, rs)};
    }
    StepKeepsAgreement(s, e);
    StepFits(s, e);
    forall k ensures EntryOf(s', k, m.u) <==> k in {SourceKey(s, m, rs), TargetKey(s, m, rt)} {
      assert EntryOf(s, k, m.u) <==> k in {SourceKey(s, m, rs)};
    }
  }

  lemma ReleaseBranches(s: State, m: Mover, rs: RanId, rt: RanId, cm: CmState)
    requires BetweenGnbs(s, m, rs, rt, cm)
    ensures ReleaseBranchOf(s, m.src, m.a, rs) == HandoverRelease
    ensures IsStale(s, SourceKey(s, m, rs)) && IsHome(s, TargetKey(s, m, rt))
    ensures Guard(s, ReleaseComplete(m.src, m.a, rs))
  {
    var ks, kt := SourceKey(s, m, rs), TargetKey(s, m, rt);
    assert EntryOf(s, ks, m.u) && EntryOf(s, kt, m.u) && RanAgrees(s, ks);
    forall x | AwaitedAt(s, m.u, x) ensures x == ks { assert EntryOf(s, x, m.u) <==> x in {ks, kt}; }
  }

  lemma ReleaseStep(s: State, m: Mover, rs: RanId, rt: RanId, cm: CmState)
    requires BetweenGnbs(s, m, rs, rt, cm)
    ensures ReleaseBranchOf(s, m.src, m.a, rs) == HandoverRelease
    ensures AtTarget(OnReleaseComplete(s, m.src, m.a, rs), m, rt, cm)
    ensures IsStale(s, SourceKey(s, m, rs)) && IsHome(s, TargetKey(s, m, rt))
  {
    ReleaseBranches(s, m, rs, rt, cm);
    var e := ReleaseComplete(m.src, m.a, rs);
    var s' := Step(s, e);
    StepKeepsAgreement(s, e);
    StepFits(s, e);
    forall k ensures EntryOf(s', k, m.u) <==> k in {TargetKey(s, m, rt)} {
      assert EntryOf(s, k, m.u) <==> k in {SourceKey(s, m, rs), TargetKey(s, m, rt)};
    }
  }

  /** The states of one handover: after each of its four messages, and (g1, g2, g3) after the events of
      other UEs that follow the first three. */
  ghost predicate HandoverRun(s: State, m: Mover, rs: RanId, rt: RanId, target: GnbId,
                              gap1: seq<Event>, gap2: seq<Event>, gap3: seq<Event>,
                              g1: State, s2: State, g2: State, g3: State, s4: State) {
    && Present(s, m) && SourceKey(s, m, rs) != TargetKey(s, m, rt)
    && var s1 := OnHandoverRequired(s, m.src, m.a, rs, true, true, target);
    && ForeignRun(s1, gap1, m) && g1 == Run(s1, gap1)
    && s2 == OnHandoverAck(g1, m.tgt, m.a, rt)
    && ForeignRun(s2, gap2, m) && g2 == Run(s2, gap2)
    && (Present(g2, m) ==> FreeFor(g2, m, rt))
    && var s3 := OnHandoverNotify(g2, m.tgt, m.a, rt, true);
    && ForeignRun(s3, gap3, m) && g3 == Run(s3, gap3)
    && s4 == OnReleaseComplete(g3, m.src, m.a, rs)
  }

  lemma RequestedAndGap(s: State, m: Mover, rs: RanId, cm: CmState, target: GnbId, gap: seq<Event>)
    requires AtSource(s, m, rs, cm)
    requires ForeignRun(OnHandoverRequired(s, m.src, m.a, rs, true, true, target), gap, m)
    ensures var g := Run(OnHandoverRequired(s, m.src, m.a, rs, true, true, target), gap);
            AtSource(g, m, rs, cm) && g.gnbs[m.src].id == s.gnbs[m.src].id && g.gnbs[m.tgt].id == s.gnbs[m.tgt].id
  {
    var s1 := OnHandoverRequired(s, m.src, m.a, rs, true, true, target);
    RequiredStep(s, m, rs, cm, true, target);
    GapAtSource(s1, gap, m, rs, cm);
  }

  lemma AckedAndGap(s: State, m: Mover, rs: RanId, rt: RanId, cm: CmState, gap: seq<Event>)
    requires AtSource(s, m, rs, cm) && ForeignRun(OnHandoverAck(s, m.tgt, m.a, rt), gap, m)
    ensures AtSource(OnHandoverAck(s, m.tgt, m.a, rt), m, rs, cm)
    ensures var g := Run(OnHandoverAck(s, m.tgt, m.a, rt), gap);
            && AtSource(g, m, rs, cm) && NgapOf(g, m.u).targetRanId == rt
            && g.gnbs[m.src].id == s.gnbs[m.src].id && g.gnbs[m.tgt].id == s.gnbs[m.tgt].id
  {
    var s1 := OnHandoverAck(s, m.tgt, m.a, rt);
    AckStep(s, m, rs, rt, cm);
    GapAtSource(s1, gap, m, rs, cm);
  }

  /** The whole handover, with arbitrary guarded events of other UEs between its four messages.
      The AMF id leads to the same context throughout; between Notify and Release Complete the source
      entry is the one stale entry and the target entry is home; at the end only the target entry is
      left, and the connection state of the UE is what it was. */
  lemma HandoverChain(s: State, m: Mover, rs: RanId, rt: RanId, cm: CmState, target: GnbId,
                      gap1: seq<Event>, gap2: seq<Event>, gap3: seq<Event>,
                      g1: State, s2: State, g2: State, g3: State, s4: State)
    requires AtSource(s, m, rs, cm)
    requires HandoverRun(s, m, rs, rt, target, gap1, gap2, gap3, g1, s2, g2, g3, s4)
    ensures Present(g1, m) && Present(s2, m) && Present(g2, m) && Present(g3, m) && Present(s4, m)
    ensures BetweenGnbs(g3, m, rs, rt, cm) && IsStale(g3, SourceKey(g3, m, rs)) && IsHome(g3, TargetKey(g3, m, rt))
    ensures AtTarget(s4, m, rt, cm)
  {
    RequestedAndGap(s, m, rs, cm, target, gap1);
    AckedAndGap(g1, m, rs, rt, cm, gap2);
    NotifyStep(g2, m, rs, rt, cm);
    GapBetweenGnbs(OnHandoverNotify(g2, m.tgt, m.a, rt, true), gap3, m, rs, rt, cm);
    ReleaseStep(g3, m, rs, rt, cm);
  }
}
