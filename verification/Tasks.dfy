/** The task loop of the N2 interface, one message at a time: what the runs promise of values, the heap keeps. */
module Tasks {
  import opened Contexts
  import opened Registry
  import opened Agreement
  import opened Teardown
  import opened Runs
  import opened AmfTables

  /** What the objects hold after this event, and that they stay valid if the event was guarded. */
  ghost predicate Follows(s: State, e: Event, t: State) {
    t == Step(s, e) && (Runs.Valid(s) && Guard(s, e) ==> Runs.Valid(t))
  }

  /** A list that the event carries is one that get_ue_ngap_contexts gives. */
  ghost predicate Listing(s: State, e: Event) {
    match e
    case NgSetup(assoc, _, setup, order) => assoc in s.gnbs && setup.Released? ==> Lists(s, assoc, order)
    case NgReset(assoc, order) => Lists(s, assoc, order)
    case NgShutdown(assoc, order) => Lists(s, assoc, order)
    case _ => true
  }

  lemma StepFollows(s: State, e: Event)
    ensures Follows(s, e, Step(s, e))
  {
    if Runs.Valid(s) && Guard(s, e) {
      StepKeepsAgreement(s, e);
      StepFits(s, e);
    }
  }

  /** A gNB resets: complete exactly if no handover release is awaited for its UEs. */
  method Reset(t: AmfTables, assoc: Assoc) returns (listed: seq<NgapContext>)
    requires t.Valid()
    modifies t, t.gnbContexts.Values
    ensures t.Valid() && Follows(old(t.View()), NgReset(assoc, listed), t.View())
    ensures Lists(old(t.View()), assoc, listed)
    ensures Runs.Valid(old(t.View())) && assoc in old(t.gnbContexts) ==>
              && (Gone(t.View(), assoc) <==> AllHome(old(t.View()), assoc))
              && OthersKept(old(t.View()), t.View(), assoc)
              && (KeysGone(t.View(), old(t.gnbs)[assoc].id)
                  <==> OnlyHomesOf(old(t.View()), assoc, old(t.gnbs)[assoc].id))
  {
    listed := t.NgReset(assoc);
    StepFollows(old(t.View()), NgReset(assoc, listed));
    if Runs.Valid(old(t.View())) && assoc in old(t.gnbContexts) {
      Linked(old(t.View()));
      ResetIsCompleteAndFramed(old(t.View()), assoc, listed, 0);
      TeardownClearsKeys(old(t.View()), assoc, listed);
    }
  }

  /** Its association goes down: the same, and its gNB context is gone. */
  method Shutdown(t: AmfTables, assoc: Assoc) returns (listed: seq<NgapContext>)
    requires t.Valid()
    modifies t
    ensures t.Valid() && Follows(old(t.View()), NgShutdown(assoc, listed), t.View())
    ensures Lists(old(t.View()), assoc, listed)
    ensures Runs.Valid(old(t.View())) && assoc in old(t.gnbContexts) ==>
              && (Gone(t.View(), assoc) <==> AllHome(old(t.View()), assoc))
              && OthersKept(old(t.View()), t.View(), assoc)
              && (KeysGone(t.View(), old(t.gnbs)[assoc].id)
                  <==> OnlyHomesOf(old(t.View()), assoc, old(t.gnbs)[assoc].id))
  {
    listed := t.NgShutdown(assoc);
    StepFollows(old(t.View()), NgShutdown(assoc, listed));
    if Runs.Valid(old(t.View())) && assoc in old(t.gnbContexts) {
      Linked(old(t.View()));
      ShutdownIsCompleteAndFramed(old(t.View()), assoc, listed, 0);
      TeardownClearsKeys(old(t.View()), assoc, listed);
    }
  }

  // ------------------------------------------------------- the other messages

  /** A message to the N2 task, or from it to another task, with what decoding made of it. */
  datatype Message =
    | SctpAssociation(assoc: Assoc, gnb: Gnb)
    | SetupRequest(assoc: Assoc, gnbId: GnbId, setup: Setup)
    | ResetRequest(assoc: Assoc)
    | SctpShutdown(assoc: Assoc)
    | FirstMessage(assoc: Assoc, ranId: RanId)
    | Signalling(ranId: RanId, gnbId: GnbId)
    | Downlink(ranId: RanId, amfId: AmfId)
    | Required(assoc: Assoc, amfId: AmfId, ranId: RanId, typeOk: bool, keyOk: bool, target: GnbId)
    | Acknowledge(assoc: Assoc, amfId: AmfId, ranId: RanId)
    | Notify(assoc: Assoc, amfId: AmfId, ranId: RanId, hasLocation: bool)
    | Released(assoc: Assoc, amfId: AmfId, ranId: RanId)
    | Registered(ranId: RanId, amfId: AmfId, supi: Supi)
    | KnownGuti(ranId: RanId, amfId: AmfId, record: NasRecord)
    | Migrated(ids: Ids, keysDecode: bool)
    | Deregistered(amfId: AmfId)

  /** The event is this message, completed by the objects that its handler made or listed. */
  predicate Completes(m: Message, e: Event) {
    match m
    case SctpAssociation(assoc, g) => e == NewAssociation(assoc, g)
    case SetupRequest(assoc, gnbId, setup) => e.NgSetup? && e == NgSetup(assoc, gnbId, setup, e.order)
    case ResetRequest(assoc) => e.NgReset? && e.assoc == assoc
    case SctpShutdown(assoc) => e.NgShutdown? && e.assoc == assoc
    case FirstMessage(assoc, ranId) => e.InitialUe? && e.assoc == assoc && e.ranId == ranId
    case Signalling(ranId, gnbId) => e.Establish? && e.ranId == ranId && e.gnbId == gnbId
    case Downlink(ranId, a) => e == DlNas(ranId, a)
    case Required(assoc, a, ranId, typeOk, keyOk, target) =>
      e == HandoverRequired(assoc, a, ranId, typeOk, keyOk, target)
    case Acknowledge(assoc, a, ranId) => e == HandoverAck(assoc, a, ranId)
    case Notify(assoc, a, ranId, hasLocation) => e == HandoverNotify(assoc, a, ranId, hasLocation)
    case Released(assoc, a, ranId) => e == ReleaseComplete(assoc, a, ranId)
    case Registered(ranId, a, supi) => e.NasAttach? && e == NasAttach(ranId, a, supi, e.newNas)
    case KnownGuti(ranId, a, r) => e == GutiRebind(ranId, a, r)
    case Migrated(i, keysDecode) => e.Restore? && e.ids == i && (e.made != None <==> keysDecode)
    case Deregistered(a) => e == Deregister(a)
  }

  predicate OfGnb(m: Message) {
    m.SctpAssociation? || m.SetupRequest? || m.ResetRequest? || m.SctpShutdown?
  }

  method HandleGnb(t: AmfTables, m: Message) returns (e: Event)
    requires t.Valid() && OfGnb(m)
    modifies t, t.gnbContexts.Values
    ensures t.Valid() && Completes(m, e) && Follows(old(t.View()), e, t.View()) && Listing(old(t.View()), e)
  {
    match m {
      case SctpAssociation(assoc, g) =>
        t.NewAssociation(assoc, g);
        e := NewAssociation(assoc, g);
        StepFollows(old(t.View()), e);
      case SetupRequest(assoc, gnbId, setup) =>
        var listed := t.NgSetup(assoc, gnbId, setup);
        e := NgSetup(assoc, gnbId, setup, listed);
        StepFollows(old(t.View()), e);
      case ResetRequest(assoc) =>
        var listed := Reset(t, assoc);
        e := NgReset(assoc, listed);
      case SctpShutdown(assoc) =>
        var listed := Shutdown(t, assoc);
        e := NgShutdown(assoc, listed);
    }
  }

  method HandleRequest(t: AmfTables, m: Message) returns (e: Event)
    requires t.Valid() && (m.Required? || m.Acknowledge?)
    modifies t, t.ngap.Keys
    ensures t.Valid() && Completes(m, e) && Follows(old(t.View()), e, t.View())
  {
    match m {
      case Required(assoc, a, ranId, typeOk, keyOk, target) =>
        e := HandoverRequired(assoc, a, ranId, typeOk, keyOk, target);
        StepFollows(t.View(), e);
        t.HandoverRequired(assoc, a, ranId, typeOk, keyOk, target);
      case Acknowledge(assoc, a, ranId) =>
        e := HandoverAck(assoc, a, ranId);
        StepFollows(t.View(), e);
        t.HandoverRequestAck(assoc, a, ranId);
    }
  }

  method HandleNotify(t: AmfTables, assoc: Assoc, a: AmfId, ranId: RanId, hasLocation: bool)
    requires t.Valid()
    modifies t, t.ngap.Keys, t.ue.Keys, t.nas.Keys
    ensures t.Valid() && Follows(old(t.View()), HandoverNotify(assoc, a, ranId, hasLocation), t.View())
  {
    StepFollows(t.View(), HandoverNotify(assoc, a, ranId, hasLocation));
    t.HandoverNotify(assoc, a, ranId, hasLocation);
  }

  method HandleReleased(t: AmfTables, assoc: Assoc, a: AmfId, ranId: RanId)
    requires t.Valid()
    modifies t, t.ngap.Keys, t.nas.Keys
    ensures t.Valid() && Follows(old(t.View()), ReleaseComplete(assoc, a, ranId), t.View())
  {
    StepFollows(t.View(), ReleaseComplete(assoc, a, ranId));
    t.UeContextReleaseComplete(assoc, a, ranId);
  }

  method HandleMove(t: AmfTables, m: Message) returns (e: Event)
    requires t.Valid() && (m.Notify? || m.Released?)
    modifies t, t.ngap.Keys, t.ue.Keys, t.nas.Keys
    ensures t.Valid() && Completes(m, e) && Follows(old(t.View()), e, t.View())
  {
    match m {
      case Notify(assoc, a, ranId, hasLocation) =>
        e := HandoverNotify(assoc, a, ranId, hasLocation);
        HandleNotify(t, assoc, a, ranId, hasLocation);
      case Released(assoc, a, ranId) =>
        e := ReleaseComplete(assoc, a, ranId);
        HandleReleased(t, assoc, a, ranId);
    }
  }

  method HandleSignalling(t: AmfTables, m: Message) returns (e: Event)
    requires t.Valid() && (m.Signalling? || m.Downlink?)
    modifies t, t.ngap.Keys, t.ue.Keys
    ensures t.Valid() && Completes(m, e) && Follows(old(t.View()), e, t.View())
  {
    match m {
      case Signalling(ranId, gnbId) =>
        var c := t.EstablishNas(ranId, gnbId);
        e := Establish(ranId, gnbId, c);
        StepFollows(old(t.View()), e);
      case Downlink(ranId, a) =>
        e := DlNas(ranId, a);
        StepFollows(t.View(), e);
        t.DownlinkNas(ranId, a);
    }
  }

  method HandleAttach(t: AmfTables, ranId: RanId, a: AmfId, supi: Supi) returns (r: NasRecord)
    requires t.Valid()
    modifies t
    ensures t.Valid() && Follows(old(t.View()), NasAttach(ranId, a, supi, r), t.View())
  {
    r := t.AttachNas(ranId, a, supi);
    StepFollows(old(t.View()), NasAttach(ranId, a, supi, r));
  }

  method HandleGuti(t: AmfTables, ranId: RanId, a: AmfId, r: NasRecord)
    requires t.Valid() && r in t.nas
    modifies t, r
    ensures t.Valid() && Follows(old(t.View()), GutiRebind(ranId, a, r), t.View())
  {
    StepFollows(t.View(), GutiRebind(ranId, a, r));
    t.RebindNas(ranId, a, r);
  }

  method HandleMigrated(t: AmfTables, i: Ids, keysDecode: bool) returns (e: Event)
    requires t.Valid()
    modifies t, t.nas.Keys, t.ue.Keys
    ensures t.Valid() && Completes(Migrated(i, keysDecode), e) && Follows(old(t.View()), e, t.View())
  {
    var r, u := t.RestoreUe(i, keysDecode);
    if u == null {
      e := Restore(i, r, None);
      RecordFollows(old(t.View()), i, r);
    } else {
      e := Restore(i, r, Some(u));
      StoredFollows(old(t.View()), i, r, u);
    }
  }

  lemma RecordFollows(s: State, i: Ids, r: NasRecord)
    ensures Follows(s, Restore(i, r, None), WithRecord(s, i, r))
  {
    StepFollows(s, Restore(i, r, None));
  }

  lemma StoredFollows(s: State, i: Ids, r: NasRecord, u: NgapContext)
    ensures Follows(s, Restore(i, r, Some(u)), OnRestore(s, i, r, u))
  {
    StepFollows(s, Restore(i, r, Some(u)));
  }

  /** A GUTI leads to records that the AMF has. */
  ghost predicate Known(t: AmfTables, m: Message)
    reads t
  {
    m.KnownGuti? ==> m.record in t.nas
  }

  method HandleDeregistration(t: AmfTables, a: AmfId)
    requires t.Valid()
    modifies t
    ensures t.Valid() && Follows(old(t.View()), Deregister(a), t.View())
  {
    StepFollows(t.View(), Deregister(a));
    t.Deregister(a);
  }

  method HandleRegistration(t: AmfTables, m: Message) returns (e: Event)
    requires t.Valid() && Known(t, m) && (m.Registered? || m.KnownGuti? || m.Deregistered?)
    modifies t, t.nas.Keys
    ensures t.Valid() && Completes(m, e) && Follows(old(t.View()), e, t.View())
  {
    match m {
      case Registered(ranId, a, supi) =>
        var r := HandleAttach(t, ranId, a, supi);
        e := NasAttach(ranId, a, supi, r);
      case KnownGuti(ranId, a, r) =>
        e := GutiRebind(ranId, a, r);
        HandleGuti(t, ranId, a, r);
      case Deregistered(a) =>
        e := Deregister(a);
        HandleDeregistration(t, a);
    }
  }

  /** An Initial UE Message that finds no gNB in service is dropped. */
  method HandleFirst(t: AmfTables, assoc: Assoc, ranId: RanId) returns (e: Option<Event>)
    requires t.Valid()
    modifies t, t.ngap.Keys
    ensures t.Valid()
    ensures e == None <==> !InitialUeActs(old(t.View()), assoc)
    ensures e == None ==> t.View() == old(t.View())
    ensures e != None ==> Completes(FirstMessage(assoc, ranId), e.value) && Follows(old(t.View()), e.value, t.View())
  {
    var u := t.InitialUeMessage(assoc, ranId);
    if u == null { return None; }
    e := Some(InitialUe(assoc, ranId, u));
    StepFollows(old(t.View()), e.value);
  }

  method HandleUe(t: AmfTables, m: Message) returns (e: Event)
    requires t.Valid() && Known(t, m) && !OfGnb(m) && !m.FirstMessage?
    modifies t, t.ngap.Keys, t.ue.Keys, t.nas.Keys
    ensures t.Valid() && Completes(m, e) && Follows(old(t.View()), e, t.View())
  {
    if m.Required? || m.Acknowledge? {
      e := HandleRequest(t, m);
    } else if m.Notify? || m.Released? {
      e := HandleMove(t, m);
    } else if m.Signalling? || m.Downlink? {
      e := HandleSignalling(t, m);
    } else if m.Migrated? {
      e := HandleMigrated(t, m.ids, m.keysDecode);
    } else {
      e := HandleRegistration(t, m);
    }
  }

  /** One turn of the task loop.  The heap takes the step that the message asks for, or none where there is no gNB in
      service; from valid tables, and with the guard met, it leads to valid ones. */
  method Handle(t: AmfTables, m: Message) returns (e: Option<Event>)
    requires t.Valid() && Known(t, m)
    modifies t, t.gnbContexts.Values, t.ngap.Keys, t.ue.Keys, t.nas.Keys
    ensures t.Valid()
    ensures e == None <==> m.FirstMessage? && !InitialUeActs(old(t.View()), m.assoc)
    ensures e == None ==> t.View() == old(t.View())
    ensures e != None ==> Completes(m, e.value) && Follows(old(t.View()), e.value, t.View())
    ensures e != None ==> Listing(old(t.View()), e.value)
  {
    if m.FirstMessage? {
      e := HandleFirst(t, m.assoc, m.ranId);
    } else {
      var done;
      if OfGnb(m) { done := HandleGnb(t, m); } else { done := HandleUe(t, m); }
      e := Some(done);
    }
  }
}
