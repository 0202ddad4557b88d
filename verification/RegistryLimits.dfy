/** Where the guards of module Runs are not met, although every peer behaves, and where one might expect more than
    the procedures do.  The states are ones that guarded runs lead to from the start of the AMF. */
module RegistryLimits {
  import opened Contexts
  import opened Registry
  import opened Agreement
  import opened Teardown
  import opened Runs
  import opened Effects

  // ------------------------------------------------------- reachable states

  /** This guarded run leads from the start of the AMF, with empty tables, to this state. */
  ghost predicate Leads(es: seq<Event>, s: State) {
    Guarded(Start(), es) && Run(Start(), es) == s
  }

  lemma {:induction false} OneMore(s: State, es: seq<Event>, e: Event)
    requires Guarded(s, es) && Guard(Run(s, es), e)
    ensures Guarded(s, es + [e]) && Run(s, es + [e]) == Step(Run(s, es), e)
    decreases |es|
  {
    if es == [] {
      assert [] + [e] == [e] && [e][1..] == [];
    } else {
      OneMore(Step(s, es[0]), es[1..], e);
      assert (es + [e])[1..] == es[1..] + [e];
    }
  }

  lemma LeadsOn(es: seq<Event>, s: State, e: Event)
    requires Leads(es, s) && Guard(s, e)
    ensures Leads(es + [e], Step(s, e))
  {
    OneMore(Start(), es, e);
  }

  /** The same, with the state that the event leads to. */
  lemma LeadsTo(es: seq<Event>, s: State, e: Event, s': State)
    requires Leads(es, s) && Guard(s, e) && Step(s, e) == s'
    ensures Leads(es + [e], s')
  {
    LeadsOn(es, s, e);
  }

  lemma ReachedIsValid(es: seq<Event>, s: State)
    requires Leads(es, s)
    ensures Valid(s)
  {
    StartIsValid(Start());
    GuardedRunIsValid(Start(), es);
  }

  /** Two gNBs connect and are set up. */
  function SetUpFirst(): seq<Event> {
    [] + [NewAssociation(11, Gnb(0, Unready))] + [NgSetup(11, 1, Retained(true), [])]
  }

  function SetUpBoth(): seq<Event> {
    SetUpFirst() + [NewAssociation(12, Gnb(0, Unready))] + [NgSetup(12, 2, Retained(true), [])]
  }

  /** A UE attaches at the first gNB. */
  function FirstAttaches(u: NgapContext, c: UeContext, r: NasRecord): seq<Event> {
    SetUpBoth() + [InitialUe(11, 5, u)] + [Establish(5, 1, c)] + [NasAttach(5, 0, 900, r)]
  }

  /** It is handed over to the second, up to Handover Notify. */
  function FirstMoves(u: NgapContext, c: UeContext, r: NasRecord): seq<Event> {
    FirstAttaches(u, c, r) + [HandoverRequired(11, 0, 5, true, true, 2)] + [HandoverAck(12, 0, 7)]
    + [HandoverNotify(12, 0, 7, true)]
  }

  /** Or a second UE attaches at the second gNB, with the same SUPI. */
  function SecondAttaches(u: NgapContext, v: NgapContext, c: UeContext, d: UeContext, r: NasRecord, q: NasRecord)
    : seq<Event>
  {
    FirstAttaches(u, c, r) + [DlNas(5, 0)] + [InitialUe(12, 7, v)] + [Establish(7, 2, d)] + [DlNas(7, 1)]
    + [NasAttach(7, 1, 900, q)]
  }

  function OneGnb(): State {
    Start().(gnbs := map[11 := Gnb(1, Ready)], assocOf := map[1 := 11])
  }

  /** Two gNBs, with id 1 on association 11 and id 2 on association 12. */
  function TwoGnbs(): State {
    Start().(gnbs := map[11 := Gnb(1, Ready), 12 := Gnb(2, Ready)], assocOf := map[1 := 11, 2 := 12])
  }

  /** A gNB that connects and is set up without UEs. */
  lemma GnbSetUp(es: seq<Event>, s: State, assoc: Assoc, gnbId: GnbId)
    requires Leads(es, s) && assoc !in s.gnbs && s.byRan == map[]
    ensures Leads(es + [NewAssociation(assoc, Gnb(0, Unready))] + [NgSetup(assoc, gnbId, Retained(true), [])],
                  s.(gnbs := s.gnbs[assoc := Gnb(gnbId, Ready)], assocOf := s.assocOf[gnbId := assoc]))
  {
    var s1 := s.(gnbs := s.gnbs[assoc := Gnb(0, Unready)]);
    LeadsTo(es, s, NewAssociation(assoc, Gnb(0, Unready)), s1);
    RetainedSetUp(s, s1, assoc, gnbId);
    LeadsTo(es + [NewAssociation(assoc, Gnb(0, Unready))], s1, NgSetup(assoc, gnbId, Retained(true), []),
            s.(gnbs := s.gnbs[assoc := Gnb(gnbId, Ready)], assocOf := s.assocOf[gnbId := assoc]));
  }

  lemma RetainedSetUp(s: State, s1: State, assoc: Assoc, gnbId: GnbId)
    requires s1 == s.(gnbs := s.gnbs[assoc := Gnb(0, Unready)])
    ensures Step(s1, NgSetup(assoc, gnbId, Retained(true), []))
         == s.(gnbs := s.gnbs[assoc := Gnb(gnbId, Ready)], assocOf := s.assocOf[gnbId := assoc])
  {
    var t := OnNgSetup(s1, assoc, gnbId, Retained(true), []);
    assert t.gnbs == s.gnbs[assoc := Gnb(gnbId, Ready)];
  }

  lemma OneGnbIsReached()
    ensures Leads(SetUpFirst(), OneGnb())
  {
    assert Leads([], Start());
    GnbSetUp([], Start(), 11, 1);
  }

  lemma TwoGnbsAreReached()
    ensures Leads(SetUpBoth(), TwoGnbs())
  {
    OneGnbIsReached();
    GnbSetUp(SetUpFirst(), OneGnb(), 12, 2);
    assert OneGnb().gnbs[12 := Gnb(2, Ready)] == TwoGnbs().gnbs && OneGnb().assocOf[2 := 12] == TwoGnbs().assocOf;
  }

  function FirstSeen(u: NgapContext): State {
    TwoGnbs().(byRan := map[(5, 1) := u], ngap := map[u := Ngap(5, None, 11, NotConnected, 0, 0, NoCause, 0)])
  }

  function Established(u: NgapContext, c: UeContext): State {
    TwoGnbs().(byRan := map[(5, 1) := u], byAmf := map[0 := u], byUeKey := map[(5, 0) := c],
               ngap := map[u := Ngap(5, Some(0), 11, NotConnected, 0, 0, NoCause, 0)],
               ue := map[c := Ue(5, 0, 1)], nextAmfId := 1)
  }

  /** One UE on gNB 1, with RAN id 5, AMF id 0 and SUPI 900. */
  function OneUe(u: NgapContext, c: UeContext, r: NasRecord): State {
    Established(u, c).(nasByAmf := map[0 := r], nasBySupi := map[900 := r], amfBySupi := map[900 := 0],
                       nas := map[r := Nas(5, 0, 900, CmConnected)])
  }

  lemma FirstSeenIsReached(u: NgapContext)
    ensures Leads(SetUpBoth() + [InitialUe(11, 5, u)], FirstSeen(u))
  {
    TwoGnbsAreReached();
    LeadsOn(SetUpBoth(), TwoGnbs(), InitialUe(11, 5, u));
    assert Step(TwoGnbs(), InitialUe(11, 5, u)) == FirstSeen(u);
  }

  lemma EstablishedIsReached(u: NgapContext, c: UeContext)
    ensures Leads(SetUpBoth() + [InitialUe(11, 5, u)] + [Establish(5, 1, c)], Established(u, c))
  {
    FirstSeenIsReached(u);
    LeadsOn(SetUpBoth() + [InitialUe(11, 5, u)], FirstSeen(u), Establish(5, 1, c));
    assert Step(FirstSeen(u), Establish(5, 1, c)) == Established(u, c);
  }

  lemma OneUeIsReached(u: NgapContext, c: UeContext, r: NasRecord)
    ensures Leads(FirstAttaches(u, c, r), OneUe(u, c, r))
  {
    EstablishedIsReached(u, c);
    LeadsOn(SetUpBoth() + [InitialUe(11, 5, u)] + [Establish(5, 1, c)], Established(u, c), NasAttach(5, 0, 900, r));
    assert Step(Established(u, c), NasAttach(5, 0, 900, r)) == OneUe(u, c, r);
  }

  // ------------------------------------------------------- one UE between its gNBs

  /** The UE is in handover to gNB 2, which has given it RAN id `rt`, or none yet (0). */
  function Leaving(u: NgapContext, c: UeContext, r: NasRecord, rt: RanId): State {
    OneUe(u, c, r).(ngap := map[u := Ngap(5, Some(0), 11, InHandover, rt, 12, NoCause, 0)])
  }

  /** It has moved to gNB 2, with RAN id 7, while the release of the source is awaited. */
  function MovedUe(u: NgapContext, c: UeContext, r: NasRecord): State {
    State(map[11 := Gnb(1, Ready), 12 := Gnb(2, Ready)], map[1 := 11, 2 := 12],
          map[(5, 1) := u, (7, 2) := u], map[0 := u], map[(5, 0) := c, (7, 0) := c],
          map[0 := r], map[900 := r], map[900 := 0],
          map[u := Ngap(7, Some(0), 12, Connected, 0, 12, SuccessfulHandover, 11)],
          map[c := Ue(7, 0, 2)], map[r := Nas(7, 0, 900, CmConnected)], 1)
  }

  lemma RequiredLeaves(u: NgapContext, c: UeContext, r: NasRecord)
    ensures Guard(OneUe(u, c, r), HandoverRequired(11, 0, 5, true, true, 2))
    ensures Step(OneUe(u, c, r), HandoverRequired(11, 0, 5, true, true, 2)) == Leaving(u, c, r, 0)
  {
    var s := OneUe(u, c, r);
    assert RequiredAccepted(s, 11, 0, 5, true);
    assert OnHandoverRequired(s, 11, 0, 5, true, true, 2).ngap == Leaving(u, c, r, 0).ngap;
  }

  lemma AckNames(u: NgapContext, c: UeContext, r: NasRecord)
    ensures Step(Leaving(u, c, r, 0), HandoverAck(12, 0, 7)) == Leaving(u, c, r, 7)
  {
    assert OnHandoverAck(Leaving(u, c, r, 0), 12, 0, 7).ngap == Leaving(u, c, r, 7).ngap;
  }

  lemma LeavingIsReached(u: NgapContext, c: UeContext, r: NasRecord)
    ensures Leads(FirstAttaches(u, c, r) + [HandoverRequired(11, 0, 5, true, true, 2)] + [HandoverAck(12, 0, 7)],
                  Leaving(u, c, r, 7))
  {
    OneUeIsReached(u, c, r);
    RequiredLeaves(u, c, r);
    AckNames(u, c, r);
    var es, e1, e2 := FirstAttaches(u, c, r), HandoverRequired(11, 0, 5, true, true, 2), HandoverAck(12, 0, 7);
    LeadsTo(es, OneUe(u, c, r), e1, Leaving(u, c, r, 0));
    LeadsTo(es + [e1], Leaving(u, c, r, 0), e2, Leaving(u, c, r, 7));
  }

  lemma NotifyMoves(u: NgapContext, c: UeContext, r: NasRecord)
    ensures Step(Leaving(u, c, r, 7), HandoverNotify(12, 0, 7, true)) == MovedUe(u, c, r)
  {
    var s := Leaving(u, c, r, 7);
    assert NotifyAccepted(s, 12, 0, true) && s.byUeKey[(NgapOf(s, u).ranId, 0)] == c;
    assert map[(5, 1) := u][(7, 2) := u] == map[(5, 1) := u, (7, 2) := u];
    assert map[(5, 0) := c][(7, 0) := c] == map[(5, 0) := c, (7, 0) := c];
    assert s.ngap[u := Ngap(7, Some(0), 12, Connected, 0, 12, SuccessfulHandover, 11)] == MovedUe(u, c, r).ngap;
    assert s.nas[r := Nas(7, 0, 900, CmConnected)] == MovedUe(u, c, r).nas;
    assert s.ue[c := Ue(7, 0, 2)] == MovedUe(u, c, r).ue;
  }

  lemma MovedUeIsReached(u: NgapContext, c: UeContext, r: NasRecord)
    ensures Leads(FirstMoves(u, c, r), MovedUe(u, c, r)) && Valid(MovedUe(u, c, r))
  {
    LeavingIsReached(u, c, r);
    NotifyGuarded(u, c, r);
    NotifyMoves(u, c, r);
    LeadsTo(FirstAttaches(u, c, r) + [HandoverRequired(11, 0, 5, true, true, 2)] + [HandoverAck(12, 0, 7)],
            Leaving(u, c, r, 7), HandoverNotify(12, 0, 7, true), MovedUe(u, c, r));
    ReachedIsValid(FirstMoves(u, c, r), MovedUe(u, c, r));
  }

  /** [u, u] answers get_ue_ngap_contexts for the target, and [] for the source. */
  lemma MovedUeListed(u: NgapContext, c: UeContext, r: NasRecord)
    ensures Lists(MovedUe(u, c, r), 12, [u, u]) && Lists(MovedUe(u, c, r), 11, [])
  {
    assert MovedUe(u, c, r).byRan[(5, 1)] == u;
  }

  lemma NotifyGuarded(u: NgapContext, c: UeContext, r: NasRecord)
    ensures Guard(Leaving(u, c, r, 7), HandoverNotify(12, 0, 7, true))
  {
    var s := Leaving(u, c, r, 7);
    assert IsHome(s, (5, 1));
    assert forall k :: !AwaitedAt(s, u, k);
  }

  /** NG Reset of the target during that time leaves the source entry of the RAN index behind, and it then
      leads to a context of the association that was reset. */
  lemma ResetDuringHandoverIsIncomplete(u: NgapContext, c: UeContext, r: NasRecord)
    ensures var s := MovedUe(u, c, r);
            Leads(FirstMoves(u, c, r), s) && Valid(s) && Lists(s, 12, [u, u]) && !Gone(OnNgReset(s, 12, [u, u]), 12)
  {
    var s := MovedUe(u, c, r);
    MovedUeIsReached(u, c, r);
    MovedUeListed(u, c, r);
    ResetIsIncomplete(s, 12, [u, u], (5, 1));
  }

  lemma ResetIsIncomplete(s: State, assoc: Assoc, order: seq<NgapContext>, k: RanKey)
    requires Valid(s) && assoc in s.gnbs && Lists(s, assoc, order)
    requires k in s.byRan && NgapOf(s, s.byRan[k]).assoc == assoc && !IsHome(s, k)
    ensures !Gone(OnNgReset(s, assoc, order), assoc)
  {
    Linked(s);
    ResetIsCompleteAndFramed(s, assoc, order, 0);
  }

  /** NG Shutdown of the source during that time is guarded, and no context of the source is left.  Yet the UE's key at
      the source stays, and no Release Complete from there will be heeded any more. */
  lemma ShutdownOfSourceLeavesKey(u: NgapContext, c: UeContext, r: NasRecord, ranId: RanId)
    ensures var s := MovedUe(u, c, r); var t := OnNgShutdown(s, 11, []);
            && Leads(FirstMoves(u, c, r), s) && Lists(s, 11, []) && Guard(s, NgShutdown(11, [])) && Gone(t, 11)
            && (5, 1) in t.byRan && t.byRan[(5, 1)] == u && ReleaseBranchOf(t, 11, 0, ranId) == Ignored
  {
    MovedUeIsReached(u, c, r);
    MovedUeListed(u, c, r);
    SourceGone(u, c, r);
    SourceHome(u, c, r);
    SourceKeyStays(u, c, r, ranId);
  }

  lemma SourceGone(u: NgapContext, c: UeContext, r: NasRecord)
    ensures Gone(OnNgShutdown(MovedUe(u, c, r), 11, []), 11)
  {
    NothingRemoved(MovedUe(u, c, r), 11);
  }

  lemma SourceHome(u: NgapContext, c: UeContext, r: NasRecord)
    ensures AllHome(MovedUe(u, c, r), 11)
  {
  }

  lemma SourceKeyStays(u: NgapContext, c: UeContext, r: NasRecord, ranId: RanId)
    ensures var t := OnNgShutdown(MovedUe(u, c, r), 11, []);
            (5, 1) in t.byRan && t.byRan[(5, 1)] == u && ReleaseBranchOf(t, 11, 0, ranId) == Ignored
  {
    NothingRemoved(MovedUe(u, c, r), 11);
  }

  lemma NothingRemoved(s: State, assoc: Assoc)
    requires assoc in s.gnbs
    ensures OnNgShutdown(s, assoc, []) == s.(gnbs := Without(s.gnbs, assoc))
  {
  }

  // ------------------------------------------------------- two UEs with one SUPI

  /** Two UEs on the associations 11 and 12 whose NAS records carry the same SUPI; it leads to the second record. */
  function SameSupi(u: NgapContext, v: NgapContext, c: UeContext, d: UeContext, r: NasRecord, q: NasRecord): State {
    SecondUeConnected(u, v, c, d, r).(
      nasByAmf := map[0 := r, 1 := q], nasBySupi := map[900 := q], amfBySupi := map[900 := 1],
      nas := map[r := Nas(5, 0, 900, CmConnected), q := Nas(7, 1, 900, CmConnected)])
  }

  /** Before the second of them attaches. */
  function SecondUe(u: NgapContext, v: NgapContext, c: UeContext, d: UeContext, r: NasRecord): State {
    State(map[11 := Gnb(1, Ready), 12 := Gnb(2, Ready)], map[1 := 11, 2 := 12],
          map[(5, 1) := u, (7, 2) := v], map[0 := u, 1 := v], map[(5, 0) := c, (7, 1) := d],
          map[0 := r], map[900 := r], map[900 := 0],
          map[u := Ngap(5, Some(0), 11, Connected, 0, 0, NoCause, 0),
              v := Ngap(7, Some(1), 12, NotConnected, 0, 0, NoCause, 0)],
          map[c := Ue(5, 0, 1), d := Ue(7, 1, 2)], map[r := Nas(5, 0, 900, CmConnected)], 2)
  }

  /** And before it has an AMF id. */
  function SecondSeen(u: NgapContext, v: NgapContext, c: UeContext, r: NasRecord): State {
    OneUe(u, c, r).(byRan := map[(5, 1) := u, (7, 2) := v],
                    ngap := map[u := Ngap(5, Some(0), 11, Connected, 0, 0, NoCause, 0),
                                v := Ngap(7, None, 12, NotConnected, 0, 0, NoCause, 0)])
  }

  function OneUeConnected(u: NgapContext, c: UeContext, r: NasRecord): State {
    OneUe(u, c, r).(ngap := map[u := Ngap(5, Some(0), 11, Connected, 0, 0, NoCause, 0)])
  }

  lemma FirstConnects(u: NgapContext, c: UeContext, r: NasRecord)
    ensures Step(OneUe(u, c, r), DlNas(5, 0)) == OneUeConnected(u, c, r)
  {
    var s := OneUe(u, c, r);
    assert ViaUeKey(s, (5, 0)) == Some(u);
    assert s.byAmf[0 := u] == s.byAmf;
    assert OnDlNas(s, 5, 0).ngap == OneUeConnected(u, c, r).ngap;
  }

  lemma SecondIsSeen(u: NgapContext, v: NgapContext, c: UeContext, r: NasRecord)
    requires u != v
    ensures Step(OneUeConnected(u, c, r), InitialUe(12, 7, v)) == SecondSeen(u, v, c, r)
  {
    var t, goal := OnInitialUe(OneUeConnected(u, c, r), 12, 7, v), SecondSeen(u, v, c, r);
    assert t.byRan == goal.byRan && t.ngap == goal.ngap;
  }

  lemma SecondEstablishes(u: NgapContext, v: NgapContext, c: UeContext, d: UeContext, r: NasRecord)
    requires u != v && c != d
    ensures Step(SecondSeen(u, v, c, r), Establish(7, 2, d)) == SecondUe(u, v, c, d, r)
  {
    var t, goal := OnEstablish(SecondSeen(u, v, c, r), 7, 2, d), SecondUe(u, v, c, d, r);
    assert t.byAmf == goal.byAmf && t.byUeKey == goal.byUeKey;
    assert t.ngap == goal.ngap && t.ue == goal.ue;
  }

  lemma SecondConnects(u: NgapContext, v: NgapContext, c: UeContext, d: UeContext, r: NasRecord)
    requires u != v && c != d
    ensures Step(SecondUe(u, v, c, d, r), DlNas(7, 1)) == SecondUeConnected(u, v, c, d, r)
  {
    var s := SecondUe(u, v, c, d, r);
    assert ViaUeKey(s, (7, 1)) == Some(v);
    assert s.byAmf[1 := v] == s.byAmf;
    assert OnDlNas(s, 7, 1).ngap == SecondUeConnected(u, v, c, d, r).ngap;
  }

  lemma SecondUeAttaches(u: NgapContext, v: NgapContext, c: UeContext, d: UeContext, r: NasRecord, q: NasRecord)
    requires u != v && c != d && r != q
    ensures Step(SecondUeConnected(u, v, c, d, r), NasAttach(7, 1, 900, q)) == SameSupi(u, v, c, d, r, q)
  {
    assert map[0 := r][1 := q] == map[0 := r, 1 := q];
    assert map[900 := r][900 := q] == map[900 := q];
    assert map[900 := 0][900 := 1] == map[900 := 1];
    assert map[r := Nas(5, 0, 900, CmConnected)][q := Nas(7, 1, 900, CmConnected)]
        == map[r := Nas(5, 0, 900, CmConnected), q := Nas(7, 1, 900, CmConnected)];
  }

  lemma OneUeIsConnected(u: NgapContext, c: UeContext, r: NasRecord)
    ensures Leads(FirstAttaches(u, c, r) + [DlNas(5, 0)], OneUeConnected(u, c, r))
  {
    OneUeIsReached(u, c, r);
    FirstConnects(u, c, r);
    LeadsTo(FirstAttaches(u, c, r), OneUe(u, c, r), DlNas(5, 0), OneUeConnected(u, c, r));
  }

  lemma SecondSeenIsReached(u: NgapContext, v: NgapContext, c: UeContext, r: NasRecord)
    requires u != v
    ensures Leads(FirstAttaches(u, c, r) + [DlNas(5, 0)] + [InitialUe(12, 7, v)], SecondSeen(u, v, c, r))
  {
    OneUeIsConnected(u, c, r);
    SecondIsSeen(u, v, c, r);
    LeadsTo(FirstAttaches(u, c, r) + [DlNas(5, 0)], OneUeConnected(u, c, r), InitialUe(12, 7, v),
            SecondSeen(u, v, c, r));
  }

  lemma SecondUeIsReached(u: NgapContext, v: NgapContext, c: UeContext, d: UeContext, r: NasRecord)
    requires u != v && c != d
    ensures Leads(FirstAttaches(u, c, r) + [DlNas(5, 0)] + [InitialUe(12, 7, v)] + [Establish(7, 2, d)],
                  SecondUe(u, v, c, d, r))
  {
    SecondSeenIsReached(u, v, c, r);
    SecondEstablishes(u, v, c, d, r);
    LeadsTo(FirstAttaches(u, c, r) + [DlNas(5, 0)] + [InitialUe(12, 7, v)], SecondSeen(u, v, c, r), Establish(7, 2, d),
            SecondUe(u, v, c, d, r));
  }

  function SecondUeConnected(u: NgapContext, v: NgapContext, c: UeContext, d: UeContext, r: NasRecord): State {
    SecondUe(u, v, c, d, r).(ngap := map[u := Ngap(5, Some(0), 11, Connected, 0, 0, NoCause, 0),
                                         v := Ngap(7, Some(1), 12, Connected, 0, 0, NoCause, 0)])
  }

  lemma SecondUeIsConnected(u: NgapContext, v: NgapContext, c: UeContext, d: UeContext, r: NasRecord)
    requires u != v && c != d
    ensures Leads(FirstAttaches(u, c, r) + [DlNas(5, 0)] + [InitialUe(12, 7, v)] + [Establish(7, 2, d)] + [DlNas(7, 1)],
                  SecondUeConnected(u, v, c, d, r))
  {
    SecondUeIsReached(u, v, c, d, r);
    SecondConnects(u, v, c, d, r);
    LeadsTo(FirstAttaches(u, c, r) + [DlNas(5, 0)] + [InitialUe(12, 7, v)] + [Establish(7, 2, d)],
            SecondUe(u, v, c, d, r), DlNas(7, 1), SecondUeConnected(u, v, c, d, r));
  }

  lemma SameSupiIsReached(u: NgapContext, v: NgapContext, c: UeContext, d: UeContext, r: NasRecord, q: NasRecord)
    requires u != v && c != d && r != q
    ensures Leads(SecondAttaches(u, v, c, d, r, q), SameSupi(u, v, c, d, r, q)) && Valid(SameSupi(u, v, c, d, r, q))
  {
    SecondUeIsConnected(u, v, c, d, r);
    SecondUeAttaches(u, v, c, d, r, q);
    LeadsTo(FirstAttaches(u, c, r) + [DlNas(5, 0)] + [InitialUe(12, 7, v)] + [Establish(7, 2, d)] + [DlNas(7, 1)],
            SecondUeConnected(u, v, c, d, r), NasAttach(7, 1, 900, q), SameSupi(u, v, c, d, r, q));
    ReachedIsValid(SecondAttaches(u, v, c, d, r, q), SameSupi(u, v, c, d, r, q));
  }

  lemma SameSupiListed(u: NgapContext, v: NgapContext, c: UeContext, d: UeContext, r: NasRecord, q: NasRecord)
    requires u != v && c != d && r != q
    ensures var s := SameSupi(u, v, c, d, r, q); Lists(s, 11, [u])
  {
    assert SameSupi(u, v, c, d, r, q).byRan[(5, 1)] == u;
  }

  lemma SameSupiOn(u: NgapContext, v: NgapContext, c: UeContext, d: UeContext, r: NasRecord, q: NasRecord)
    requires u != v && c != d && r != q
    ensures SupiOn(SameSupi(u, v, c, d, r, q), 11, 900)
  {
    var s := SameSupi(u, v, c, d, r, q);
    assert NgapOf(s, s.byAmf[0]).assoc == 11;
  }

  lemma SameSupiHome(u: NgapContext, v: NgapContext, c: UeContext, d: UeContext, r: NasRecord, q: NasRecord)
    requires u != v && c != d && r != q
    ensures AllHome(SameSupi(u, v, c, d, r, q), 11)
  {
    var s := SameSupi(u, v, c, d, r, q);
    assert s.gnbs[11].id == 1 && s.byRan[(5, 1)] == u && s.byRan[(7, 2)] == v;
    assert NgapOf(s, u).ranId == 5 && NgapOf(s, u).assoc == 11 && NgapOf(s, v).assoc == 12;
    forall k | k in s.byRan && NgapOf(s, s.byRan[k]).assoc == 11 ensures IsHome(s, k) {
      assert k == (5, 1);
    }
  }

  lemma ResetLosesSupi(s: State, assoc: Assoc, order: seq<NgapContext>, x: Supi)
    requires Valid(s) && assoc in s.gnbs && Lists(s, assoc, order) && x in s.nasBySupi && SupiOn(s, assoc, x)
    ensures x !in OnNgReset(s, assoc, order).nasBySupi
  {
    Linked(s);
    ResetIsCompleteAndFramed(s, assoc, order, x);
  }

  /** NG Reset of association 11 makes the SUPI lead nowhere, although it led to the UE of association 12. */
  lemma ResetLosesForeignSupi(u: NgapContext, v: NgapContext, c: UeContext, d: UeContext, r: NasRecord, q: NasRecord)
    requires u != v && c != d && r != q
    ensures var s := SameSupi(u, v, c, d, r, q);
            && Leads(SecondAttaches(u, v, c, d, r, q), s) && Valid(s) && Lists(s, 11, [u]) && AllHome(s, 11)
            && s.nasBySupi[900] == s.nasByAmf[1] && NgapOf(s, s.byAmf[1]).assoc == 12
            && 900 !in OnNgReset(s, 11, [u]).nasBySupi
  {
    SameSupiIsReached(u, v, c, d, r, q);
    SameSupiListed(u, v, c, d, r, q);
    SameSupiOn(u, v, c, d, r, q);
    SameSupiHome(u, v, c, d, r, q);
    ResetLosesSupi(SameSupi(u, v, c, d, r, q), 11, [u], 900);
  }

  // ------------------------------------------------------- NG Setup with a new gNB id

  lemma NewIdSpoils(s: State, u: NgapContext)
    requires Valid(s) && s.byRan == map[(5, 1) := u] && 11 in s.gnbs && s.gnbs[11].id == 1
    requires NgapOf(s, u).ranId == 5 && NgapOf(s, u).assoc == 11 && !Complete(s, u)
    ensures var t := OnNgSetup(s, 11, 3, Released(true), [u]);
            (5, 1) in t.byRan && t.gnbs[11].id == 3 && !Agreed(t)
  {
    OneListed(s, u);
    Linked(s);
    assert u in On(s, 11) && Survivor(s, 11, (5, 1));
    SurvivorStays(s, 11, [u], 3, (5, 1));
    SetupRemoves(s, 11, 3, Released(true), [u]);
    SetupGnbs(s, 11, 3, Released(true), [u]);
    SetupSpoils(s, 11, 3, Released(true), [u]);
  }

  /** A UE that has an AMF id but no NAS record yet: NG Setup that gives it up under a new id leaves its RAN entry,
      although nothing else that NG Setup must meet is missing. */
  lemma NewIdLeavesUe(u: NgapContext, c: UeContext)
    ensures var s := Established(u, c); var t := OnNgSetup(s, 11, 3, Released(true), [u]);
            && Leads(SetUpBoth() + [InitialUe(11, 5, u)] + [Establish(5, 1, c)], s) && Lists(s, 11, [u])
            && NoClash(s, 11, 3) && AllHome(s, 11) && AwaitsOnly(s, 11, 3)
            && (5, 1) in t.byRan && t.gnbs[11].id == 3 && !Agreed(t)
  {
    EstablishedIsReached(u, c);
    ReachedIsValid(SetUpBoth() + [InitialUe(11, 5, u)] + [Establish(5, 1, c)], Established(u, c));
    OneListed(Established(u, c), u);
    assert !Complete(Established(u, c), u);
    NewIdSpoils(Established(u, c), u);
  }

  /** One UE, at home on gNB 1. */
  lemma OneListed(s: State, u: NgapContext)
    requires s.byRan == map[(5, 1) := u] && 11 in s.gnbs && s.gnbs[11].id == 1
    requires NgapOf(s, u).ranId == 5 && NgapOf(s, u).assoc == 11
    ensures Lists(s, 11, [u]) && On(s, 11) == {u} && NoClash(s, 11, 3) && AllHome(s, 11) && AwaitsOnly(s, 11, 3)
  {
    assert s.byRan[(5, 1)] == u;
    assert IsHome(s, (5, 1));
  }

  /** With its NAS record in place the same setup is guarded. */
  lemma NewIdIsGuarded(u: NgapContext, c: UeContext, r: NasRecord)
    ensures Leads(FirstAttaches(u, c, r), OneUe(u, c, r))
    ensures Guard(OneUe(u, c, r), NgSetup(11, 3, Released(true), [u]))
  {
    OneUeIsReached(u, c, r);
    OneListed(OneUe(u, c, r), u);
  }

  /** The UE that has moved to gNB 2, and a second one there that has the RAN id which the first had at gNB 1. */
  function SameRanId(u: NgapContext, w: NgapContext, c: UeContext, d: UeContext, r: NasRecord, q: NasRecord): State {
    State(map[11 := Gnb(1, Ready), 12 := Gnb(2, Ready)], map[1 := 11, 2 := 12],
          map[(5, 1) := u, (7, 2) := u, (5, 2) := w], map[0 := u, 1 := w], map[(5, 0) := c, (7, 0) := c, (5, 1) := d],
          map[0 := r, 1 := q], map[900 := r, 901 := q], map[900 := 0, 901 := 1],
          map[u := Ngap(7, Some(0), 12, Connected, 0, 12, SuccessfulHandover, 11),
              w := Ngap(5, Some(1), 12, NotConnected, 0, 0, NoCause, 0)],
          map[c := Ue(7, 0, 2), d := Ue(5, 1, 2)],
          map[r := Nas(7, 0, 900, CmConnected), q := Nas(5, 1, 901, CmConnected)], 2)
  }

  /** Before the second UE attaches. */
  function NextUe(u: NgapContext, w: NgapContext, c: UeContext, d: UeContext, r: NasRecord): State {
    MovedUe(u, c, r).(
      byRan := map[(5, 1) := u, (7, 2) := u, (5, 2) := w], byAmf := map[0 := u, 1 := w],
      byUeKey := map[(5, 0) := c, (7, 0) := c, (5, 1) := d],
      ngap := map[u := Ngap(7, Some(0), 12, Connected, 0, 12, SuccessfulHandover, 11),
                  w := Ngap(5, Some(1), 12, NotConnected, 0, 0, NoCause, 0)],
      ue := map[c := Ue(7, 0, 2), d := Ue(5, 1, 2)], nextAmfId := 2)
  }

  /** And before it has an AMF id. */
  function NextSeen(u: NgapContext, w: NgapContext, c: UeContext, r: NasRecord): State {
    MovedUe(u, c, r).(byRan := map[(5, 1) := u, (7, 2) := u, (5, 2) := w],
                      ngap := map[u := Ngap(7, Some(0), 12, Connected, 0, 12, SuccessfulHandover, 11),
                                  w := Ngap(5, None, 12, NotConnected, 0, 0, NoCause, 0)])
  }

  function NextAttaches(u: NgapContext, w: NgapContext, c: UeContext, d: UeContext, r: NasRecord, q: NasRecord)
    : seq<Event>
  {
    FirstMoves(u, c, r) + [InitialUe(12, 5, w)] + [Establish(5, 2, d)] + [NasAttach(5, 1, 901, q)]
  }

  lemma NextIsSeen(u: NgapContext, w: NgapContext, c: UeContext, r: NasRecord)
    requires u != w
    ensures Step(MovedUe(u, c, r), InitialUe(12, 5, w)) == NextSeen(u, w, c, r)
  {
    var t, goal := OnInitialUe(MovedUe(u, c, r), 12, 5, w), NextSeen(u, w, c, r);
    assert t.byRan == goal.byRan && t.ngap == goal.ngap;
  }

  lemma NextSeenIsReached(u: NgapContext, w: NgapContext, c: UeContext, r: NasRecord)
    requires u != w
    ensures Leads(FirstMoves(u, c, r) + [InitialUe(12, 5, w)], NextSeen(u, w, c, r))
  {
    MovedUeIsReached(u, c, r);
    NextIsSeen(u, w, c, r);
    LeadsTo(FirstMoves(u, c, r), MovedUe(u, c, r), InitialUe(12, 5, w), NextSeen(u, w, c, r));
  }

  lemma NextEstablishes(u: NgapContext, w: NgapContext, c: UeContext, d: UeContext, r: NasRecord)
    requires u != w && c != d
    ensures Step(NextSeen(u, w, c, r), Establish(5, 2, d)) == NextUe(u, w, c, d, r)
  {
    assert map[0 := u][1 := w] == map[0 := u, 1 := w];
    assert map[(5, 0) := c, (7, 0) := c][(5, 1) := d] == map[(5, 0) := c, (7, 0) := c, (5, 1) := d];
    assert map[c := Ue(7, 0, 2)][d := Ue(5, 1, 2)] == map[c := Ue(7, 0, 2), d := Ue(5, 1, 2)];
    assert NextSeen(u, w, c, r).ngap[w := Ngap(5, Some(1), 12, NotConnected, 0, 0, NoCause, 0)]
        == NextUe(u, w, c, d, r).ngap;
  }

  lemma NextUeIsReached(u: NgapContext, w: NgapContext, c: UeContext, d: UeContext, r: NasRecord)
    requires u != w && c != d
    ensures Leads(FirstMoves(u, c, r) + [InitialUe(12, 5, w)] + [Establish(5, 2, d)], NextUe(u, w, c, d, r))
  {
    NextSeenIsReached(u, w, c, r);
    NextEstablishes(u, w, c, d, r);
    LeadsTo(FirstMoves(u, c, r) + [InitialUe(12, 5, w)], NextSeen(u, w, c, r), Establish(5, 2, d),
            NextUe(u, w, c, d, r));
  }

  lemma NextUeAttaches(u: NgapContext, w: NgapContext, c: UeContext, d: UeContext, r: NasRecord, q: NasRecord)
    requires u != w && c != d && r != q
    ensures Step(NextUe(u, w, c, d, r), NasAttach(5, 1, 901, q)) == SameRanId(u, w, c, d, r, q)
  {
    assert map[0 := r][1 := q] == map[0 := r, 1 := q];
    assert map[900 := r][901 := q] == map[900 := r, 901 := q];
    assert map[900 := 0][901 := 1] == map[900 := 0, 901 := 1];
    assert map[r := Nas(7, 0, 900, CmConnected)][q := Nas(5, 1, 901, CmConnected)]
        == map[r := Nas(7, 0, 900, CmConnected), q := Nas(5, 1, 901, CmConnected)];
  }

  lemma SameRanIdIsReached(u: NgapContext, w: NgapContext, c: UeContext, d: UeContext, r: NasRecord, q: NasRecord)
    requires u != w && c != d && r != q
    ensures Leads(NextAttaches(u, w, c, d, r, q), SameRanId(u, w, c, d, r, q)) && Valid(SameRanId(u, w, c, d, r, q))
  {
    NextUeIsReached(u, w, c, d, r);
    NextUeAttaches(u, w, c, d, r, q);
    LeadsTo(FirstMoves(u, c, r) + [InitialUe(12, 5, w)] + [Establish(5, 2, d)], NextUe(u, w, c, d, r),
            NasAttach(5, 1, 901, q), SameRanId(u, w, c, d, r, q));
    ReachedIsValid(NextAttaches(u, w, c, d, r, q), SameRanId(u, w, c, d, r, q));
  }

  // the removals, where they find what they look for, and where they do not

  /** The objects hold what they held, and no SUPI leads elsewhere. */
  ghost predicate SameObjects(t: State, t': State) {
    && t'.ngap == t.ngap && t'.nas == t.nas && t'.byUeKey == t.byUeKey && t'.ue == t.ue
    && forall x | x in t'.nasBySupi :: x in t.nasBySupi && t'.nasBySupi[x] == t.nasBySupi[x]
  }

  lemma FoundByAmf(t: State, a: AmfId, ranId: RanId, c: UeContext)
    requires a in t.nasByAmf && NasOf(t, t.nasByAmf[a]).ranId == ranId
    requires (ranId, a) in t.byUeKey && t.byUeKey[(ranId, a)] == c
    ensures var t' := RemoveByAmf(t, Some(a));
            && SameObjects(t, t') && t'.byAmf == Without(t.byAmf, a) && t'.nasByAmf == Without(t.nasByAmf, a)
            && t'.byRan == Without(t.byRan, (ranId, UeOf(t, c).gnbId))
  {
  }

  lemma FoundByRan(t: State, k: RanKey, b: AmfId)
    requires k in t.byRan && NgapOf(t, t.byRan[k]).amfId == Some(b)
    ensures var t' := RemoveByRan(t, k.0, k.1);
            && SameObjects(t, t') && t'.byAmf == Without(t.byAmf, b) && t'.byRan == Without(t.byRan, k)
            && t'.nasByAmf == Without(t.nasByAmf, b)
  {
    var s' := t.(byRan := Without(t.byRan, k));
    NasGone(s', b);
    assert RemoveByRan(t, k.0, k.1) == WithoutNas(s', b).(byAmf := Without(t.byAmf, b));
  }

  lemma FoundByNeither(t: State, u: NgapContext, a: AmfId, gnbId: GnbId)
    requires NgapOf(t, u).amfId == Some(a) && a !in t.nasByAmf && (NgapOf(t, u).ranId, gnbId) !in t.byRan
    ensures RemoveListed(t, u, gnbId) == t.(byAmf := Without(t.byAmf, a))
  {
  }

  lemma RemoveThree(t: State, u: NgapContext, v: NgapContext, w: NgapContext, gnbId: GnbId)
    ensures RemoveAllListed(t, [u, v, w], gnbId)
         == RemoveListed(RemoveListed(RemoveListed(t, u, gnbId), v, gnbId), w, gnbId)
  {
    var t1 := RemoveListed(t, u, gnbId);
    var t2 := RemoveListed(t1, v, gnbId);
    assert [u, v, w][1..] == [v, w] && [v, w][1..] == [w] && [w][1..] == [];
    assert RemoveAllListed(t2, [w], gnbId) == RemoveAllListed(RemoveListed(t2, w, gnbId), [], gnbId);
    assert RemoveAllListed(t1, [v, w], gnbId) == RemoveAllListed(t2, [w], gnbId);
  }

  // the two orders, for a setup of association 12 under the id of gNB 1

  /** What the removals see of such a state. */
  predicate Crossed(s: State, u: NgapContext, w: NgapContext, c: UeContext, d: UeContext, r: NasRecord, q: NasRecord) {
    && s.byRan == map[(5, 1) := u, (7, 2) := u, (5, 2) := w] && s.byAmf == map[0 := u, 1 := w]
    && s.nasByAmf == map[0 := r, 1 := q] && NasOf(s, r).ranId == 7 && NasOf(s, q).ranId == 5
    && NgapOf(s, u).ranId == 7 && NgapOf(s, u).amfId == Some(0)
    && NgapOf(s, w).ranId == 5 && NgapOf(s, w).amfId == Some(1)
    && (7, 0) in s.byUeKey && s.byUeKey[(7, 0)] == c && UeOf(s, c).gnbId == 2
    && (5, 1) in s.byUeKey && s.byUeKey[(5, 1)] == d && UeOf(s, d).gnbId == 2
  }

  lemma SameRanIdIsCrossed(u: NgapContext, w: NgapContext, c: UeContext, d: UeContext, r: NasRecord, q: NasRecord)
    requires u != w && c != d && r != q
    ensures Crossed(SameRanId(u, w, c, d, r, q), u, w, c, d, r, q)
  {
  }

  lemma FirstRemoved(s: State, u: NgapContext, w: NgapContext, c: UeContext, d: UeContext, r: NasRecord, q: NasRecord)
    requires Crossed(s, u, w, c, d, r, q)
    ensures var t := RemoveListed(s, u, 1);
            && SameObjects(s, t) && t.byRan == Without(s.byRan, (7, 2)) && t.byAmf == Without(s.byAmf, 0)
            && t.nasByAmf == Without(s.nasByAmf, 0)
  {
    FoundByAmf(s, 0, 7, c);
    var t := RemoveByAmf(s, Some(0));
    assert (7, 1) !in t.byRan;
    assert RemoveByRan(t, 7, 1) == t;
  }

  /** Whatever else is there, the removals of the second UE take the left-behind entry of the first along. */
  lemma SecondRemoved(s: State, t: State, u: NgapContext, w: NgapContext, d: UeContext, q: NasRecord)
    requires SameObjects(s, t) && NgapOf(s, u).amfId == Some(0)
    requires NgapOf(s, w).amfId == Some(1) && NgapOf(s, w).ranId == 5
    requires (5, 1) in s.byUeKey && s.byUeKey[(5, 1)] == d && UeOf(s, d).gnbId == 2 && NasOf(s, q).ranId == 5
    requires (5, 1) in t.byRan && t.byRan[(5, 1)] == u && 1 in t.nasByAmf && t.nasByAmf[1] == q
    ensures var t' := RemoveListed(t, w, 1);
            && SameObjects(s, t') && t'.byRan == Without(Without(t.byRan, (5, 2)), (5, 1))
            && t'.byAmf == Without(Without(t.byAmf, 1), 0) && t'.nasByAmf == Without(Without(t.nasByAmf, 1), 0)
  {
    FoundByAmf(t, 1, 5, d);
    FoundByRan(RemoveByAmf(t, Some(1)), (5, 1), 0);
  }

  lemma FirstThenSecond(s: State, u: NgapContext, w: NgapContext, c: UeContext, d: UeContext, r: NasRecord,
                        q: NasRecord)
    requires Crossed(s, u, w, c, d, r, q)
    ensures var t := RemoveAllListed(s, [u, w, u], 1);
            SameObjects(s, t) && t.byRan == map[] && t.byAmf == map[] && t.nasByAmf == map[]
  {
    FirstRemoved(s, u, w, c, d, r, q);
    var t1 := RemoveListed(s, u, 1);
    SecondRemoved(s, t1, u, w, d, q);
    var t2 := RemoveListed(t1, w, 1);
    assert t2.byRan == map[] && t2.byAmf == map[] && t2.nasByAmf == map[];
    FoundByNeither(t2, u, 0, 1);
    RemoveThree(s, u, w, u, 1);
  }

  lemma SecondThenFirst(s: State, u: NgapContext, w: NgapContext, c: UeContext, d: UeContext, r: NasRecord,
                        q: NasRecord)
    requires Crossed(s, u, w, c, d, r, q)
    ensures var t := RemoveAllListed(s, [w, u, u], 1);
            SameObjects(s, t) && (7, 2) in t.byRan && t.byRan[(7, 2)] == u && 0 !in t.byAmf
  {
    SecondRemoved(s, s, u, w, d, q);
    var t1 := RemoveListed(s, w, 1);
    assert 0 !in t1.nasByAmf && (7, 1) !in t1.byRan && (7, 2) in t1.byRan;
    FoundByNeither(t1, u, 0, 1);
    FoundByNeither(RemoveListed(t1, u, 1), u, 0, 1);
    RemoveThree(s, w, u, u, 1);
  }

  lemma NothingLeftAgrees(s: State, t: State)
    requires Agreed(s) && SameObjects(s, t) && t.byRan == map[] && t.byAmf == map[] && t.nasByAmf == map[]
    ensures Agreed(t)
  {
    SameUeKeys(s, t);
  }

  /** Both UEs are on association 12, and it is set up anew under the id of gNB 1, at which the first UE left an entry
      with the RAN id of the second.  Whether the tables agree afterwards depends on the order of the list. */
  lemma SetupDependsOnOrder(u: NgapContext, w: NgapContext, c: UeContext, d: UeContext, r: NasRecord, q: NasRecord)
    requires u != w && c != d && r != q
    ensures var s := SameRanId(u, w, c, d, r, q);
            && Leads(NextAttaches(u, w, c, d, r, q), s) && Lists(s, 12, [u, w, u]) && Lists(s, 12, [w, u, u])
            && Agreed(OnNgSetup(s, 12, 1, Released(true), [u, w, u]))
            && !Agreed(OnNgSetup(s, 12, 1, Released(true), [w, u, u]))
  {
    SameRanIdIsReached(u, w, c, d, r, q);
    SameRanIdListed(u, w, c, d, r, q);
    GoodOrder(u, w, c, d, r, q);
    BadOrder(u, w, c, d, r, q);
  }

  lemma SameRanIdListed(u: NgapContext, w: NgapContext, c: UeContext, d: UeContext, r: NasRecord, q: NasRecord)
    requires u != w && c != d && r != q
    ensures var s := SameRanId(u, w, c, d, r, q); Lists(s, 12, [u, w, u]) && Lists(s, 12, [w, u, u])
  {
    var s := SameRanId(u, w, c, d, r, q);
    assert s.byRan[(7, 2)] == u && s.byRan[(5, 2)] == w;
  }

  lemma GoodOrder(u: NgapContext, w: NgapContext, c: UeContext, d: UeContext, r: NasRecord, q: NasRecord)
    requires u != w && c != d && r != q
    ensures Agreed(OnNgSetup(SameRanId(u, w, c, d, r, q), 12, 1, Released(true), [u, w, u]))
  {
    var s := SameRanId(u, w, c, d, r, q);
    var t := OnNgSetup(s, 12, 1, Released(true), [u, w, u]);
    SameRanIdIsReached(u, w, c, d, r, q);
    SetupRemoves(s, 12, 1, Released(true), [u, w, u]);
    SameRanIdIsCrossed(u, w, c, d, r, q);
    FirstThenSecond(s, u, w, c, d, r, q);
    NothingLeftAgrees(s, t);
  }

  lemma BadOrder(u: NgapContext, w: NgapContext, c: UeContext, d: UeContext, r: NasRecord, q: NasRecord)
    requires u != w && c != d && r != q
    ensures !Agreed(OnNgSetup(SameRanId(u, w, c, d, r, q), 12, 1, Released(true), [w, u, u]))
  {
    var s := SameRanId(u, w, c, d, r, q);
    var t := OnNgSetup(s, 12, 1, Released(true), [w, u, u]);
    SetupRemoves(s, 12, 1, Released(true), [w, u, u]);
    SameRanIdIsCrossed(u, w, c, d, r, q);
    SecondThenFirst(s, u, w, c, d, r, q);
    assert NgapOf(t, u).amfId == Some(0) && !RanAgrees(t, (7, 2));
  }

  // ------------------------------------------------------- de-registration

  /** After UE-initiated de-registration the Release Complete that follows never takes the UE out of the index by AMF
      id.  Other than as the release of a handover source it has no effect at all: it finds no NAS record and returns,
      and the RAN index keeps the UE's entries too. */
  lemma DeregistrationLeavesEntries(s: State, a: AmfId, assoc: Assoc, ranId: RanId)
    requires a in s.byAmf
    ensures var t := OnReleaseComplete(OnDeregister(s, a), assoc, a, ranId); t.byAmf == s.byAmf
    ensures OnReleaseComplete(OnDeregister(s, a), assoc, a, ranId) == OnDeregister(s, a) <==>
            ReleaseBranchOf(s, assoc, a, ranId) != HandoverRelease
    ensures OnDeregister(s, a).byRan == s.byRan
  {
    var t := OnDeregister(s, a);
    assert ReleaseBranchOf(t, assoc, a, ranId) ==
           if ReleaseBranchOf(s, assoc, a, ranId) == HandoverRelease then HandoverRelease else Ignored;
  }

  /** The next Initial UE Message with that RAN id finds the old context, AMF id and all. */
  lemma StaleContextAnswers(t: State, a: AmfId, assoc: Assoc, u0: NgapContext)
    requires Valid(t) && a in t.byAmf && InitialUeActs(t, assoc) && u0 !in t.ngap
    requires t.gnbs[assoc].id == HomeKey(t, t.byAmf[a]).1
    ensures var ranId := NgapOf(t, t.byAmf[a]).ranId; var t' := OnInitialUe(t, assoc, ranId, u0);
            && Guard(t, InitialUe(assoc, ranId, u0))
            && Agreed(t') && NasFitsAll(t') && t'.nextAmfId == t.nextAmfId && t'.ue == t.ue
            && (ranId, t.gnbs[assoc].id) in t'.byRan
            && NgapOf(t', t'.byRan[(ranId, t.gnbs[assoc].id)]).amfId == Some(a)
  {
    assert AmfAgrees(t, a);
    var e := InitialUe(assoc, NgapOf(t, t.byAmf[a]).ranId, u0);
    StepKeepsAgreement(t, e);
    StepFits(t, e);
  }

  /** So the AMF breaks agreement when it assigns an AMF id to the next UE with this RAN id. */
  lemma ReuseBreaksAgreement(t: State, a: AmfId, assoc: Assoc, u0: NgapContext, c0: UeContext)
    requires Valid(t) && t.nextAmfId < AMF_ID_MASK && a in t.byAmf && InitialUeActs(t, assoc)
    requires u0 !in t.ngap && c0 !in t.ue && t.gnbs[assoc].id == HomeKey(t, t.byAmf[a]).1
    ensures var ranId := NgapOf(t, t.byAmf[a]).ranId;
            !Agreed(OnEstablish(OnInitialUe(t, assoc, ranId, u0), ranId, t.gnbs[assoc].id, c0))
  {
    StaleContextAnswers(t, a, assoc, u0);
    var ranId := NgapOf(t, t.byAmf[a]).ranId;
    var t' := OnInitialUe(t, assoc, ranId, u0);
    UndrawnUnused(t');
    EstablishAgreement(t', ranId, t.gnbs[assoc].id, c0);
  }

  /** The gNB releases the RAN id of a UE that has de-registered, and gives it to its next UE. */
  function Reuse(a: AmfId, assoc: Assoc, ranId: RanId, u0: NgapContext): seq<Event> {
    [Deregister(a), ReleaseComplete(assoc, a, ranId), InitialUe(assoc, ranId, u0)]
  }

  lemma DeregisteredStaysValid(s: State, a: AmfId)
    requires Valid(s)
    ensures Valid(OnDeregister(s, a))
  {
    StepKeepsAgreement(s, Deregister(a));
    StepFits(s, Deregister(a));
  }

  lemma RunThree(s: State, e: Event, f: Event, g: Event)
    ensures Run(s, [e, f, g]) == Step(Step(Step(s, e), f), g)
    ensures Guarded(s, [e, f, g]) <==> Guard(s, e) && Guard(Step(s, e), f) && Guard(Step(Step(s, e), f), g)
  {
    var es := [e, f, g];
    assert es[1..] == [f, g] && [f, g][1..] == [g] && [g][1..] == [];
    var t := Step(Step(s, e), f);
    assert Run(t, [g]) == Run(Step(t, g), []);
    assert Guarded(t, [g]) == (Guard(t, g) && Guarded(Step(t, g), []));
  }

  lemma ReuseReported(s: State, a: AmfId, assoc: Assoc, u0: NgapContext)
    requires Valid(s) && a in s.byAmf && InitialUeActs(s, assoc) && u0 !in s.ngap
    requires s.gnbs[assoc].id == HomeKey(s, s.byAmf[a]).1
    ensures Guard(OnDeregister(s, a), InitialUe(assoc, NgapOf(s, s.byAmf[a]).ranId, u0))
  {
    DeregisteredStaysValid(s, a);
    StaleContextAnswers(OnDeregister(s, a), a, assoc, u0);
  }

  lemma ReuseBreaks(s: State, a: AmfId, assoc: Assoc, u0: NgapContext, c0: UeContext)
    requires Valid(s) && s.nextAmfId < AMF_ID_MASK && a in s.byAmf && InitialUeActs(s, assoc)
    requires u0 !in s.ngap && c0 !in s.ue && s.gnbs[assoc].id == HomeKey(s, s.byAmf[a]).1
    ensures var ranId := NgapOf(s, s.byAmf[a]).ranId;
            !Agreed(OnEstablish(OnInitialUe(OnDeregister(s, a), assoc, ranId, u0), ranId, s.gnbs[assoc].id, c0))
  {
    DeregisteredStaysValid(s, a);
    ReuseBreaksAgreement(OnDeregister(s, a), a, assoc, u0, c0);
  }

  /** Three steps, of which the second does nothing. */
  lemma IdleInBetween(s: State, e: Event, f: Event, g: Event)
    requires Guard(s, e) && Guard(Step(s, e), f) && Step(Step(s, e), f) == Step(s, e) && Guard(Step(s, e), g)
    ensures Guarded(s, [e, f, g]) && Run(s, [e, f, g]) == Step(Step(s, e), g)
  {
    RunThree(s, e, f, g);
  }

  lemma IgnoredRelease(t: State, assoc: Assoc, a: AmfId, ranId: RanId)
    requires ReleaseBranchOf(t, assoc, a, ranId) == Ignored
    ensures Guard(t, ReleaseComplete(assoc, a, ranId)) && Step(t, ReleaseComplete(assoc, a, ranId)) == t
  {
  }

  lemma ReuseRuns(s: State, a: AmfId, assoc: Assoc, ranId: RanId, u0: NgapContext)
    requires ReleaseBranchOf(s, assoc, a, ranId) != HandoverRelease
    requires Guard(Step(s, Deregister(a)), InitialUe(assoc, ranId, u0))
    ensures Guarded(s, Reuse(a, assoc, ranId, u0))
    ensures Run(s, Reuse(a, assoc, ranId, u0)) == Step(Step(s, Deregister(a)), InitialUe(assoc, ranId, u0))
  {
    ReleaseIsIgnored(s, a, assoc, ranId);
    IgnoredRelease(Step(s, Deregister(a)), assoc, a, ranId);
    IdleInBetween(s, Deregister(a), ReleaseComplete(assoc, a, ranId), InitialUe(assoc, ranId, u0));
  }

  lemma ReleaseIsIgnored(s: State, a: AmfId, assoc: Assoc, ranId: RanId)
    requires ReleaseBranchOf(s, assoc, a, ranId) != HandoverRelease
    ensures ReleaseBranchOf(OnDeregister(s, a), assoc, a, ranId) == Ignored
  {
  }

  /** In every valid state: a UE de-registers, its gNB releases the RAN id and reports it for its next UE.  All
      three are guarded and the tables agree; but when the AMF id of the new UE is assigned they no longer do. */
  lemma ReuseAfterDeregistration(s: State, a: AmfId, assoc: Assoc, u0: NgapContext, c0: UeContext)
    requires Valid(s) && s.nextAmfId < AMF_ID_MASK && a in s.byAmf && InitialUeActs(s, assoc)
    requires u0 !in s.ngap && c0 !in s.ue && s.gnbs[assoc].id == HomeKey(s, s.byAmf[a]).1
    requires var n := NgapOf(s, s.byAmf[a]); !(n.cause == SuccessfulHandover && n.releaseGnb == assoc)
    ensures var ranId := NgapOf(s, s.byAmf[a]).ranId; var es := Reuse(a, assoc, ranId, u0);
            Guarded(s, es) && !Agreed(OnEstablish(Run(s, es), ranId, s.gnbs[assoc].id, c0))
  {
    var ranId := NgapOf(s, s.byAmf[a]).ranId;
    ReuseReported(s, a, assoc, u0);
    ReuseRuns(s, a, assoc, ranId, u0);
    ReuseBreaks(s, a, assoc, u0, c0);
  }
}
