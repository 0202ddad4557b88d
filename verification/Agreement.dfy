/** When each NGAP procedure keeps the index tables in agreement, and that it does so
    exactly then. */
module Agreement {
  import opened Contexts
  import opened Registry

  /** A context with an AMF id answers to this RAN key. */
  predicate Live(s: State, k: RanKey) {
    IsHome(s, k) && NgapOf(s, s.byRan[k]).amfId.Some?
  }

  /** A handover release of this context is awaited at key k. */
  predicate AwaitedAt(s: State, u: NgapContext, k: RanKey) {
    IsStale(s, k) && s.byRan[k] == u
  }

  /** The gNB of this association is the one that serves the context. */
  predicate ServedBy(s: State, u: NgapContext, assoc: Assoc) {
    Served(s, u) && assoc in s.gnbs && s.gnbs[assoc].id == HomeKey(s, u).1
  }

  // ------------------------------------------------------- the contexts a step concerns

  /** An entry for a context outside us is an old one, and no live one is lost. */
  predicate OtherRanEntryKept(s: State, s': State, us: set<NgapContext>, k: RanKey) {
    && (k in s'.byRan && s'.byRan[k] !in us ==> k in s.byRan && s.byRan[k] == s'.byRan[k])
    && (Live(s, k) && s.byRan[k] !in us ==> k in s'.byRan && s'.byRan[k] == s.byRan[k])
  }

  predicate OtherAmfEntryKept(s: State, s': State, us: set<NgapContext>, a: AmfId) {
    && (a in s'.byAmf && s'.byAmf[a] !in us ==> a in s.byAmf && s.byAmf[a] == s'.byAmf[a])
    && (a in s.byAmf && s.byAmf[a] !in us ==> a in s'.byAmf && s'.byAmf[a] == s.byAmf[a])
  }

  predicate UeEntryKept(s: State, s': State, k: UeKey) {
    && k in s.byUeKey && k in s'.byUeKey && s'.byUeKey[k] == s.byUeKey[k]
    && UeOf(s', s'.byUeKey[k]).gnbId == UeOf(s, s.byUeKey[k]).gnbId
  }

  /** The step concerns the contexts us and the UE contexts of the AMF ids ids, and nothing else. */
  ghost predicate Concerns(s: State, s': State, us: set<NgapContext>, ids: set<AmfId>) {
    && s'.gnbs == s.gnbs
    && (forall a | a in ids && a in s.byAmf :: s.byAmf[a] in us)
    && (forall v {:trigger NgapOf(s', v)} :: v in s.ngap && v !in us ==> NgapOf(s', v) == NgapOf(s, v))
    && (forall k {:trigger OtherRanEntryKept(s, s', us, k)} :: OtherRanEntryKept(s, s', us, k))
    && (forall b {:trigger OtherAmfEntryKept(s, s', us, b)} :: OtherAmfEntryKept(s, s', us, b))
    && (forall k: UeKey {:trigger UeEntryKept(s, s', k)} ::
          k.1 !in ids && (k in s.byUeKey || k in s'.byUeKey) ==> UeEntryKept(s, s', k))
  }

  lemma OtherRan(s: State, s': State, us: set<NgapContext>, ids: set<AmfId>, k: RanKey)
    requires Agreed(s) && Concerns(s, s', us, ids)
    requires k in s'.byRan && s'.byRan[k] !in us
    ensures k in s.byRan && s.byRan[k] == s'.byRan[k]
    ensures RanAgrees(s', k) && IsStale(s', k) == IsStale(s, k)
  {
    assert OtherRanEntryKept(s, s', us, k);
    assert RanAgrees(s, k);
    var v := s.byRan[k];
    assert NgapOf(s', v) == NgapOf(s, v);
    var id := NgapOf(s, v).amfId;
    if id.Some? {
      assert OtherAmfEntryKept(s, s', us, id.value);
      if IsStale(s, k) {
        assert UeEntryKept(s, s', (k.0, id.value)) && UeEntryKept(s, s', (NgapOf(s, v).ranId, id.value));
      }
    }
  }

  lemma OtherAmf(s: State, s': State, us: set<NgapContext>, ids: set<AmfId>, b: AmfId)
    requires Agreed(s) && Concerns(s, s', us, ids)
    requires b in s'.byAmf && s'.byAmf[b] !in us
    ensures AmfAgrees(s', b)
  {
    assert OtherAmfEntryKept(s, s', us, b);
    assert AmfAgrees(s, b);
    var v := s.byAmf[b];
    assert NgapOf(s', v) == NgapOf(s, v);
    assert OtherRanEntryKept(s, s', us, HomeKey(s, v));
    assert UeEntryKept(s, s', (NgapOf(s, v).ranId, b));
  }

  /** The tables agree after the step once the entries of the concerned contexts do. */
  lemma AgreementOfTheConcerned(s: State, s': State, us: set<NgapContext>, ids: set<AmfId>)
    requires Agreed(s) && Concerns(s, s', us, ids) && TablesClosed(s') && UeContextsPerAmfId(s')
    requires forall k :: k in s'.byRan && s'.byRan[k] in us ==> RanAgrees(s', k)
    requires forall b :: b in s'.byAmf && s'.byAmf[b] in us ==> AmfAgrees(s', b)
    requires forall k1, k2 :: LeftBehindTwice(s', k1, k2) && s'.byRan[k1] in us ==> k1 == k2
    ensures Agreed(s')
  {
    forall k | k in s'.byRan ensures RanAgrees(s', k) {
      if s'.byRan[k] !in us { OtherRan(s, s', us, ids, k); }
    }
    forall b | b in s'.byAmf ensures AmfAgrees(s', b) {
      if s'.byAmf[b] !in us { OtherAmf(s, s', us, ids, b); }
    }
    forall k1, k2 | LeftBehindTwice(s', k1, k2) ensures k1 == k2 {
      if s'.byRan[k1] !in us {
        OtherRan(s, s', us, ids, k1);
        OtherRan(s, s', us, ids, k2);
        assert LeftBehindTwice(s, k1, k2);
      }
    }
  }

  /** UE contexts untouched: the AMF ids of their keys still match. */
  lemma SameUeKeys(s: State, s': State)
    requires UeContextsPerAmfId(s) && s'.byUeKey == s.byUeKey
    ensures UeContextsPerAmfId(s')
  {
    forall x, y | SharesUe(s', x, y) ensures x.1 == y.1 { assert SharesUe(s, x, y); }
  }

  // ------------------------------------------------------- Initial UE Message

  lemma NewContextConcerns(s: State, s': State, assoc: Assoc, ranId: RanId, u0: NgapContext)
    requires TablesClosed(s) && u0 !in s.ngap && assoc in s.gnbs
    requires (ranId, s.gnbs[assoc].id) !in s.byRan
    requires s' == s.(byRan := s.byRan[(ranId, s.gnbs[assoc].id) := u0],
                      ngap := s.ngap[u0 := Ngap(ranId, None, assoc, NotConnected, 0, 0, NoCause, 0)])
    ensures Concerns(s, s', {u0}, {}) && TablesClosed(s')
  {
  }

  lemma NewContext(s: State, s': State, assoc: Assoc, ranId: RanId, u0: NgapContext)
    requires Agreed(s) && u0 !in s.ngap && assoc in s.gnbs
    requires (ranId, s.gnbs[assoc].id) !in s.byRan
    requires s' == s.(byRan := s.byRan[(ranId, s.gnbs[assoc].id) := u0],
                      ngap := s.ngap[u0 := Ngap(ranId, None, assoc, NotConnected, 0, 0, NoCause, 0)])
    ensures Agreed(s')
  {
    NewContextConcerns(s, s', assoc, ranId, u0);
    SameUeKeys(s, s');
    AgreementOfTheConcerned(s, s', {u0}, {});
  }

  /** A context u that is written to, while every table keeps its entries. */
  lemma RewriteConcerns(s: State, s': State, u: NgapContext, n: Ngap)
    requires TablesClosed(s) && s' == s.(ngap := s.ngap[u := n])
    ensures Concerns(s, s', {u}, {}) && TablesClosed(s')
  {
  }

  lemma RewriteStaleUnique(s: State, s': State, u: NgapContext, n: Ngap, x: RanKey, y: RanKey)
    requires Agreed(s) && s' == s.(ngap := s.ngap[u := n])
    requires Served(s, u) && n.assoc in s.gnbs && (n.ranId, s.gnbs[n.assoc].id) == HomeKey(s, u)
    requires LeftBehindTwice(s', x, y) && s'.byRan[x] == u
    ensures x == y
  {
    assert RanAgrees(s, x) && RanAgrees(s, y);
    assert LeftBehindTwice(s, x, y);
  }

  /** A context that stays at its home and keeps its AMF id keeps the tables in agreement. */
  lemma RewriteAtHome(s: State, s': State, u: NgapContext, n: Ngap)
    requires Agreed(s) && s' == s.(ngap := s.ngap[u := n])
    requires Served(s, u) && n.assoc in s.gnbs && (n.ranId, s.gnbs[n.assoc].id) == HomeKey(s, u)
    requires n.amfId == NgapOf(s, u).amfId && n.cause == NgapOf(s, u).cause && n.releaseGnb == NgapOf(s, u).releaseGnb
    ensures Agreed(s')
  {
    RewriteConcerns(s, s', u, n);
    SameUeKeys(s, s');
    forall x | x in s'.byRan && s'.byRan[x] == u ensures RanAgrees(s', x) { assert RanAgrees(s, x); }
    forall b | b in s'.byAmf && s'.byAmf[b] == u ensures AmfAgrees(s', b) { assert AmfAgrees(s, b); }
    forall x, y | LeftBehindTwice(s', x, y) && s'.byRan[x] == u ensures x == y {
      RewriteStaleUnique(s, s', u, n, x, y);
    }
    AgreementOfTheConcerned(s, s', {u}, {});
  }

  /** Agreement is lost when a context with an AMF id is moved to a gNB its UE context does not name. */
  lemma RewriteAway(s: State, s': State, u: NgapContext, n: Ngap, a: AmfId)
    requires Agreed(s) && s' == s.(ngap := s.ngap[u := n])
    requires a in s.byAmf && s.byAmf[a] == u
    requires n.ranId == NgapOf(s, u).ranId || ((n.ranId, a) in s.byUeKey && (NgapOf(s, u).ranId, a) in s.byUeKey &&
                                               s.byUeKey[(n.ranId, a)] == s.byUeKey[(NgapOf(s, u).ranId, a)])
    requires n.assoc in s.gnbs && Served(s, u) && s.gnbs[n.assoc].id != HomeKey(s, u).1
    ensures !Agreed(s')
  {
    assert AmfAgrees(s, a);
    assert !AmfAgrees(s', a);
  }

  /** Reporting the left-behind RAN id of the serving gNB swaps the roles of home and stale entry. */
  lemma RewriteSwap(s: State, s': State, k: RanKey, n: Ngap)
    requires Agreed(s) && IsStale(s, k) && s' == s.(ngap := s.ngap[s.byRan[k] := n])
    requires HomeKey(s, s.byRan[k]).1 == k.1
    requires n.assoc in s.gnbs && (n.ranId, s.gnbs[n.assoc].id) == k
    requires var m := NgapOf(s, s.byRan[k]);
             n.amfId == m.amfId && n.cause == m.cause && n.releaseGnb == m.releaseGnb
    ensures Agreed(s')
  {
    var u := s.byRan[k];
    var h := HomeKey(s, u);
    RewriteConcerns(s, s', u, n);
    SameUeKeys(s, s');
    assert RanAgrees(s, k) && AmfAgrees(s, n.amfId.value);
    forall x | x in s'.byRan && s'.byRan[x] == u ensures x == k || x == h {
      assert RanAgrees(s, x);
      assert IsStale(s, x) ==> LeftBehindTwice(s, x, k);
    }
    forall b | b in s'.byAmf && s'.byAmf[b] == u ensures AmfAgrees(s', b) { assert AmfAgrees(s, b); }
    AgreementOfTheConcerned(s, s', {u}, {});
  }

  predicate InitialUeActs(s: State, assoc: Assoc) {
    assoc in s.gnbs && s.gnbs[assoc].state != Unready
  }

  /** Initial UE Message keeps agreement exactly when a context that already answers to the
      RAN id is served by the reporting gNB. */
  lemma InitialUeAgreement(s: State, assoc: Assoc, ranId: RanId, u0: NgapContext)
    requires Agreed(s) && (InitialUeActs(s, assoc) && (ranId, s.gnbs[assoc].id) !in s.byRan ==> u0 !in s.ngap)
    ensures Agreed(OnInitialUe(s, assoc, ranId, u0)) <==>
            (InitialUeActs(s, assoc) && (ranId, s.gnbs[assoc].id) in s.byRan ==>
               ServedBy(s, s.byRan[(ranId, s.gnbs[assoc].id)], assoc))
  {
    if InitialUeActs(s, assoc) {
      var s', k := OnInitialUe(s, assoc, ranId, u0), (ranId, s.gnbs[assoc].id);
      if k !in s.byRan {
        NewContext(s, s', assoc, ranId, u0);
      } else {
        var u := s.byRan[k];
        var n := NgapOf(s, u).(ranId := ranId, assoc := assoc);
        assert RanAgrees(s, k);
        if IsHome(s, k) {
          RewriteAtHome(s, s', u, n);
        } else if ServedBy(s, u, assoc) {
          RewriteSwap(s, s', k, n);
        } else {
          RewriteAway(s, s', u, n, n.amfId.value);
        }
      }
    }
  }

  // ------------------------------------------------------- AMF id assignment

  /** No table knows this AMF id. */
  ghost predicate Unused(s: State, a: AmfId) {
    a !in s.byAmf && a !in s.nasByAmf && forall k | k in s.byUeKey :: k.1 != a
  }

  lemma AssignedConcerns(s: State, s': State, k: RanKey, a: AmfId, n: Ngap)
    requires TablesClosed(s) && k in s.byRan && a !in s.byAmf
    requires s' == s.(byAmf := s.byAmf[a := s.byRan[k]], ngap := s.ngap[s.byRan[k] := n],
                      byUeKey := s'.byUeKey, ue := s'.ue, nextAmfId := s'.nextAmfId)
    requires forall x: UeKey :: x.1 != a && (x in s.byUeKey || x in s'.byUeKey) ==> UeEntryKept(s, s', x)
    ensures Concerns(s, s', {s.byRan[k]}, {a})
  {
  }

  /** An unassigned context that receives an unused AMF id and whose UE context names its gNB. */
  lemma Assigned(s: State, s': State, k: RanKey, a: AmfId, n: Ngap)
    requires Agreed(s) && k in s.byRan && a !in s.byAmf && NgapOf(s, s.byRan[k]).amfId.None?
    requires s' == s.(byAmf := s.byAmf[a := s.byRan[k]], ngap := s.ngap[s.byRan[k] := n],
                      byUeKey := s'.byUeKey, ue := s'.ue, nextAmfId := s'.nextAmfId)
    requires n.amfId == Some(a) && n.ranId == NgapOf(s, s.byRan[k]).ranId && n.assoc == NgapOf(s, s.byRan[k]).assoc
    requires forall x: UeKey :: x.1 != a && (x in s.byUeKey || x in s'.byUeKey) ==> UeEntryKept(s, s', x)
    requires (k.0, a) in s'.byUeKey && UeOf(s', s'.byUeKey[(k.0, a)]).gnbId == k.1
    requires TablesClosed(s') && UeContextsPerAmfId(s')
    ensures Agreed(s')
  {
    var u := s.byRan[k];
    AssignedConcerns(s, s', k, a, n);
    forall x | x in s'.byRan && s'.byRan[x] == u ensures x == k && IsHome(s', k) {
      assert RanAgrees(s, x) && RanAgrees(s, k);
    }
    assert RanAgrees(s, k);
    forall b | b in s.byAmf ensures s.byAmf[b] != u { assert AmfAgrees(s, b); }
    AgreementOfTheConcerned(s, s', {u}, {a});
  }

  lemma EstablishUeKeys(s: State, ranId: RanId, gnbId: GnbId, c0: UeContext)
    requires TablesClosed(s) && UeContextsPerAmfId(s) && c0 !in s.ue && Unused(s, NextAmfId(s))
    ensures TablesClosed(EstablishUe(s, ranId, gnbId, c0)) && UeContextsPerAmfId(EstablishUe(s, ranId, gnbId, c0))
  {
    var s' := EstablishUe(s, ranId, gnbId, c0);
    assert (ranId, NextAmfId(s)) !in s.byUeKey;
    forall x, y | SharesUe(s', x, y) ensures x.1 == y.1 {
      if x != (ranId, NextAmfId(s)) && y != (ranId, NextAmfId(s)) { assert SharesUe(s, x, y); }
    }
  }

  lemma EstablishKeepsUe(s: State, s': State, ranId: RanId, gnbId: GnbId, c0: UeContext, x: UeKey)
    requires TablesClosed(s) && c0 !in s.ue && Unused(s, NextAmfId(s)) && x.1 != NextAmfId(s)
    requires s'.byUeKey == EstablishUe(s, ranId, gnbId, c0).byUeKey && s'.ue == EstablishUe(s, ranId, gnbId, c0).ue
    requires x in s.byUeKey || x in s'.byUeKey
    ensures UeEntryKept(s, s', x)
  {
    assert (ranId, NextAmfId(s)) !in s.byUeKey;
  }

  lemma EstablishAssigns(s: State, s': State, k: RanKey, c0: UeContext)
    requires Agreed(s) && c0 !in s.ue && Unused(s, NextAmfId(s))
    requires k in s.byRan && NgapOf(s, s.byRan[k]).amfId.None? && s' == OnEstablish(s, k.0, k.1, c0)
    requires TablesClosed(EstablishUe(s, k.0, k.1, c0)) && UeContextsPerAmfId(EstablishUe(s, k.0, k.1, c0))
    requires forall x: UeKey :: x.1 != NextAmfId(s) && (x in s.byUeKey || x in s'.byUeKey) ==> UeEntryKept(s, s', x)
    ensures Agreed(s')
  {
    SameUeKeys(EstablishUe(s, k.0, k.1, c0), s');
    Assigned(s, s', k, NextAmfId(s), NgapOf(s, s.byRan[k]).(amfId := Some(NextAmfId(s))));
  }

  lemma EstablishFindsNothing(s: State, s': State, k: RanKey, c0: UeContext)
    requires Agreed(s) && c0 !in s.ue && Unused(s, NextAmfId(s))
    requires k !in s.byRan && s' == EstablishUe(s, k.0, k.1, c0)
    requires TablesClosed(s') && UeContextsPerAmfId(s')
    requires forall x: UeKey :: x.1 != NextAmfId(s) && (x in s.byUeKey || x in s'.byUeKey) ==> UeEntryKept(s, s', x)
    ensures Agreed(s')
  {
    AgreementOfTheConcerned(s, s', {}, {NextAmfId(s)});
  }

  /** With an unused id, assignment keeps agreement exactly when the context had no id yet, that is,
      when its RAN id was not a live one reused. */
  lemma EstablishAgreement(s: State, ranId: RanId, gnbId: GnbId, c0: UeContext)
    requires Agreed(s) && c0 !in s.ue && Unused(s, NextAmfId(s))
    ensures Agreed(OnEstablish(s, ranId, gnbId, c0)) <==>
            ((ranId, gnbId) in s.byRan ==> NgapOf(s, s.byRan[(ranId, gnbId)]).amfId.None?)
  {
    var s', k := OnEstablish(s, ranId, gnbId, c0), (ranId, gnbId);
    if k in s.byRan && NgapOf(s, s.byRan[k]).amfId.Some? {
      assert RanAgrees(s, k);
      assert !AmfAgrees(s', NgapOf(s, s.byRan[k]).amfId.value);
    } else {
      EstablishUeKeys(s, ranId, gnbId, c0);
      forall x: UeKey | x.1 != NextAmfId(s) && (x in s.byUeKey || x in s'.byUeKey) ensures UeEntryKept(s, s', x) {
        EstablishKeepsUe(s, s', ranId, gnbId, c0, x);
      }
      if k in s.byRan {
        EstablishAssigns(s, s', k, c0);
      } else {
        EstablishFindsNothing(s, s', k, c0);
      }
    }
  }

  /** Downlink NAS Transport keeps agreement exactly when the context found through the UE
      context already carries the AMF id of the message, or none while that id is free. */
  lemma DlNasAgreement(s: State, ranId: RanId, a: AmfId)
    requires Agreed(s)
    ensures var found := ViaUeKey(s, (ranId, a));
            Agreed(OnDlNas(s, ranId, a)) <==>
            (found.Some? ==> var id := NgapOf(s, found.value).amfId; id == Some(a) || (id.None? && a !in s.byAmf))
  {
    var found := ViaUeKey(s, (ranId, a));
    if found.Some? {
      var u := found.value;
      var k := (ranId, UeOf(s, s.byUeKey[(ranId, a)]).gnbId);
      var s', n := OnDlNas(s, ranId, a), NgapOf(s, u).(amfId := Some(a), state := Connected);
      assert RanAgrees(s, k);
      var id := NgapOf(s, u).amfId;
      if id == Some(a) {
        assert s'.byAmf == s.byAmf;
        RewriteAtHome(s, s', u, n);
      } else if id.None? && a !in s.byAmf {
        SameUeKeys(s, s');
        Assigned(s, s', k, a, n);
      } else if id.Some? {
        assert !AmfAgrees(s', id.value);
      } else {
        assert AmfAgrees(s, a);
        assert !RanAgrees(s', HomeKey(s, s.byAmf[a]));
      }
    }
  }

  // ------------------------------------------------------- handover

  /** Handover Required keeps agreement exactly when it comes from the serving gNB. */
  lemma HandoverRequiredAgreement(s: State, assoc: Assoc, a: AmfId, ranId: RanId,
                                  typeOk: bool, keyOk: bool, target: GnbId)
    requires Agreed(s)
    ensures Agreed(OnHandoverRequired(s, assoc, a, ranId, typeOk, keyOk, target)) <==>
            (RequiredAccepted(s, assoc, a, ranId, typeOk) ==>
               ServedBy(s, s.byRan[(ranId, s.gnbs[assoc].id)], assoc))
  {
    if RequiredAccepted(s, assoc, a, ranId, typeOk) {
      var s', k := OnHandoverRequired(s, assoc, a, ranId, typeOk, keyOk, target), (ranId, s.gnbs[assoc].id);
      var u := s.byRan[k];
      assert RanAgrees(s, k);
      if ServedBy(s, u, assoc) {
        RewriteAtHome(s, s', u, NgapOf(s', u));
      } else {
        RewriteAway(s, s', u, NgapOf(s', u), a);
      }
    }
  }

  lemma HandoverAckAgreement(s: State, assoc: Assoc, a: AmfId, ranId: RanId)
    requires Agreed(s)
    ensures Agreed(OnHandoverAck(s, assoc, a, ranId))
  {
    if assoc in s.gnbs && a in s.byAmf {
      assert AmfAgrees(s, a);
      var s' := OnHandoverAck(s, assoc, a, ranId);
      RewriteAtHome(s, s', s.byAmf[a], NgapOf(s', s.byAmf[a]));
    }
  }

  lemma NotifyUeKeys(s: State, assoc: Assoc, a: AmfId, ranId: RanId)
    requires TablesClosed(s) && UeContextsPerAmfId(s) && NotifyAccepted(s, assoc, a, true)
    ensures TablesClosed(OnHandoverNotify(s, assoc, a, ranId, true))
    ensures UeContextsPerAmfId(OnHandoverNotify(s, assoc, a, ranId, true))
  {
    var s' := OnHandoverNotify(s, assoc, a, ranId, true);
    var key := (NgapOf(s, s.byAmf[a]).ranId, a);
    forall x, y | SharesUe(s', x, y) ensures x.1 == y.1 {
      assert SharesUe(s, if x == (ranId, a) then key else x, if y == (ranId, a) then key else y);
    }
  }

  lemma NotifyKeepsUe(s: State, assoc: Assoc, a: AmfId, ranId: RanId, x: UeKey)
    requires UeContextsPerAmfId(s) && NotifyAccepted(s, assoc, a, true) && x.1 != a && x in s.byUeKey
    ensures UeEntryKept(s, OnHandoverNotify(s, assoc, a, ranId, true), x)
  {
    assert !SharesUe(s, x, (NgapOf(s, s.byAmf[a]).ranId, a));
  }

  lemma NotifyConcerns(s: State, assoc: Assoc, a: AmfId, ranId: RanId)
    requires TablesClosed(s) && UeContextsPerAmfId(s) && NotifyAccepted(s, assoc, a, true)
    requires var k := (ranId, s.gnbs[assoc].id); Live(s, k) ==> s.byRan[k] == s.byAmf[a]
    ensures Concerns(s, OnHandoverNotify(s, assoc, a, ranId, true), {s.byAmf[a]}, {a})
  {
    var s' := OnHandoverNotify(s, assoc, a, ranId, true);
    forall x: UeKey | x.1 != a && (x in s.byUeKey || x in s'.byUeKey) ensures UeEntryKept(s, s', x) {
      NotifyKeepsUe(s, assoc, a, ranId, x);
    }
  }

  /** Where Handover Notify may find an earlier release of the UE awaited: at the very key it moves the UE to, or,
      if it leaves the UE where it is, on the same gNB. */
  predicate AwaitedInPlace(s: State, u: NgapContext, k: RanKey, k0: RanKey) {
    AwaitedAt(s, u, k0) ==> k == k0 || (k == HomeKey(s, u) && k0.1 == k.1)
  }

  /** After Notify the context is home at the target, and at most one entry of it is left behind. */
  lemma NotifyEntries(s: State, assoc: Assoc, a: AmfId, ranId: RanId, x: RanKey)
    requires Agreed(s) && NotifyAccepted(s, assoc, a, true)
    requires var k := (ranId, s.gnbs[assoc].id); AwaitedInPlace(s, s.byAmf[a], k, x)
    requires var s' := OnHandoverNotify(s, assoc, a, ranId, true); x in s'.byRan && s'.byRan[x] == s.byAmf[a]
    ensures var s' := OnHandoverNotify(s, assoc, a, ranId, true);
            var u := s.byAmf[a]; var k := (ranId, s.gnbs[assoc].id);
            && RanAgrees(s', x)
            && (if x == k then IsHome(s', x)
                else IsStale(s', x) && if k == HomeKey(s, u) then AwaitedAt(s, u, x) else x == HomeKey(s, u))
  {
    assert AmfAgrees(s, a);
    if x != (ranId, s.gnbs[assoc].id) { assert RanAgrees(s, x); }
  }

  lemma NotifyAgrees(s: State, assoc: Assoc, a: AmfId, ranId: RanId)
    requires Agreed(s) && NotifyAccepted(s, assoc, a, true)
    requires var k := (ranId, s.gnbs[assoc].id);
             && (Live(s, k) ==> s.byRan[k] == s.byAmf[a])
             && forall k0 :: AwaitedInPlace(s, s.byAmf[a], k, k0)
    ensures Agreed(OnHandoverNotify(s, assoc, a, ranId, true))
  {
    var s', u, k := OnHandoverNotify(s, assoc, a, ranId, true), s.byAmf[a], (ranId, s.gnbs[assoc].id);
    NotifyUeKeys(s, assoc, a, ranId);
    NotifyConcerns(s, assoc, a, ranId);
    forall x | x in s'.byRan && s'.byRan[x] == u ensures RanAgrees(s', x) { NotifyEntries(s, assoc, a, ranId, x); }
    forall x, y | LeftBehindTwice(s', x, y) && s'.byRan[x] == u ensures x == y {
      NotifyEntries(s, assoc, a, ranId, x);
      NotifyEntries(s, assoc, a, ranId, y);
      if k == HomeKey(s, u) { assert LeftBehindTwice(s, x, y); }
    }
    assert AmfAgrees(s, a);
    forall b | b in s'.byAmf && s'.byAmf[b] == u ensures b == a { assert AmfAgrees(s, b); }
    AgreementOfTheConcerned(s, s', {u}, {a});
  }

  lemma NotifyElsewhereBreaks(s: State, assoc: Assoc, a: AmfId, ranId: RanId, k0: RanKey)
    requires Agreed(s) && NotifyAccepted(s, assoc, a, true)
    requires !AwaitedInPlace(s, s.byAmf[a], (ranId, s.gnbs[assoc].id), k0)
    ensures !Agreed(OnHandoverNotify(s, assoc, a, ranId, true))
  {
    var s', u, k := OnHandoverNotify(s, assoc, a, ranId, true), s.byAmf[a], (ranId, s.gnbs[assoc].id);
    assert AmfAgrees(s, a);
    var h := HomeKey(s, u);
    assert HomeKey(s', u) == k && s'.byRan[k0] == u;
    if k == h {
      assert !RanAgrees(s', k0);
    } else if RanAgrees(s', k0) && RanAgrees(s', h) {
      assert LeftBehindTwice(s', k0, h) && k0 != h;
    }
  }

  /** Handover Notify keeps agreement exactly when the target RAN id is not a live one of another UE and no earlier
      handover release of the UE is awaited, other than in place. */
  lemma HandoverNotifyAgreement(s: State, assoc: Assoc, a: AmfId, ranId: RanId, hasLocation: bool)
    requires Agreed(s)
    ensures Agreed(OnHandoverNotify(s, assoc, a, ranId, hasLocation)) <==>
            (NotifyAccepted(s, assoc, a, hasLocation) ==>
               var k := (ranId, s.gnbs[assoc].id);
               && (Live(s, k) ==> s.byRan[k] == s.byAmf[a])
               && forall k0 :: AwaitedInPlace(s, s.byAmf[a], k, k0))
  {
    if NotifyAccepted(s, assoc, a, hasLocation) {
      var s', u, k := OnHandoverNotify(s, assoc, a, ranId, true), s.byAmf[a], (ranId, s.gnbs[assoc].id);
      if Live(s, k) && s.byRan[k] != u {
        assert RanAgrees(s, k);
        var b := NgapOf(s, s.byRan[k]).amfId.value;
        assert AmfAgrees(s, b);
        assert !AmfAgrees(s', b);
      } else if k0 :| !AwaitedInPlace(s, u, k, k0) {
        NotifyElsewhereBreaks(s, assoc, a, ranId, k0);
      } else {
        NotifyAgrees(s, assoc, a, ranId);
      }
    }
  }

  // ------------------------------------------------------- UE Context Release Complete

  /** The release of a handover source: nothing but the awaited entry is erased. */
  lemma HandoverReleaseAgreement(s: State, s': State, a: AmfId, k: RanKey)
    requires Agreed(s) && a in s.byAmf
    requires var u := s.byAmf[a];
             s' == s.(byRan := Without(s.byRan, k), ngap := s.ngap[u := NgapOf(s, u).(cause := NoCause)])
    ensures Agreed(s') <==> (!Live(s, k) && forall x :: AwaitedAt(s, s.byAmf[a], x) ==> x == k)
  {
    var u := s.byAmf[a];
    if Live(s, k) {
      assert RanAgrees(s, k);
      var b := NgapOf(s, s.byRan[k]).amfId.value;
      assert AmfAgrees(s, b);
      assert !AmfAgrees(s', b);
    } else if x :| AwaitedAt(s, u, x) && x != k {
      assert !RanAgrees(s', x);
    } else {
      HandoverReleased(s, s', a, k);
    }
  }

  lemma HandoverReleased(s: State, s': State, a: AmfId, k: RanKey)
    requires Agreed(s) && a in s.byAmf
    requires var u := s.byAmf[a];
             s' == s.(byRan := Without(s.byRan, k), ngap := s.ngap[u := NgapOf(s, u).(cause := NoCause)])
    requires !Live(s, k) && forall x :: AwaitedAt(s, s.byAmf[a], x) ==> x == k
    ensures Agreed(s')
  {
    var u := s.byAmf[a];
    ErasureConcerns(s, s', u, k);
    SameUeKeys(s, s');
    forall x | x in s'.byRan && s'.byRan[x] == u ensures RanAgrees(s', x) && IsHome(s', x) {
      assert RanAgrees(s, x) && !AwaitedAt(s, u, x);
    }
    forall b | b in s'.byAmf && s'.byAmf[b] == u ensures AmfAgrees(s', b) {
      assert AmfAgrees(s, b);
    }
    AgreementOfTheConcerned(s, s', {u}, {});
  }

  lemma ErasureConcerns(s: State, s': State, u: NgapContext, k: RanKey)
    requires TablesClosed(s) && u in s.ngap
    requires s' == s.(byRan := Without(s.byRan, k), ngap := s'.ngap)
    requires s'.ngap == s.ngap[u := NgapOf(s', u)]
    requires Live(s, k) ==> s.byRan[k] == u
    ensures Concerns(s, s', {u}, {}) && TablesClosed(s')
  {
  }

  lemma RemovalConcerns(s: State, s': State, u: NgapContext, a: AmfId, k: RanKey)
    requires TablesClosed(s) && a in s.byAmf && s.byAmf[a] == u && (k in s.byRan ==> s.byRan[k] == u)
    requires s'.byRan == Without(s.byRan, k) && s'.byAmf == Without(s.byAmf, a)
    requires s'.gnbs == s.gnbs && s'.ngap == s.ngap && s'.byUeKey == s.byUeKey && s'.ue == s.ue
    ensures Concerns(s, s', {u}, {})
  {
  }

  /** A UE that leaves both NGAP indices does so completely exactly when the erased RAN key is its
      home and no handover release of it is awaited. */
  lemma RemovalAgreement(s: State, s': State, a: AmfId, k: RanKey)
    requires Agreed(s) && a in s.byAmf && TablesClosed(s')
    requires s'.byRan == Without(s.byRan, k) && s'.byAmf == Without(s.byAmf, a)
    requires s'.gnbs == s.gnbs && s'.ngap == s.ngap && s'.byUeKey == s.byUeKey && s'.ue == s.ue
    ensures Agreed(s') <==> (k == HomeKey(s, s.byAmf[a]) && forall x :: !AwaitedAt(s, s.byAmf[a], x))
  {
    var u := s.byAmf[a];
    assert AmfAgrees(s, a);
    var h := HomeKey(s, u);
    if k != h {
      assert !RanAgrees(s', h);
    } else if x :| AwaitedAt(s, u, x) {
      assert !RanAgrees(s', x);
    } else {
      RemovalConcerns(s, s', u, a, k);
      SameUeKeys(s, s');
      forall x | x in s'.byRan ensures s'.byRan[x] != u {
        assert RanAgrees(s, x) && !AwaitedAt(s, u, x);
      }
      forall b | b in s'.byAmf ensures s'.byAmf[b] != u { assert AmfAgrees(s, b); }
      AgreementOfTheConcerned(s, s', {u}, {});
    }
  }

  /** UE Context Release Complete keeps agreement exactly when the reported RAN id is the one being
      released: the source of the awaited handover release, or the UE's only RAN-index entry. */
  lemma ReleaseCompleteAgreement(s: State, assoc: Assoc, a: AmfId, ranId: RanId)
    requires Agreed(s)
    ensures Agreed(OnReleaseComplete(s, assoc, a, ranId)) <==>
            match ReleaseBranchOf(s, assoc, a, ranId)
            case Ignored => true
            case HandoverRelease =>
              var k := (ranId, s.gnbs[assoc].id);
              !Live(s, k) && forall x :: AwaitedAt(s, s.byAmf[a], x) ==> x == k
            case _ =>
              Served(s, s.byAmf[a]) && (ranId, s.gnbs[assoc].id) == HomeKey(s, s.byAmf[a])
              && forall x :: !AwaitedAt(s, s.byAmf[a], x)
  {
    var s' := OnReleaseComplete(s, assoc, a, ranId);
    match ReleaseBranchOf(s, assoc, a, ranId)
    case Ignored =>
    case HandoverRelease => HandoverReleaseAgreement(s, s', a, (ranId, s.gnbs[assoc].id));
    case _ =>
      assert AmfAgrees(s, a);
      RemovalAgreement(s, s', a, (ranId, s.gnbs[assoc].id));
  }
}
