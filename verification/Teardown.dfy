/** NG Reset, NG Shutdown and NG Setup erase the contexts of one association in a loop.
    Whatever the order of the list, and however often a context is on it, the loop amounts
    to one erasure (`Torn`), from which completeness and the frame follow. */
module Teardown {
  import opened Contexts
  import opened Registry
  import opened Agreement

  /** The NAS record of an AMF id is at the UE's RAN id, or at one under which this AMF id never
      had a UE context (the early return of the removal). */
  predicate NasLinkedAt(s: State, a: AmfId) {
    a in s.byAmf && a in s.nasByAmf ==>
      var ranId := NasOf(s, s.nasByAmf[a]).ranId;
      ranId == NgapOf(s, s.byAmf[a]).ranId || (ranId, a) !in s.byUeKey
  }

  ghost predicate NasLinked(s: State) {
    forall a {:trigger NasLinkedAt(s, a)} :: NasLinkedAt(s, a)
  }

  /** The AMF id of one of these contexts. */
  predicate IdOf(s: State, p: set<NgapContext>, a: AmfId) {
    a in s.byAmf && s.byAmf[a] in p
  }

  /** A SUPI that the NAS record of one of these contexts carries. */
  ghost predicate SupiOf(s: State, p: set<NgapContext>, x: Supi) {
    exists a :: IdOf(s, p, a) && a in s.nasByAmf && NasOf(s, s.nasByAmf[a]).supi == x
  }

  /** The tables without the contexts p: their home entries, AMF ids and NAS records are gone, and
      so is whatever the SUPI of such a record led to. */
  ghost function Torn(s: State, p: set<NgapContext>): State {
    s.(byRan := s.byRan - (set k | k in s.byRan && IsHome(s, k) && s.byRan[k] in p),
       byAmf := s.byAmf - (set a | a in s.byAmf && s.byAmf[a] in p),
       nasByAmf := s.nasByAmf - (set a | a in s.nasByAmf && IdOf(s, p, a)),
       nasBySupi := s.nasBySupi - (set x | x in s.nasBySupi && SupiOf(s, p, x)))
  }

  /** A context in the RAN index of the given association. */
  ghost predicate Listed(s: State, u: NgapContext, assoc: Assoc) {
    NgapOf(s, u).assoc == assoc && exists k :: k in s.byRan && s.byRan[k] == u
  }

  lemma ListedAtHome(s: State, u: NgapContext, assoc: Assoc)
    requires Agreed(s) && Listed(s, u, assoc) && assoc in s.gnbs
    ensures HomeKey(s, u) in s.byRan && s.byRan[HomeKey(s, u)] == u && HomeKey(s, u).1 == s.gnbs[assoc].id
    ensures var id := NgapOf(s, u).amfId; id.Some? ==> AmfAgrees(s, id.value) && s.byAmf[id.value] == u
  {
    var k :| k in s.byRan && s.byRan[k] == u;
    assert RanAgrees(s, k);
    if NgapOf(s, u).amfId.Some? {
      assert AmfAgrees(s, NgapOf(s, u).amfId.value);
    }
  }

  /** The context has an AMF id, and the NAS record of that id is at the context's RAN id: only then does the removal by
      AMF id find the RAN entry too. */
  predicate Complete(s: State, u: NgapContext) {
    var id := NgapOf(s, u).amfId;
    id.Some? && id.value in s.nasByAmf && NasOf(s, s.nasByAmf[id.value]).ranId == NgapOf(s, u).ranId
  }

  /** No RAN entry is under the context's RAN id and this gNB id. */
  predicate NoClashOf(s: State, u: NgapContext, gnbId: GnbId) {
    (NgapOf(s, u).ranId, gnbId) !in s.byRan
  }

  /** The two removals reach every entry of the context: the second one does where the gNB id is that of the
      association, or else the first one must. */
  predicate Erasable(s: State, u: NgapContext, assoc: Assoc, gnbId: GnbId)
    requires assoc in s.gnbs
  {
    gnbId == s.gnbs[assoc].id || (Complete(s, u) && NoClashOf(s, u, gnbId))
  }

  /** A context that is gone stays gone. */
  lemma TornAgain(s: State, p: set<NgapContext>, u: NgapContext, assoc: Assoc, gnbId: GnbId)
    requires Agreed(s) && Listed(s, u, assoc) && assoc in s.gnbs && u in p && Erasable(s, u, assoc, gnbId)
    ensures RemoveListed(Torn(s, p), u, gnbId) == Torn(s, p)
  {
    ListedAtHome(s, u, assoc);
    var t := Torn(s, p);
    var id := NgapOf(s, u).amfId;
    if id.Some? {
      assert id.value !in t.nasByAmf && id.value !in t.byAmf;
      assert Without(t.byAmf, id.value) == t.byAmf;
    }
    assert RemoveByAmf(t, id) == t;
  }

  /** What one listed context loses, said without the detours of the two removals. */
  function Erased(t: State, h: RanKey, id: Option<AmfId>): State {
    if id.None? then t.(byRan := Without(t.byRan, h))
    else
      var t' := WithoutNas(t, id.value);
      t'.(byRan := Without(t.byRan, h), byAmf := Without(t.byAmf, id.value))
  }

  /** All three ways through the two removals come to the same. */
  lemma RemovalsErase(t: State, u: NgapContext, gnbId: GnbId)
    requires var h := (NgapOf(t, u).ranId, gnbId);
             h in t.byRan && t.byRan[h] == u
    requires var id := NgapOf(t, u).amfId;
             id.Some? && id.value in t.nasByAmf ==>
               var key := (NasOf(t, t.nasByAmf[id.value]).ranId, id.value);
               key in t.byUeKey ==> key.0 == NgapOf(t, u).ranId && UeOf(t, t.byUeKey[key]).gnbId == gnbId
    ensures RemoveListed(t, u, gnbId) == Erased(t, (NgapOf(t, u).ranId, gnbId), NgapOf(t, u).amfId)
  {
    var h, id := (NgapOf(t, u).ranId, gnbId), NgapOf(t, u).amfId;
    if id.Some? {
      assert Without(Without(t.byAmf, id.value), id.value) == Without(t.byAmf, id.value);
    }
  }

  /** The first removal alone, where the second finds nothing under its gNB id. */
  lemma FirstRemovalErases(t: State, u: NgapContext, h: RanKey, gnbId: GnbId)
    requires Complete(t, u) && NoClashOf(t, u, gnbId) && h.0 == NgapOf(t, u).ranId
    requires var key := (h.0, NgapOf(t, u).amfId.value);
             key in t.byUeKey && UeOf(t, t.byUeKey[key]).gnbId == h.1
    ensures RemoveListed(t, u, gnbId) == Erased(t, h, NgapOf(t, u).amfId)
  {
  }

  lemma ErasedRan(s: State, p: set<NgapContext>, u: NgapContext)
    requires IsHome(s, HomeKey(s, u)) && s.byRan[HomeKey(s, u)] == u
    ensures Without(Torn(s, p).byRan, HomeKey(s, u)) == Torn(s, p + {u}).byRan
  {
  }

  lemma ErasedAmf(s: State, p: set<NgapContext>, u: NgapContext, a: AmfId)
    requires Agreed(s) && a in s.byAmf && s.byAmf[a] == u
    ensures Without(Torn(s, p).byAmf, a) == Torn(s, p + {u}).byAmf
    ensures Without(Torn(s, p).nasByAmf, a) == Torn(s, p + {u}).nasByAmf
  {
    assert AmfAgrees(s, a);
    forall b | b in s.byAmf && s.byAmf[b] == u ensures b == a { assert AmfAgrees(s, b); }
  }

  lemma ErasedSupi(s: State, p: set<NgapContext>, u: NgapContext, a: AmfId)
    requires Agreed(s) && a in s.byAmf && s.byAmf[a] == u && u !in p
    ensures Torn(s, p + {u}).nasBySupi == WithoutNas(Torn(s, p), a).nasBySupi
  {
    assert AmfAgrees(s, a);
    forall b | b in s.byAmf && s.byAmf[b] == u ensures b == a { assert AmfAgrees(s, b); }
    forall x ensures SupiOf(s, p + {u}, x) <==>
                     SupiOf(s, p, x) || (a in s.nasByAmf && NasOf(s, s.nasByAmf[a]).supi == x) {
      if a in s.nasByAmf && NasOf(s, s.nasByAmf[a]).supi == x { assert IdOf(s, p + {u}, a); }
      if SupiOf(s, p, x) {
        var b :| IdOf(s, p, b) && b in s.nasByAmf && NasOf(s, s.nasByAmf[b]).supi == x;
        assert IdOf(s, p + {u}, b);
      }
    }
  }

  /** Erasing a context that has an AMF id. */
  lemma TornAssigned(s: State, p: set<NgapContext>, u: NgapContext, a: AmfId)
    requires Agreed(s) && u !in p && a in s.byAmf && s.byAmf[a] == u
    ensures Erased(Torn(s, p), HomeKey(s, u), Some(a)) == Torn(s, p + {u})
  {
    assert AmfAgrees(s, a);
    ErasedRan(s, p, u);
    ErasedAmf(s, p, u, a);
    ErasedSupi(s, p, u, a);
  }

  /** Erasing a context that has none. */
  lemma TornUnassigned(s: State, p: set<NgapContext>, u: NgapContext)
    requires Agreed(s) && NgapOf(s, u).amfId.None? && IsHome(s, HomeKey(s, u)) && s.byRan[HomeKey(s, u)] == u
    ensures Erased(Torn(s, p), HomeKey(s, u), None) == Torn(s, p + {u})
  {
    ErasedRan(s, p, u);
    forall a | a in s.byAmf ensures s.byAmf[a] != u { assert AmfAgrees(s, a); }
    assert forall a :: IdOf(s, p + {u}, a) <==> IdOf(s, p, a);
    assert forall x :: SupiOf(s, p + {u}, x) <==> SupiOf(s, p, x);
  }

  /** One more context leaves the tables. */
  lemma TornOneMore(s: State, p: set<NgapContext>, u: NgapContext, assoc: Assoc, gnbId: GnbId)
    requires Agreed(s) && NasLinked(s) && Listed(s, u, assoc) && assoc in s.gnbs && u !in p
    requires Erasable(s, u, assoc, gnbId)
    ensures RemoveListed(Torn(s, p), u, gnbId) == Torn(s, p + {u})
  {
    ListedAtHome(s, u, assoc);
    var id := NgapOf(s, u).amfId;
    if gnbId != s.gnbs[assoc].id {
      FirstRemovalErases(Torn(s, p), u, HomeKey(s, u), gnbId);
      TornAssigned(s, p, u, id.value);
    } else if id.Some? {
      assert NasLinkedAt(s, id.value);
      RemovalsErase(Torn(s, p), u, gnbId);
      TornAssigned(s, p, u, id.value);
    } else {
      RemovalsErase(Torn(s, p), u, gnbId);
      TornUnassigned(s, p, u);
    }
  }

  function ToSet(order: seq<NgapContext>): set<NgapContext> {
    set u | u in order
  }

  /** The whole loop, from a state where some contexts may be gone already. */
  lemma {:induction false} LoopTears(s: State, p: set<NgapContext>, assoc: Assoc, order: seq<NgapContext>, gnbId: GnbId)
    requires Agreed(s) && NasLinked(s) && assoc in s.gnbs
    requires forall u | u in order :: Listed(s, u, assoc) && Erasable(s, u, assoc, gnbId)
    ensures RemoveAllListed(Torn(s, p), order, gnbId) == Torn(s, p + ToSet(order))
    decreases |order|
  {
    if order == [] {
      assert p + ToSet(order) == p;
    } else {
      var u := order[0];
      if u in p { TornAgain(s, p, u, assoc, gnbId); } else { TornOneMore(s, p, u, assoc, gnbId); }
      assert p + {u} + ToSet(order[1..]) == p + ToSet(order);
      assert u in p ==> p + {u} == p;
      LoopTears(s, p + {u}, assoc, order[1..], gnbId);
    }
  }

  // ------------------------------------------------------- NG Reset and NG Shutdown

  /** The contexts that the RAN index has for an association. */
  ghost function On(s: State, assoc: Assoc): set<NgapContext> {
    set k | k in s.byRan && NgapOf(s, s.byRan[k]).assoc == assoc :: s.byRan[k]
  }

  /** Every RAN-index entry of the association's contexts is home: no handover release is awaited for them. */
  ghost predicate AllHome(s: State, assoc: Assoc) {
    forall k | k in s.byRan && NgapOf(s, s.byRan[k]).assoc == assoc :: IsHome(s, k)
  }

  function ResettingGnb(s: State, assoc: Assoc): State
    requires assoc in s.gnbs
  {
    s.(gnbs := s.gnbs[assoc := s.gnbs[assoc].(state := Resetting)])
  }

  /** s but for what gNB contexts hold and where gNB ids lead. */
  predicate ButForGnbs(t: State, s: State) {
    t == s.(gnbs := t.gnbs, assocOf := t.assocOf)
  }

  /** The same associations lead to the same gNB ids. */
  predicate SameGnbIds(s: State, s': State) {
    s'.gnbs.Keys == s.gnbs.Keys && forall g | g in s.gnbs :: s'.gnbs[g].id == s.gnbs[g].id
  }

  /** The states of gNB contexts and the table of gNB ids have no part in agreement. */
  lemma GnbStatesIrrelevant(s: State, s': State)
    requires Agreed(s) && ButForGnbs(s', s) && SameGnbIds(s, s')
    ensures Agreed(s')
  {
    forall a | a in s'.byAmf ensures AmfAgrees(s', a) { assert AmfAgrees(s, a); }
    forall k | k in s'.byRan ensures RanAgrees(s', k) { assert RanAgrees(s, k); }
    forall k1, k2 | LeftBehindTwice(s', k1, k2) ensures k1 == k2 { assert LeftBehindTwice(s, k1, k2); }
    SameUeKeys(s, s');
  }

  /** The contexts of the association that the removals under this gNB id erase are all of them. */
  ghost predicate AllErasable(s: State, assoc: Assoc, gnbId: GnbId)
    requires assoc in s.gnbs
  {
    forall u | u in On(s, assoc) :: Erasable(s, u, assoc, gnbId)
  }

  /** The loop of NG Setup, NG Reset and NG Shutdown. */
  lemma ListedLoop(s: State, assoc: Assoc, order: seq<NgapContext>, gnbId: GnbId)
    requires Agreed(s) && NasLinked(s) && assoc in s.gnbs && Lists(s, assoc, order) && AllErasable(s, assoc, gnbId)
    ensures RemoveAllListed(s, order, gnbId) == Torn(s, On(s, assoc))
  {
    TornNothing(s);
    ListIsOn(s, assoc, order);
    LoopTears(s, {}, assoc, order, gnbId);
    assert {} + ToSet(order) == On(s, assoc);
  }

  lemma ListIsOn(s: State, assoc: Assoc, order: seq<NgapContext>)
    requires Lists(s, assoc, order)
    ensures ToSet(order) == On(s, assoc)
    ensures forall u | u in order :: Listed(s, u, assoc) && u in On(s, assoc)
  {
    forall u | u in order ensures u in On(s, assoc) {
      var k :| k in s.byRan && s.byRan[k] == u;
    }
  }

  lemma TornNothing(s: State)
    ensures Torn(s, {}) == s
  {
  }

  lemma ResetTears(s: State, assoc: Assoc, order: seq<NgapContext>)
    requires Agreed(s) && NasLinked(s) && assoc in s.gnbs && Lists(s, assoc, order)
    ensures Agreed(ResettingGnb(s, assoc))
    ensures OnNgReset(s, assoc, order) == Torn(ResettingGnb(s, assoc), On(ResettingGnb(s, assoc), assoc))
  {
    var s' := ResettingGnb(s, assoc);
    GnbStatesIrrelevant(s, s');
    forall a ensures NasLinkedAt(s', a) { assert NasLinkedAt(s, a); }
    ListedLoop(s', assoc, order, s.gnbs[assoc].id);
  }

  lemma ShutdownTears(s: State, assoc: Assoc, order: seq<NgapContext>)
    requires Agreed(s) && NasLinked(s) && assoc in s.gnbs && Lists(s, assoc, order)
    ensures OnNgShutdown(s, assoc, order) == Torn(s, On(s, assoc)).(gnbs := Without(s.gnbs, assoc))
  {
    ListedLoop(s, assoc, order, s.gnbs[assoc].id);
  }

  /** No entry of either NGAP index leads to a context of the association. */
  ghost predicate Gone(s: State, assoc: Assoc) {
    && (forall k | k in s.byRan :: NgapOf(s, s.byRan[k]).assoc != assoc)
    && (forall a | a in s.byAmf :: NgapOf(s, s.byAmf[a]).assoc != assoc)
  }

  /** The entries of every other association are as before, in both NGAP indices and the AMF-id
      index of NAS records, and nothing was added. */
  ghost predicate OthersKept(s: State, s': State, assoc: Assoc) {
    && s'.ngap == s.ngap && s'.nas == s.nas && s'.byUeKey == s.byUeKey && s'.ue == s.ue
    && (forall k :: (k in s'.byRan ==> k in s.byRan && s'.byRan[k] == s.byRan[k])
                 && (k in s.byRan && NgapOf(s, s.byRan[k]).assoc != assoc ==> k in s'.byRan))
    && (forall a :: (a in s'.byAmf ==> a in s.byAmf && s'.byAmf[a] == s.byAmf[a])
                 && (a in s.byAmf && NgapOf(s, s.byAmf[a]).assoc != assoc ==> a in s'.byAmf))
    && (forall a :: (a in s'.nasByAmf ==> a in s.nasByAmf && s'.nasByAmf[a] == s.nasByAmf[a])
                 && (a in s.nasByAmf && !(a in s.byAmf && NgapOf(s, s.byAmf[a]).assoc == assoc) ==> a in s'.nasByAmf))
  }

  lemma TornGone(s: State, s': State, assoc: Assoc)
    requires Agreed(s) && assoc in s.gnbs && s' == Torn(s, On(s, assoc)).(gnbs := s'.gnbs)
    ensures Gone(s', assoc) <==> AllHome(s, assoc)
  {
    forall a | a in s.byAmf && NgapOf(s, s.byAmf[a]).assoc == assoc ensures s.byAmf[a] in On(s, assoc) {
      assert AmfAgrees(s, a);
    }
    if k :| k in s.byRan && NgapOf(s, s.byRan[k]).assoc == assoc && !IsHome(s, k) {
      assert k in s'.byRan;
    }
  }

  lemma TornKeeps(s: State, s': State, assoc: Assoc)
    requires s' == Torn(s, On(s, assoc)).(gnbs := s'.gnbs)
    ensures OthersKept(s, s', assoc)
  {
  }

  lemma TornSupi(s: State, s': State, assoc: Assoc, x: Supi)
    requires Agreed(s) && assoc in s.gnbs && s' == Torn(s, On(s, assoc)).(gnbs := s'.gnbs) && x in s.nasBySupi
    ensures x in s'.nasBySupi <==> !SupiOn(s, assoc, x)
    ensures x in s'.nasBySupi ==> s'.nasBySupi[x] == s.nasBySupi[x]
  {
    forall a | a in s.byAmf ensures NgapOf(s, s.byAmf[a]).assoc == assoc <==> IdOf(s, On(s, assoc), a) {
      assert AmfAgrees(s, a);
    }
  }

  /** The NAS record of a context on this association carries the SUPI. */
  ghost predicate SupiOn(s: State, assoc: Assoc, x: Supi) {
    exists a :: a in s.byAmf && NgapOf(s, s.byAmf[a]).assoc == assoc
             && a in s.nasByAmf && NasOf(s, s.nasByAmf[a]).supi == x
  }

  lemma ResettingIrrelevant(s: State, assoc: Assoc, x: Supi)
    requires assoc in s.gnbs
    ensures AllHome(ResettingGnb(s, assoc), assoc) <==> AllHome(s, assoc)
    ensures SupiOn(ResettingGnb(s, assoc), assoc, x) <==> SupiOn(s, assoc, x)
  {
  }

  /** NG Reset leaves no context of its association behind exactly when none of them awaits the release
      of a handover source, and keeps every other association's entries. The SUPI index is framed less
      well: what a SUPI leads to is lost exactly when a record of a torn context carries that SUPI,
      even where the SUPI leads to a record of another association. */
  lemma ResetIsCompleteAndFramed(s: State, assoc: Assoc, order: seq<NgapContext>, x: Supi)
    requires Agreed(s) && NasLinked(s) && assoc in s.gnbs && Lists(s, assoc, order)
    ensures Gone(OnNgReset(s, assoc, order), assoc) <==> AllHome(s, assoc)
    ensures OthersKept(s, OnNgReset(s, assoc, order), assoc)
    ensures x in s.nasBySupi ==> (x in OnNgReset(s, assoc, order).nasBySupi <==> !SupiOn(s, assoc, x))
  {
    ResetTears(s, assoc, order);
    var s1, r := ResettingGnb(s, assoc), OnNgReset(s, assoc, order);
    TornGone(s1, r, assoc);
    TornKeeps(s1, r, assoc);
    if x in s.nasBySupi { TornSupi(s1, r, assoc, x); }
    ResettingIrrelevant(s, assoc, x);
  }

  /** The same of NG Shutdown, which also drops the gNB context. */
  lemma ShutdownIsCompleteAndFramed(s: State, assoc: Assoc, order: seq<NgapContext>, x: Supi)
    requires Agreed(s) && NasLinked(s) && assoc in s.gnbs && Lists(s, assoc, order)
    ensures Gone(OnNgShutdown(s, assoc, order), assoc) <==> AllHome(s, assoc)
    ensures OthersKept(s, OnNgShutdown(s, assoc, order), assoc)
    ensures x in s.nasBySupi ==> (x in OnNgShutdown(s, assoc, order).nasBySupi <==> !SupiOn(s, assoc, x))
    ensures forall g :: g in OnNgShutdown(s, assoc, order).gnbs <==> g in s.gnbs && g != assoc
  {
    var d := OnNgShutdown(s, assoc, order);
    ShutdownTears(s, assoc, order);
    TornGone(s, d, assoc);
    TornKeeps(s, d, assoc);
    if x in s.nasBySupi { TornSupi(s, d, assoc, x); }
  }

  /** No RAN key of this gNB id is left. */
  ghost predicate KeysGone(s: State, gnbId: GnbId) {
    forall k | k in s.byRan :: k.1 != gnbId
  }

  /** Every RAN key of this gNB id is the home of a context on the association. */
  ghost predicate OnlyHomesOf(s: State, assoc: Assoc, gnbId: GnbId) {
    forall k | k in s.byRan && k.1 == gnbId :: IsHome(s, k) && NgapOf(s, s.byRan[k]).assoc == assoc
  }

  lemma TornKeys(s: State, s': State, assoc: Assoc, gnbId: GnbId)
    requires s' == Torn(s, On(s, assoc)).(gnbs := s'.gnbs)
    ensures KeysGone(s', gnbId) <==> OnlyHomesOf(s, assoc, gnbId)
  {
    forall k | k in s.byRan ensures k !in s'.byRan <==> IsHome(s, k) && NgapOf(s, s.byRan[k]).assoc == assoc { }
  }

  /** After NG Reset and NG Shutdown no RAN key of the gNB's id is left exactly if every one led to a context that is
      at home there.  A UE that has moved on while the release of this gNB is awaited keeps its old key, and with NG
      Shutdown the gNB that could release it is gone. */
  lemma TeardownClearsKeys(s: State, assoc: Assoc, order: seq<NgapContext>)
    requires Agreed(s) && NasLinked(s) && assoc in s.gnbs && Lists(s, assoc, order)
    ensures KeysGone(OnNgReset(s, assoc, order), s.gnbs[assoc].id) <==> OnlyHomesOf(s, assoc, s.gnbs[assoc].id)
    ensures KeysGone(OnNgShutdown(s, assoc, order), s.gnbs[assoc].id) <==> OnlyHomesOf(s, assoc, s.gnbs[assoc].id)
  {
    var gnbId := s.gnbs[assoc].id;
    ResetTears(s, assoc, order);
    TornKeys(ResettingGnb(s, assoc), OnNgReset(s, assoc, order), assoc, gnbId);
    forall k ensures IsHome(ResettingGnb(s, assoc), k) == IsHome(s, k) { }
    ShutdownTears(s, assoc, order);
    TornKeys(s, OnNgShutdown(s, assoc, order), assoc, gnbId);
  }

  /** The tables still agree after a complete teardown, and only then. */
  lemma TornAgreement(s: State, assoc: Assoc)
    requires Agreed(s) && assoc in s.gnbs
    ensures Agreed(Torn(s, On(s, assoc))) <==> AllHome(s, assoc)
  {
    var s', us := Torn(s, On(s, assoc)), On(s, assoc);
    if AllHome(s, assoc) {
      SameUeKeys(s, s');
      TornConcerns(s, us);
      TornGone(s, s', assoc);
      AgreementOfTheConcerned(s, s', us, {});
    } else {
      var k :| k in s.byRan && NgapOf(s, s.byRan[k]).assoc == assoc && !IsHome(s, k);
      assert RanAgrees(s, k);
      assert !RanAgrees(s', k);
    }
  }

  lemma TornConcerns(s: State, us: set<NgapContext>)
    requires TablesClosed(s)
    ensures Concerns(s, Torn(s, us), us, {}) && TablesClosed(Torn(s, us))
  {
  }

  /** A gNB context that goes after its contexts are gone. */
  lemma GnbLeaves(s: State, assoc: Assoc)
    requires Agreed(s) && Gone(s, assoc)
    ensures Agreed(s.(gnbs := Without(s.gnbs, assoc)))
  {
    var s' := s.(gnbs := Without(s.gnbs, assoc));
    forall a | a in s'.byAmf ensures AmfAgrees(s', a) { assert AmfAgrees(s, a); }
    forall k | k in s'.byRan ensures RanAgrees(s', k) { assert RanAgrees(s, k); }
    forall k1, k2 | LeftBehindTwice(s', k1, k2) ensures k1 == k2 {
      assert RanAgrees(s, k1) && RanAgrees(s, k2);
      assert LeftBehindTwice(s, k1, k2);
    }
    SameUeKeys(s, s');
  }

  // ------------------------------------------------------- gNBs that come and change

  /** A release that is awaited from this association is awaited at a key of this gNB id. */
  ghost predicate AwaitsOnly(s: State, assoc: Assoc, gnbId: GnbId) {
    forall k | IsStale(s, k) && NgapOf(s, s.byRan[k]).releaseGnb == assoc :: k.1 == gnbId
  }

  lemma NewGnbIrrelevant(s: State, s': State, assoc: Assoc)
    requires Agreed(s) && s' == s.(gnbs := s'.gnbs)
    requires forall g | g in s.gnbs && g != assoc :: g in s'.gnbs && s'.gnbs[g].id == s.gnbs[g].id
    requires forall g | g in s'.gnbs && g != assoc :: g in s.gnbs
    requires forall u | u in s.ngap && Served(s, u) && NgapOf(s, u).assoc == assoc ::
               (forall k | k in s.byRan :: s.byRan[k] != u) && (forall a | a in s.byAmf :: s.byAmf[a] != u)
    requires assoc in s'.gnbs && AwaitsOnly(s, assoc, s'.gnbs[assoc].id)
    ensures Agreed(s')
  {
    forall a | a in s'.byAmf ensures AmfAgrees(s', a) { assert AmfAgrees(s, a); }
    forall k | k in s'.byRan ensures RanAgrees(s', k) && IsStale(s', k) == IsStale(s, k) { assert RanAgrees(s, k); }
    forall k1, k2 | LeftBehindTwice(s', k1, k2) ensures k1 == k2 { assert LeftBehindTwice(s, k1, k2); }
    SameUeKeys(s, s');
  }

  /** A new association keeps agreement exactly if its gNB id is that of every key at which a release from an
      association of this number is still awaited. */
  lemma NewAssociationAgreement(s: State, assoc: Assoc, g: Gnb)
    requires Agreed(s)
    ensures Agreed(OnNewAssociation(s, assoc, g)) <==> (assoc !in s.gnbs ==> AwaitsOnly(s, assoc, g.id))
  {
    if assoc !in s.gnbs {
      var s' := OnNewAssociation(s, assoc, g);
      if AwaitsOnly(s, assoc, g.id) {
        NewGnbIrrelevant(s, s', assoc);
      } else {
        var k :| IsStale(s, k) && NgapOf(s, s.byRan[k]).releaseGnb == assoc && k.1 != g.id;
        assert !RanAgrees(s', k);
      }
    }
  }

  /** A gNB id that is set anew keeps agreement exactly if it is the one the association had, or no context is on the
      association and no release from it is awaited at a key of another id. */
  lemma GnbIdAgreement(s: State, assoc: Assoc, gnbId: GnbId)
    requires Agreed(s) && assoc in s.gnbs
    ensures Agreed(WithGnbId(s, assoc, gnbId)) <==>
            gnbId == s.gnbs[assoc].id || (On(s, assoc) == {} && AwaitsOnly(s, assoc, gnbId))
  {
    var s' := WithGnbId(s, assoc, gnbId);
    if gnbId == s.gnbs[assoc].id {
      assert s'.gnbs == s.gnbs;
    } else if k :| k in s.byRan && NgapOf(s, s.byRan[k]).assoc == assoc {
      assert s.byRan[k] in On(s, assoc) && RanAgrees(s, k);
      var id := NgapOf(s, s.byRan[k]).amfId;
      if id.Some? {
        assert AmfAgrees(s, id.value) && !AmfAgrees(s', id.value);
      } else {
        assert !RanAgrees(s', k);
      }
    } else if AwaitsOnly(s, assoc, gnbId) {
      forall a | a in s.byAmf ensures NgapOf(s, s.byAmf[a]).assoc != assoc { assert AmfAgrees(s, a); }
      NewGnbIrrelevant(s, s', assoc);
    } else {
      var k :| IsStale(s, k) && NgapOf(s, s.byRan[k]).releaseGnb == assoc && k.1 != gnbId;
      assert !RanAgrees(s', k);
    }
  }

  // ------------------------------------------------------- NG Setup

  lemma NasRemovalAlike(s: State, x: State, a: AmfId)
    requires ButForGnbs(x, s)
    ensures ButForGnbs(WithoutNas(x, a), WithoutNas(s, a))
  {
  }

  lemma RecordRemovalAlike(s: State, x: State, a: AmfId)
    requires ButForGnbs(x, s) && a in s.nasByAmf
    ensures ButForGnbs(RemoveByAmf(x, Some(a)), RemoveByAmf(s, Some(a)))
  {
    NasRemovalAlike(s, x, a);
    var key := (NasOf(s, s.nasByAmf[a]).ranId, a);
    assert NasOf(x, x.nasByAmf[a]).ranId == key.0;
    if key in s.byUeKey { assert UeOf(x, x.byUeKey[key]) == UeOf(s, s.byUeKey[key]); }
  }

  lemma IdRemovalAlike(s: State, x: State, a: AmfId)
    requires ButForGnbs(x, s) && a !in s.nasByAmf
    ensures ButForGnbs(RemoveByAmf(x, Some(a)), RemoveByAmf(s, Some(a)))
  {
  }

  lemma AmfRemovalAlike(s: State, x: State, id: Option<AmfId>)
    requires ButForGnbs(x, s)
    ensures ButForGnbs(RemoveByAmf(x, id), RemoveByAmf(s, id))
  {
    if id.Some? {
      if id.value in s.nasByAmf { RecordRemovalAlike(s, x, id.value); } else { IdRemovalAlike(s, x, id.value); }
      assert id == Some(id.value);
    }
  }

  lemma RanRemovalAlike(s: State, x: State, ranId: RanId, gnbId: GnbId)
    requires ButForGnbs(x, s)
    ensures ButForGnbs(RemoveByRan(x, ranId, gnbId), RemoveByRan(s, ranId, gnbId))
  {
    if (ranId, gnbId) in s.byRan {
      var id := NgapOf(s, s.byRan[(ranId, gnbId)]).amfId;
      assert NgapOf(x, x.byRan[(ranId, gnbId)]).amfId == id;
      var s', x' := s.(byRan := Without(s.byRan, (ranId, gnbId))), x.(byRan := Without(x.byRan, (ranId, gnbId)));
      if id.Some? { NasRemovalAlike(s', x', id.value); }
    }
  }

  /** The loop does not look at gNB contexts. */
  lemma {:induction false} LoopAlike(s: State, x: State, order: seq<NgapContext>, gnbId: GnbId)
    requires ButForGnbs(x, s)
    ensures ButForGnbs(RemoveAllListed(x, order, gnbId), RemoveAllListed(s, order, gnbId))
    decreases |order|
  {
    if order != [] {
      var n := NgapOf(s, order[0]);
      AmfRemovalAlike(s, x, n.amfId);
      RanRemovalAlike(RemoveByAmf(s, n.amfId), RemoveByAmf(x, n.amfId), n.ranId, gnbId);
      LoopAlike(RemoveListed(s, order[0], gnbId), RemoveListed(x, order[0], gnbId), order[1..], gnbId);
    }
  }

  lemma AnsweredAlike(t: State, s: State, assoc: Assoc, gnbId: GnbId, encodes: bool)
    requires ButForGnbs(t, s)
    ensures ButForGnbs(SetupAnswered(t, assoc, gnbId, encodes), s)
  {
  }

  lemma ReleasingRemoves(s: State, assoc: Assoc, gnbId: GnbId, encodes: bool, order: seq<NgapContext>)
    requires assoc in s.gnbs
    ensures ButForGnbs(OnNgSetup(s, assoc, gnbId, Released(encodes), order), RemoveAllListed(s, order, gnbId))
  {
    LoopAlike(s, SettingUp(s, assoc, gnbId), order, gnbId);
    AnsweredAlike(RemoveAllListed(SettingUp(s, assoc, gnbId), order, gnbId), RemoveAllListed(s, order, gnbId), assoc,
                  gnbId, encodes);
  }

  /** NG Setup that gives up UEs removes what its loop removes. */
  lemma SetupRemoves(s: State, assoc: Assoc, gnbId: GnbId, setup: Setup, order: seq<NgapContext>)
    requires assoc in s.gnbs && setup.Released?
    ensures ButForGnbs(OnNgSetup(s, assoc, gnbId, setup, order), RemoveAllListed(s, order, gnbId))
  {
    ReleasingRemoves(s, assoc, gnbId, setup.encodes, order);
    assert setup == Released(setup.encodes);
  }

  // the loop under an id at which none of the contexts is found

  /** No UE of the association has a RAN id that is in use under this gNB id. */
  ghost predicate NoClash(s: State, assoc: Assoc, gnbId: GnbId) {
    forall u | u in On(s, assoc) :: NoClashOf(s, u, gnbId)
  }

  ghost predicate AllComplete(s: State, assoc: Assoc) {
    forall u | u in On(s, assoc) :: Complete(s, u)
  }

  /** Some RAN and NAS entries of s are gone. */
  ghost predicate Thinned(s: State, t: State) {
    && t.ngap == s.ngap && t.nas == s.nas && t.byUeKey == s.byUeKey && t.ue == s.ue
    && (forall k | k in t.byRan :: k in s.byRan && t.byRan[k] == s.byRan[k])
    && (forall a | a in t.nasByAmf :: a in s.nasByAmf && t.nasByAmf[a] == s.nasByAmf[a])
  }

  lemma ThinnedByNas(t: State, a: AmfId)
    ensures Thinned(t, WithoutNas(t, a))
  {
    if a in t.nasByAmf {
      var r := WithoutNas(t, a);
      assert r.nasByAmf == Without(t.nasByAmf, a) && r.byRan == t.byRan;
    }
  }

  lemma ThinnedByAmf(t: State, id: Option<AmfId>)
    ensures Thinned(t, RemoveByAmf(t, id))
  {
    if id.Some? {
      ThinnedByNas(t, id.value);
      if id.value in t.nasByAmf { ThinnedByRecord(t, id.value); } else { ThinnedById(t, id.value); }
      assert id == Some(id.value);
    }
  }

  lemma ThinnedById(t: State, a: AmfId)
    requires a !in t.nasByAmf
    ensures Thinned(t, RemoveByAmf(t, Some(a)))
  {
    assert WithoutNas(t, a) == t;
  }

  lemma ThinnedByRecord(t: State, a: AmfId)
    requires a in t.nasByAmf && Thinned(t, WithoutNas(t, a))
    ensures Thinned(t, RemoveByAmf(t, Some(a)))
  {
    var s', r, key := WithoutNas(t, a), RemoveByAmf(t, Some(a)), (NasOf(t, t.nasByAmf[a]).ranId, a);
    if key in t.byUeKey {
      var k := (key.0, UeOf(t, t.byUeKey[key]).gnbId);
      assert r == s'.(byRan := Without(s'.byRan, k), byAmf := Without(s'.byAmf, a));
    }
  }

  lemma ThinnedByRan(t: State, ranId: RanId, gnbId: GnbId)
    ensures Thinned(t, RemoveByRan(t, ranId, gnbId))
  {
    if (ranId, gnbId) in t.byRan {
      var id := NgapOf(t, t.byRan[(ranId, gnbId)]).amfId;
      var s' := t.(byRan := Without(t.byRan, (ranId, gnbId)));
      assert Thinned(t, s');
      if id.Some? {
        ThinnedByNas(s', id.value);
        assert RemoveByRan(t, ranId, gnbId) == WithoutNas(s', id.value).(byAmf := Without(s'.byAmf, id.value));
      }
    }
  }

  lemma ThinnedByBoth(t: State, u: NgapContext, gnbId: GnbId)
    ensures Thinned(t, RemoveListed(t, u, gnbId))
  {
    ThinnedByAmf(t, NgapOf(t, u).amfId);
    ThinnedByRan(RemoveByAmf(t, NgapOf(t, u).amfId), NgapOf(t, u).ranId, gnbId);
  }

  /** The first removal of a context leaves the RAN index as it is, but for the home of a complete one. */
  lemma FirstRemovalKeeps(s: State, t: State, u: NgapContext, assoc: Assoc, k: RanKey)
    requires Agreed(s) && NasLinked(s) && Listed(s, u, assoc) && assoc in s.gnbs && Thinned(s, t)
    requires k in t.byRan && (Complete(s, u) ==> k != HomeKey(s, u))
    ensures k in RemoveByAmf(t, NgapOf(s, u).amfId).byRan
  {
    ListedAtHome(s, u, assoc);
    var id := NgapOf(s, u).amfId;
    if id.Some? {
      assert NasLinkedAt(s, id.value);
      if id.value in t.nasByAmf {
        var key := (NasOf(t, t.nasByAmf[id.value]).ranId, id.value);
        assert key in t.byUeKey ==> Complete(s, u) && (key.0, UeOf(t, t.byUeKey[key]).gnbId) == HomeKey(s, u);
      }
    }
  }

  /** And the second leaves it as it is, where it finds nothing. */
  lemma OneRemoval(s: State, t: State, u: NgapContext, assoc: Assoc, gnbId: GnbId, k: RanKey)
    requires Agreed(s) && NasLinked(s) && Listed(s, u, assoc) && assoc in s.gnbs && NoClashOf(s, u, gnbId)
    requires Thinned(s, t) && k in t.byRan && (Complete(s, u) ==> k != HomeKey(s, u))
    ensures Thinned(s, RemoveListed(t, u, gnbId)) && k in RemoveListed(t, u, gnbId).byRan
  {
    ThinnedByBoth(t, u, gnbId);
    FirstRemovalKeeps(s, t, u, assoc, k);
    ThinnedByAmf(t, NgapOf(s, u).amfId);
    assert (NgapOf(s, u).ranId, gnbId) !in RemoveByAmf(t, NgapOf(s, u).amfId).byRan;
  }

  /** A key that is not the home of a complete listed context survives the loop. */
  lemma {:induction false} KeySurvives(s: State, t: State, assoc: Assoc, order: seq<NgapContext>, gnbId: GnbId,
                                       k: RanKey)
    requires Agreed(s) && NasLinked(s) && assoc in s.gnbs && Thinned(s, t) && k in t.byRan
    requires forall u | u in order :: Listed(s, u, assoc) && NoClashOf(s, u, gnbId)
    requires forall u | u in order :: Complete(s, u) ==> k != HomeKey(s, u)
    ensures var r := RemoveAllListed(t, order, gnbId); Thinned(s, r) && k in r.byRan
    decreases |order|
  {
    if order != [] {
      OneRemoval(s, t, order[0], assoc, gnbId, k);
      KeySurvives(s, RemoveListed(t, order[0], gnbId), assoc, order[1..], gnbId, k);
    }
  }

  /** A key of the association's contexts that survives: a left-behind one, or the home of an incomplete context. */
  ghost predicate Survivor(s: State, assoc: Assoc, k: RanKey) {
    && k in s.byRan && NgapOf(s, s.byRan[k]).assoc == assoc
    && (IsHome(s, k) ==> !Complete(s, s.byRan[k]))
  }

  lemma SurvivorStays(s: State, assoc: Assoc, order: seq<NgapContext>, gnbId: GnbId, k: RanKey)
    requires Agreed(s) && NasLinked(s) && assoc in s.gnbs && Lists(s, assoc, order) && NoClash(s, assoc, gnbId)
    requires Survivor(s, assoc, k)
    ensures var r := RemoveAllListed(s, order, gnbId); Thinned(s, r) && k in r.byRan
  {
    ListIsOn(s, assoc, order);
    forall u | u in order && Complete(s, u) ensures k != HomeKey(s, u) { ListedAtHome(s, u, assoc); }
    KeySurvives(s, s, assoc, order, gnbId, k);
  }

  lemma SurvivorExists(s: State, assoc: Assoc)
    requires Agreed(s) && assoc in s.gnbs && !(AllHome(s, assoc) && AllComplete(s, assoc))
    ensures exists k :: Survivor(s, assoc, k)
  {
    if AllHome(s, assoc) {
      var u :| u in On(s, assoc) && !Complete(s, u);
      var k :| k in s.byRan && s.byRan[k] == u && NgapOf(s, u).assoc == assoc;
      assert Survivor(s, assoc, k);
    } else {
      var k :| k in s.byRan && NgapOf(s, s.byRan[k]).assoc == assoc && !IsHome(s, k);
      assert Survivor(s, assoc, k);
    }
  }

  /** A surviving key spoils agreement: its context is now taken for one of the new gNB id, where nothing leads to
      it. */
  lemma SurvivorDisagrees(s: State, f: State, assoc: Assoc, gnbId: GnbId, k: RanKey)
    requires Thinned(s, f) && k in f.byRan && NgapOf(s, s.byRan[k]).assoc == assoc
    requires assoc in f.gnbs && f.gnbs[assoc].id == gnbId && NoClashOf(s, s.byRan[k], gnbId)
    ensures !Agreed(f)
  {
    var id := NgapOf(f, f.byRan[k]).amfId;
    assert HomeKey(f, f.byRan[k]) !in f.byRan;
    if RanAgrees(f, k) { assert !AmfAgrees(f, id.value); }
  }

  /** NG Setup that gives up UEs amounts to their erasure exactly if the gNB id is as before, or the first removal finds
      each of them. */
  lemma SetupTears(s: State, assoc: Assoc, gnbId: GnbId, setup: Setup, order: seq<NgapContext>)
    requires Agreed(s) && NasLinked(s) && assoc in s.gnbs && setup.Released? && Lists(s, assoc, order)
    requires gnbId == s.gnbs[assoc].id || NoClash(s, assoc, gnbId)
    ensures ButForGnbs(OnNgSetup(s, assoc, gnbId, setup, order), Torn(s, On(s, assoc))) <==>
            gnbId == s.gnbs[assoc].id || AllComplete(s, assoc)
  {
    SetupRemoves(s, assoc, gnbId, setup, order);
    if gnbId == s.gnbs[assoc].id || AllComplete(s, assoc) {
      ListedLoop(s, assoc, order, gnbId);
    } else {
      var u :| u in On(s, assoc) && !Complete(s, u);
      var k :| k in s.byRan && s.byRan[k] == u && NgapOf(s, u).assoc == assoc;
      ListedAtHome(s, u, assoc);
      SurvivorStays(s, assoc, order, gnbId, HomeKey(s, u));
      assert HomeKey(s, u) !in Torn(s, On(s, assoc)).byRan;
    }
  }

  lemma SetupGnbs(s: State, assoc: Assoc, gnbId: GnbId, setup: Setup, order: seq<NgapContext>)
    requires assoc in s.gnbs && !setup.Malformed?
    ensures SameGnbIds(WithGnbId(s, assoc, gnbId), OnNgSetup(s, assoc, gnbId, setup, order))
  {
    match setup
    case Refused => assert setup == Refused;
    case Retained(encodes) => RetainingGnbs(s, assoc, gnbId, encodes, order);
    case Released(encodes) => ReleasingGnbs(s, assoc, gnbId, encodes, order);
  }

  lemma RetainingGnbs(s: State, assoc: Assoc, gnbId: GnbId, encodes: bool, order: seq<NgapContext>)
    requires assoc in s.gnbs
    ensures SameGnbIds(WithGnbId(s, assoc, gnbId), OnNgSetup(s, assoc, gnbId, Retained(encodes), order))
  {
  }

  lemma ReleasingGnbs(s: State, assoc: Assoc, gnbId: GnbId, encodes: bool, order: seq<NgapContext>)
    requires assoc in s.gnbs
    ensures SameGnbIds(WithGnbId(s, assoc, gnbId), OnNgSetup(s, assoc, gnbId, Released(encodes), order))
  {
    assert RemoveAllListed(SettingUp(s, assoc, gnbId), order, gnbId).gnbs == SettingUp(s, assoc, gnbId).gnbs;
  }

  lemma SetupWithoutLoss(s: State, assoc: Assoc, gnbId: GnbId, setup: Setup, order: seq<NgapContext>)
    requires Agreed(s) && assoc in s.gnbs && (setup.Refused? || setup.Retained?)
    ensures Agreed(OnNgSetup(s, assoc, gnbId, setup, order)) <==> Agreed(WithGnbId(s, assoc, gnbId))
  {
    SetupGnbs(s, assoc, gnbId, setup, order);
    SetupStateIrrelevant(WithGnbId(s, assoc, gnbId), OnNgSetup(s, assoc, gnbId, setup, order));
  }

  /** A release that is awaited stays so when contexts are erased that await none. */
  lemma TornAwaits(s: State, assoc: Assoc, gnbId: GnbId)
    requires AllHome(s, assoc)
    ensures AwaitsOnly(Torn(s, On(s, assoc)), assoc, gnbId) <==> AwaitsOnly(s, assoc, gnbId)
  {
    forall k ensures IsStale(Torn(s, On(s, assoc)), k) <==> IsStale(s, k) { }
  }

  lemma GoneIsOff(s: State, assoc: Assoc)
    requires Gone(s, assoc)
    ensures On(s, assoc) == {}
  {
  }

  /** The erasure, and then the new gNB id. */
  lemma ErasedSetup(s: State, assoc: Assoc, gnbId: GnbId, setup: Setup, order: seq<NgapContext>)
    requires Agreed(s) && assoc in s.gnbs && setup.Released? && AllHome(s, assoc)
    requires ButForGnbs(OnNgSetup(s, assoc, gnbId, setup, order), Torn(s, On(s, assoc)))
    ensures Agreed(OnNgSetup(s, assoc, gnbId, setup, order)) <==>
            gnbId == s.gnbs[assoc].id || AwaitsOnly(s, assoc, gnbId)
  {
    var t := Torn(s, On(s, assoc));
    TornAgreement(s, assoc);
    TornGone(s, t, assoc);
    GoneIsOff(t, assoc);
    GnbIdAgreement(t, assoc, gnbId);
    TornAwaits(s, assoc, gnbId);
    SetupGnbs(s, assoc, gnbId, setup, order);
    SetupStateIrrelevant(WithGnbId(t, assoc, gnbId), OnNgSetup(s, assoc, gnbId, setup, order));
  }

  lemma SetupSpoils(s: State, assoc: Assoc, gnbId: GnbId, setup: Setup, order: seq<NgapContext>)
    requires Agreed(s) && NasLinked(s) && assoc in s.gnbs && setup.Released? && Lists(s, assoc, order)
    requires NoClash(s, assoc, gnbId) && !(AllHome(s, assoc) && AllComplete(s, assoc))
    ensures !Agreed(OnNgSetup(s, assoc, gnbId, setup, order))
  {
    SurvivorExists(s, assoc);
    var k :| Survivor(s, assoc, k);
    SurvivorStays(s, assoc, order, gnbId, k);
    SetupRemoves(s, assoc, gnbId, setup, order);
    SetupGnbs(s, assoc, gnbId, setup, order);
    assert s.byRan[k] in On(s, assoc);
    SurvivorDisagrees(s, OnNgSetup(s, assoc, gnbId, setup, order), assoc, gnbId, k);
  }

  lemma SetupWithLoss(s: State, assoc: Assoc, setup: Setup, order: seq<NgapContext>)
    requires Agreed(s) && NasLinked(s) && assoc in s.gnbs && setup.Released? && Lists(s, assoc, order)
    ensures Agreed(OnNgSetup(s, assoc, s.gnbs[assoc].id, setup, order)) <==> AllHome(s, assoc)
  {
    var gnbId := s.gnbs[assoc].id;
    SetupTears(s, assoc, gnbId, setup, order);
    TornAgreement(s, assoc);
    SetupGnbs(s, assoc, gnbId, setup, order);
    SetupStateIrrelevant(Torn(s, On(s, assoc)), OnNgSetup(s, assoc, gnbId, setup, order));
  }

  /** What NG Setup must meet.  It may always keep the gNB id; a new one must be that of every key at which a release
      from the association is awaited.  UEs that are given up must await no release, and under a new id their NAS
      records must be in place; under a new id no UE can be retained. */
  ghost predicate SetupMeets(s: State, assoc: Assoc, gnbId: GnbId, setup: Setup)
    requires assoc in s.gnbs
  {
    if setup.Released? then
      AllHome(s, assoc) && (gnbId == s.gnbs[assoc].id || (AllComplete(s, assoc) && AwaitsOnly(s, assoc, gnbId)))
    else
      gnbId == s.gnbs[assoc].id || (On(s, assoc) == {} && AwaitsOnly(s, assoc, gnbId))
  }

  /** NG Setup keeps agreement exactly if it meets that.  Left out is a new id under which the RAN id of a UE that is
      given up is in use already. */
  lemma NgSetupAgreement(s: State, assoc: Assoc, gnbId: GnbId, setup: Setup, order: seq<NgapContext>)
    requires Agreed(s) && NasLinked(s)
    requires assoc in s.gnbs && setup.Released? ==>
               Lists(s, assoc, order) && (gnbId == s.gnbs[assoc].id || NoClash(s, assoc, gnbId))
    ensures Agreed(OnNgSetup(s, assoc, gnbId, setup, order)) <==>
            (assoc in s.gnbs && !setup.Malformed? ==> SetupMeets(s, assoc, gnbId, setup))
  {
    if assoc in s.gnbs && !setup.Malformed? {
      if !setup.Released? {
        GnbIdAgreement(s, assoc, gnbId);
        SetupWithoutLoss(s, assoc, gnbId, setup, order);
      } else if gnbId == s.gnbs[assoc].id {
        SetupWithLoss(s, assoc, setup, order);
      } else if AllHome(s, assoc) && AllComplete(s, assoc) {
        SetupTears(s, assoc, gnbId, setup, order);
        ErasedSetup(s, assoc, gnbId, setup, order);
      } else {
        SetupSpoils(s, assoc, gnbId, setup, order);
      }
    }
  }

  lemma SetupStateIrrelevant(s: State, s': State)
    requires ButForGnbs(s', s) && SameGnbIds(s, s')
    ensures Agreed(s') <==> Agreed(s)
  {
    if Agreed(s) { GnbStatesIrrelevant(s, s'); }
    if Agreed(s') { GnbStatesIrrelevant(s', s); }
  }
}
