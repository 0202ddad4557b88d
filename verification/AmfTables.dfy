/** The AMF's index tables on the heap: maps to shared context objects that the NGAP procedures
    write in place. Each handler performs the step that module Registry defines. */
module AmfTables {
  import opened Contexts
  import opened Registry

  class AmfTables {
    var gnbContexts: map<Assoc, GnbContext>
    var assocOfGnb: map<GnbId, Assoc>
    var ranId2Ue: map<RanKey, NgapContext>
    var amfId2Ue: map<AmfId, NgapContext>
    var ueCtxKey: map<UeKey, UeContext>
    var amfId2Nas: map<AmfId, NasRecord>
    var supi2Nas: map<Supi, NasRecord>
    var supi2AmfId: map<Supi, AmfId>
    var amfIdGenerator: nat

    // what the context objects hold, as values
    ghost var gnbs: map<Assoc, Gnb>
    ghost var ngap: map<NgapContext, Ngap>
    ghost var ue: map<UeContext, Ue>
    ghost var nas: map<NasRecord, Nas>

    ghost function View(): State
      reads this
    {
      State(gnbs, assocOfGnb, ranId2Ue, amfId2Ue, ueCtxKey, amfId2Nas, supi2Nas, supi2AmfId,
            ngap, ue, nas, amfIdGenerator)
    }

    /** No two associations share a gNB context, and every object holds what is said of it. */
    ghost predicate Valid()
      reads this, gnbContexts.Values, ngap.Keys, ue.Keys, nas.Keys
    {
      && TablesClosed(View())
      && gnbContexts.Keys == gnbs.Keys
      && (forall g | g in gnbContexts :: gnbContexts[g].rec == gnbs[g])
      && (forall g, h | g in gnbContexts && h in gnbContexts && gnbContexts[g] == gnbContexts[h] :: g == h)
      && (forall u | u in ngap :: u.rec == ngap[u])
      && (forall c | c in ue :: c.rec == ue[c])
      && (forall r | r in nas :: r.rec == nas[r])
    }

    constructor ()
      ensures Valid()
      ensures View() == State(map[], map[], map[], map[], map[], map[], map[], map[], map[], map[], map[], 0)
    {
      gnbContexts, assocOfGnb, ranId2Ue, amfId2Ue, ueCtxKey := map[], map[], map[], map[], map[];
      amfId2Nas, supi2Nas, supi2AmfId, amfIdGenerator := map[], map[], map[], 0;
      gnbs, ngap, ue, nas := map[], map[], map[], map[];
    }

    method NewGnb(assoc: Assoc, g: Gnb)
      requires Valid() && assoc !in gnbContexts
      modifies this`gnbContexts, this`gnbs
      ensures Valid() && View() == old(View()).(gnbs := old(gnbs)[assoc := g])
    {
      var gc := new GnbContext(g);
      assert forall h | h in gnbContexts :: gnbContexts[h] != gc;
      gnbContexts := gnbContexts[assoc := gc];
      gnbs := gnbs[assoc := g];
    }

    /** A new SCTP association */
    method NewAssociation(assoc: Assoc, g: Gnb)
      requires Valid()
      modifies this`gnbContexts, this`gnbs
      ensures Valid() && View() == OnNewAssociation(old(View()), assoc, g)
    {
      if assoc !in gnbContexts { NewGnb(assoc, g); }
    }

    // ----------------------------------------------------- tables

    method SetByRan(key: RanKey, u: NgapContext)
      requires Valid() && u in ngap
      modifies this`ranId2Ue
      ensures Valid() && View() == old(View()).(byRan := old(ranId2Ue)[key := u])
    {
      ranId2Ue := ranId2Ue[key := u];
    }

    method EraseByRan(key: RanKey)
      requires Valid()
      modifies this`ranId2Ue
      ensures Valid() && View() == old(View()).(byRan := Without(old(ranId2Ue), key))
    {
      ranId2Ue := Without(ranId2Ue, key);
    }

    method SetByAmf(a: AmfId, u: NgapContext)
      requires Valid() && u in ngap
      modifies this`amfId2Ue
      ensures Valid() && View() == old(View()).(byAmf := old(amfId2Ue)[a := u])
    {
      amfId2Ue := amfId2Ue[a := u];
    }

    method EraseByAmf(a: AmfId)
      requires Valid()
      modifies this`amfId2Ue
      ensures Valid() && View() == old(View()).(byAmf := Without(old(amfId2Ue), a))
    {
      amfId2Ue := Without(amfId2Ue, a);
    }

    method SetByUeKey(key: UeKey, c: UeContext)
      requires Valid() && c in ue
      modifies this`ueCtxKey
      ensures Valid() && View() == old(View()).(byUeKey := old(ueCtxKey)[key := c])
    {
      ueCtxKey := ueCtxKey[key := c];
    }

    /** The NAS record of an AMF id, if any, leaves both NAS tables. */
    method EraseNas(a: AmfId)
      requires Valid()
      modifies this`amfId2Nas, this`supi2Nas
      ensures Valid() && View() == WithoutNas(old(View()), a)
    {
      if a in amfId2Nas {
        supi2Nas := Without(supi2Nas, amfId2Nas[a].rec.supi);
        amfId2Nas := Without(amfId2Nas, a);
      }
    }

    // ----------------------------------------------------- context objects

    method NewNgapContext() returns (u: NgapContext)
      requires Valid()
      modifies this`ngap
      ensures Valid() && fresh(u) && u !in old(ngap)
      ensures View() == old(View()).(ngap := old(ngap)[u := Ngap(0, None, 0, NotConnected, 0, 0, NoCause, 0)])
    {
      u := new NgapContext(Ngap(0, None, 0, NotConnected, 0, 0, NoCause, 0));
      ngap := ngap[u := u.rec];
    }

    method Write(u: NgapContext, v: Ngap)
      requires Valid() && u in ngap
      modifies u, this`ngap
      ensures Valid() && View() == old(View()).(ngap := old(ngap)[u := v])
    {
      u.rec := v;
      ngap := ngap[u := v];
    }

    method NewUeContext() returns (c: UeContext)
      requires Valid()
      modifies this`ue
      ensures Valid() && fresh(c) && c !in old(ue)
      ensures View() == old(View()).(ue := old(ue)[c := Ue(0, 0, 0)])
    {
      c := new UeContext(Ue(0, 0, 0));
      ue := ue[c := c.rec];
    }

    method WriteUe(c: UeContext, v: Ue)
      requires Valid() && c in ue
      modifies c, this`ue
      ensures Valid() && View() == old(View()).(ue := old(ue)[c := v])
    {
      c.rec := v;
      ue := ue[c := v];
    }

    method WriteNas(r: NasRecord, v: Nas)
      requires Valid() && r in nas
      modifies r, this`nas
      ensures Valid() && View() == old(View()).(nas := old(nas)[r := v])
    {
      r.rec := v;
      nas := nas[r := v];
    }

    method WriteGnb(assoc: Assoc, v: Gnb)
      requires Valid() && assoc in gnbContexts
      modifies gnbContexts[assoc], this`gnbs
      ensures Valid() && View() == old(View()).(gnbs := old(gnbs)[assoc := v])
    {
      gnbContexts[assoc].rec := v;
      gnbs := gnbs[assoc := v];
    }

    // ----------------------------------------------------- procedures

    /** The context under a RAN key, created and stored if there is none. */
    method FindOrCreate(key: RanKey) returns (u: NgapContext)
      requires Valid()
      modifies this`ranId2Ue, this`ngap
      ensures Valid() && u in ngap
      ensures if key in old(ranId2Ue) then u == old(ranId2Ue)[key] && View() == old(View()) else
                && fresh(u) && u !in old(ngap)
                && View() == old(View()).(byRan := old(ranId2Ue)[key := u],
                                          ngap := old(ngap)[u := Ngap(0, None, 0, NotConnected, 0, 0, NoCause, 0)])
    {
      if key in ranId2Ue {
        u := ranId2Ue[key];
      } else {
        u := NewNgapContext();
        SetByRan(key, u);
      }
    }

    /** Initial UE Message */
    method InitialUeMessage(assoc: Assoc, ranId: RanId) returns (u: NgapContext?)
      requires Valid()
      modifies this`ranId2Ue, this`ngap, ngap.Keys
      ensures Valid()
      ensures u == null <==> assoc !in gnbContexts || gnbContexts[assoc].rec.state == Unready
      ensures u == null ==> View() == old(View())
      ensures u != null ==>
                && (if (ranId, old(gnbs)[assoc].id) in old(ranId2Ue) then u in old(ngap)
                    else u !in old(ngap) && fresh(u))
                && View() == OnInitialUe(old(View()), assoc, ranId, u)
    {
      if assoc !in gnbContexts { return null; }
      if gnbContexts[assoc].rec.state == Unready { return null; }
      u := FindOrCreate((ranId, gnbContexts[assoc].rec.id));
      ghost var s1 := View();
      Write(u, u.rec.(ranId := ranId, assoc := assoc));
      InitialUeSteps(old(View()), s1, assoc, ranId, u);
    }

    /** The UE context under a key, created and stored if there is none. */
    method FindOrCreateUe(key: UeKey) returns (c: UeContext)
      requires Valid()
      modifies this`ueCtxKey, this`ue
      ensures Valid() && c in ue
      ensures if key in old(ueCtxKey) then c == old(ueCtxKey)[key] && View() == old(View()) else
                && fresh(c) && c !in old(ue)
                && View() == old(View()).(byUeKey := old(ueCtxKey)[key := c], ue := old(ue)[c := Ue(0, 0, 0)])
    {
      if key in ueCtxKey {
        c := ueCtxKey[key];
      } else {
        c := NewUeContext();
        SetByUeKey(key, c);
      }
    }

    method GenerateAmfId() returns (a: AmfId)
      requires Valid()
      modifies this`amfIdGenerator
      ensures Valid() && a == NextAmfId(old(View()))
      ensures View() == old(View()).(nextAmfId := old(amfIdGenerator) + 1)
    {
      a := amfIdGenerator % AMF_ID_MASK;
      amfIdGenerator := amfIdGenerator + 1;
    }

    method AssignAmfId(key: RanKey, a: AmfId)
      requires Valid() && key in ranId2Ue
      modifies this`amfId2Ue, this`ngap, ranId2Ue[key]
      ensures Valid()
      ensures var u := old(ranId2Ue)[key];
              View() == old(View()).(ngap := old(ngap)[u := NgapOf(old(View()), u).(amfId := Some(a))],
                                     byAmf := old(amfId2Ue)[a := u])
    {
      var u := ranId2Ue[key];
      Write(u, u.rec.(amfId := Some(a)));
      SetByAmf(a, u);
    }

    /** A new AMF id, and the UE context under the key that it gives. */
    method OpenUe(ranId: RanId) returns (a: AmfId, c: UeContext)
      requires Valid()
      modifies this`amfIdGenerator, this`ueCtxKey, this`ue
      ensures Valid() && a == NextAmfId(old(View())) && c in ue
      ensures if (ranId, a) in old(ueCtxKey) then c in old(ue) else c !in old(ue) && fresh(c)
      ensures Opened(old(View()), View(), (ranId, a), c)
    {
      a := GenerateAmfId();
      c := FindOrCreateUe((ranId, a));
    }

    /** NAS signalling establishment */
    method EstablishNas(ranId: RanId, gnbId: GnbId) returns (c: UeContext)
      requires Valid()
      modifies this`amfIdGenerator, this`ueCtxKey, this`amfId2Ue, this`ngap, this`ue, ngap.Keys, ue.Keys
      ensures Valid()
      ensures if (ranId, NextAmfId(old(View()))) in old(ueCtxKey) then c in old(ue) else c !in old(ue) && fresh(c)
      ensures View() == OnEstablish(old(View()), ranId, gnbId, c)
    {
      var a: AmfId;
      a, c := OpenUe(ranId);
      ghost var s1 := View();
      if (ranId, gnbId) in ranId2Ue { AssignAmfId((ranId, gnbId), a); }
      EstablishSteps(old(View()), s1, View(), ranId, gnbId, c);
      WriteUe(c, Ue(ranId, a, gnbId));
    }

    method DownlinkNas(ranId: RanId, a: AmfId)
      requires Valid()
      modifies this`amfId2Ue, this`ngap, ngap.Keys
      ensures Valid() && View() == OnDlNas(old(View()), ranId, a)
    {
      if (ranId, a) !in ueCtxKey { return; }
      var key := (ranId, ueCtxKey[(ranId, a)].rec.gnbId);
      if key !in ranId2Ue { return; }
      var u := ranId2Ue[key];
      if u.rec.assoc !in gnbContexts { return; }
      AssignAmfId(key, a);
      ghost var s1 := View();
      Write(u, u.rec.(state := Connected));
      DlNasSteps(old(View()), s1, ranId, a, u);
    }

    method HandoverRequired(assoc: Assoc, a: AmfId, ranId: RanId, typeOk: bool, keyOk: bool, target: GnbId)
      requires Valid()
      modifies this`ngap, ngap.Keys
      ensures Valid() && View() == OnHandoverRequired(old(View()), assoc, a, ranId, typeOk, keyOk, target)
    {
      if assoc !in gnbContexts { return; }
      var key := (ranId, gnbContexts[assoc].rec.id);
      if key !in ranId2Ue { return; }
      var u := ranId2Ue[key];
      if u.rec.amfId != Some(a) { return; }
      if !typeOk { return; }
      Write(u, u.rec.(assoc := assoc, state := InHandover));
      ghost var s1 := View();
      if a !in amfId2Nas { return; }
      if !keyOk { return; }
      if target !in assocOfGnb { return; }
      Write(u, u.rec.(targetAssoc := assocOfGnb[target]));
      WrittenTwice(old(View()), s1, u, s1.ngap[u], NgapOf(s1, u).(targetAssoc := assocOfGnb[target]));
    }

    method HandoverRequestAck(assoc: Assoc, a: AmfId, ranId: RanId)
      requires Valid()
      modifies this`ngap, ngap.Keys
      ensures Valid() && View() == OnHandoverAck(old(View()), assoc, a, ranId)
    {
      if assoc !in gnbContexts || a !in amfId2Ue { return; }
      var u := amfId2Ue[a];
      Write(u, u.rec.(targetRanId := ranId));
    }

    /** The moved context, and the UE context under its old key, follow the UE to the target. */
    method HandoverNotify(assoc: Assoc, a: AmfId, ranId: RanId, hasLocation: bool)
      requires Valid()
      modifies this`ngap, this`ranId2Ue, this`nas, this`ue, this`ueCtxKey, ngap.Keys, nas.Keys, ue.Keys
      ensures Valid() && View() == OnHandoverNotify(old(View()), assoc, a, ranId, hasLocation)
    {
      if assoc !in gnbContexts || a !in amfId2Ue || !hasLocation || a !in amfId2Nas { return; }
      var u := amfId2Ue[a];
      if (u.rec.ranId, a) !in ueCtxKey { return; }
      var c, r, gnbId := ueCtxKey[(u.rec.ranId, a)], amfId2Nas[a], gnbContexts[assoc].rec.id;
      Write(u, u.rec.(cause := SuccessfulHandover, releaseGnb := u.rec.assoc, ranId := ranId,
                      targetRanId := 0, state := Connected, assoc := assoc));
      SetByRan((ranId, gnbId), u);
      WriteNas(r, r.rec.(ranId := ranId));
      WriteUe(c, c.rec.(ranId := ranId, gnbId := gnbId));
      SetByUeKey((ranId, a), c);
    }

    /** The entry of a handover source goes, and with it the mark that it was awaited. */
    method ReleaseSource(u: NgapContext, key: RanKey)
      requires Valid() && u in ngap
      modifies this`ngap, this`ranId2Ue, u
      ensures Valid()
      ensures View() == old(View()).(byRan := Without(old(ranId2Ue), key),
                                     ngap := old(ngap)[u := NgapOf(old(View()), u).(cause := NoCause)])
    {
      EraseByRan(key);
      Write(u, u.rec.(cause := NoCause));
    }

    method UeContextReleaseComplete(assoc: Assoc, a: AmfId, ranId: RanId)
      requires Valid()
      modifies this`ngap, this`ranId2Ue, this`amfId2Ue, this`nas, ngap.Keys, nas.Keys
      ensures Valid() && View() == OnReleaseComplete(old(View()), assoc, a, ranId)
    {
      if (ranId, a) !in ueCtxKey || a !in amfId2Ue || assoc !in gnbContexts { return; }
      var u, key := amfId2Ue[a], (ranId, gnbContexts[assoc].rec.id);
      if u.rec.cause == SuccessfulHandover && assoc == u.rec.releaseGnb {
        ReleaseSource(u, key);
        return;
      }
      if a !in amfId2Nas { return; }
      var supi := amfId2Nas[a].rec.supi;
      if supi in supi2AmfId && supi2AmfId[supi] == a {
        SetIdle(a);
      }
      ReleaseSteps(old(View()), View(), assoc, a, ranId);
      EraseByAmf(a);
      EraseByRan(key);
    }

    method SetIdle(a: AmfId)
      requires Valid() && a in amfId2Nas
      modifies this`nas, nas.Keys
      ensures Valid()
      ensures var r := amfId2Nas[a]; View() == old(View()).(nas := old(nas)[r := NasOf(old(View()), r).(cm := CmIdle)])
    {
      WriteNas(amfId2Nas[a], amfId2Nas[a].rec.(cm := CmIdle));
    }

    // ----------------------------------------------------- teardown

    /** remove_ue_context_with_amf_ue_ngap_id */
    method RemoveUeByAmf(id: Option<AmfId>)
      requires Valid()
      modifies this`ranId2Ue, this`amfId2Ue, this`amfId2Nas, this`supi2Nas
      ensures Valid() && View() == RemoveByAmf(old(View()), id)
    {
      if id.None? { return; }
      var a := id.value;
      if a in amfId2Nas {
        var ranId := amfId2Nas[a].rec.ranId;
        EraseNas(a);
        if (ranId, a) !in ueCtxKey { return; }
        EraseByRan((ranId, ueCtxKey[(ranId, a)].rec.gnbId));
      }
      EraseByAmf(a);
    }

    /** remove_ue_context_with_ran_ue_ngap_id */
    method RemoveUeByRan(ranId: RanId, gnbId: GnbId)
      requires Valid()
      modifies this`ranId2Ue, this`amfId2Ue, this`amfId2Nas, this`supi2Nas
      ensures Valid() && View() == RemoveByRan(old(View()), ranId, gnbId)
    {
      if (ranId, gnbId) !in ranId2Ue { return; }
      var id := ranId2Ue[(ranId, gnbId)].rec.amfId;
      if id.Some? {
        EraseNas(id.value);
        EraseByAmf(id.value);
        RemoveByRanSteps(old(View()), ranId, gnbId);
      }
      EraseByRan((ranId, gnbId));
    }

    /** get_ue_ngap_contexts: the contexts of the RAN index that are on the association. */
    method UeContextsOn(assoc: Assoc) returns (found: seq<NgapContext>)
      requires Valid()
      ensures Lists(View(), assoc, found)
    {
      found := [];
      var keys := ranId2Ue.Keys;
      while keys != {}
        invariant keys <= ranId2Ue.Keys
        invariant forall u | u in found ::
                    NgapOf(View(), u).assoc == assoc && exists k :: k in ranId2Ue && ranId2Ue[k] == u
        invariant forall k | k in ranId2Ue && k !in keys && NgapOf(View(), ranId2Ue[k]).assoc == assoc ::
                    ranId2Ue[k] in found
        decreases |keys|
      {
        var k :| k in keys;
        keys := keys - {k};
        if ranId2Ue[k].rec.assoc == assoc {
          found := found + [ranId2Ue[k]];
        }
      }
    }

    /** The loop of NG Setup, NG Reset and NG Shutdown: both removals for every listed context. */
    method RemoveAll(listed: seq<NgapContext>, gnbId: GnbId)
      requires Valid() && forall u | u in listed :: u in ngap
      modifies this`ranId2Ue, this`amfId2Ue, this`amfId2Nas, this`supi2Nas
      ensures Valid() && View() == RemoveAllListed(old(View()), listed, gnbId)
    {
      ghost var goal := RemoveAllListed(View(), listed, gnbId);
      var i := 0;
      while i < |listed|
        invariant 0 <= i <= |listed| && Valid()
        invariant RemoveAllListed(View(), listed[i..], gnbId) == goal
      {
        RemoveOne(listed[i], gnbId);
        assert listed[i..][0] == listed[i] && listed[i..][1..] == listed[i + 1..];
        i := i + 1;
      }
    }

    method RemoveOne(u: NgapContext, gnbId: GnbId)
      requires Valid() && u in ngap
      modifies this`ranId2Ue, this`amfId2Ue, this`amfId2Nas, this`supi2Nas
      ensures Valid() && View() == RemoveListed(old(View()), u, gnbId)
    {
      RemoveUeByAmf(u.rec.amfId);
      RemoveUeByRan(u.rec.ranId, gnbId);
    }

    /** set_gnb_id_2_gnb_context */
    method SetAssocOfGnb(gnbId: GnbId, assoc: Assoc)
      requires Valid()
      modifies this`assocOfGnb
      ensures Valid() && View() == old(View()).(assocOf := old(assocOfGnb)[gnbId := assoc])
    {
      assocOfGnb := assocOfGnb[gnbId := assoc];
    }

    /** The gNB id is stored, and the gNB can be found by it. */
    method StoreGnbId(assoc: Assoc, gnbId: GnbId)
      requires Valid() && assoc in gnbContexts
      modifies this`gnbs, this`assocOfGnb, gnbContexts.Values
      ensures Valid() && View() == SettingUp(old(View()), assoc, gnbId)
    {
      WriteGnb(assoc, gnbContexts[assoc].rec.(id := gnbId));
      SetAssocOfGnb(gnbId, assoc);
    }

    /** The UEs of the association are given up, or retained. */
    method GiveUp(assoc: Assoc, gnbId: GnbId, release: bool) returns (listed: seq<NgapContext>)
      requires Valid()
      modifies this`ranId2Ue, this`amfId2Ue, this`amfId2Nas, this`supi2Nas
      ensures Valid() && (release ==> Lists(old(View()), assoc, listed))
      ensures View() == if release then RemoveAllListed(old(View()), listed, gnbId) else old(View())
    {
      if !release { return []; }
      listed := UeContextsOn(assoc);
      RemoveAll(listed, gnbId);
    }

    /** The UEs of a gNB whose id is stored are given up or retained, and the response is sent. */
    method FinishSetup(assoc: Assoc, gnbId: GnbId, release: bool, encodes: bool) returns (listed: seq<NgapContext>)
      requires Valid() && assoc in gnbContexts && gnbContexts[assoc].rec.id == gnbId
      modifies this`ranId2Ue, this`amfId2Ue, this`amfId2Nas, this`supi2Nas, this`gnbs, gnbContexts.Values
      ensures Valid() && (release ==> Lists(old(View()), assoc, listed))
      ensures var s := old(View());
              View() == SetupAnswered(if release then RemoveAllListed(s, listed, gnbId) else s, assoc, gnbId, encodes)
    {
      listed := GiveUp(assoc, gnbId, release);
      if encodes { WriteGnb(assoc, gnbContexts[assoc].rec.(state := Ready)); }
    }

    /** A setup that is not refused */
    method AcceptSetup(assoc: Assoc, gnbId: GnbId, release: bool, encodes: bool) returns (listed: seq<NgapContext>)
      requires Valid() && assoc in gnbContexts
      modifies this`ranId2Ue, this`amfId2Ue, this`amfId2Nas, this`supi2Nas
      modifies this`gnbs, this`assocOfGnb, gnbContexts.Values
      ensures Valid() && (release ==> Lists(old(View()), assoc, listed))
      ensures var s := SettingUp(old(View()), assoc, gnbId);
              View() == SetupAnswered(if release then RemoveAllListed(s, listed, gnbId) else s, assoc, gnbId, encodes)
    {
      StoreGnbId(assoc, gnbId);
      listed := FinishSetup(assoc, gnbId, release, encodes);
    }

    /** NG Setup Request; what its content comes to is told by `setup`. */
    method NgSetup(assoc: Assoc, gnbId: GnbId, setup: Setup) returns (listed: seq<NgapContext>)
      requires Valid()
      modifies this`ranId2Ue, this`amfId2Ue, this`amfId2Nas, this`supi2Nas
      modifies this`gnbs, this`assocOfGnb, gnbContexts.Values
      ensures Valid() && (assoc in old(gnbContexts) && setup.Released? ==> Lists(old(View()), assoc, listed))
      ensures View() == OnNgSetup(old(View()), assoc, gnbId, setup, listed)
    {
      listed := [];
      if assoc !in gnbContexts || setup.Malformed? { return; }
      if setup.Refused? {
        WriteGnb(assoc, gnbContexts[assoc].rec.(id := gnbId));
        return;
      }
      listed := AcceptSetup(assoc, gnbId, setup.Released?, setup.encodes);
    }

    method NgReset(assoc: Assoc) returns (listed: seq<NgapContext>)
      requires Valid()
      modifies this`ranId2Ue, this`amfId2Ue, this`amfId2Nas, this`supi2Nas, this`gnbs, gnbContexts.Values
      ensures Valid() && Lists(old(View()), assoc, listed)
      ensures View() == OnNgReset(old(View()), assoc, listed)
    {
      listed := UeContextsOn(assoc);
      if assoc !in gnbContexts { return; }
      WriteGnb(assoc, gnbContexts[assoc].rec.(state := Resetting));
      RemoveAll(listed, gnbContexts[assoc].rec.id);
    }

    method NgShutdown(assoc: Assoc) returns (listed: seq<NgapContext>)
      requires Valid()
      modifies this`ranId2Ue, this`amfId2Ue, this`amfId2Nas, this`supi2Nas, this`gnbs, this`gnbContexts
      ensures Valid() && Lists(old(View()), assoc, listed)
      ensures View() == OnNgShutdown(old(View()), assoc, listed)
    {
      listed := UeContextsOn(assoc);
      if assoc !in gnbContexts { return; }
      RemoveAll(listed, gnbContexts[assoc].rec.id);
      RemoveGnb(assoc);
    }

    method RemoveGnb(assoc: Assoc)
      requires Valid()
      modifies this`gnbContexts, this`gnbs
      ensures Valid() && View() == old(View()).(gnbs := Without(old(gnbs), assoc))
    {
      gnbContexts := Without(gnbContexts, assoc);
      gnbs := Without(gnbs, assoc);
    }

    // ----------------------------------------------------- NAS records

    method NewNasRecord(ranId: RanId, a: AmfId, supi: Supi, cm: CmState) returns (r: NasRecord)
      requires Valid()
      modifies this`nas
      ensures Valid() && fresh(r) && r !in old(nas)
      ensures View() == old(View()).(nas := old(nas)[r := Nas(ranId, a, supi, cm)])
    {
      r := new NasRecord(Nas(ranId, a, supi, cm));
      nas := nas[r := r.rec];
    }

    method SetAmf2Nas(a: AmfId, r: NasRecord)
      requires Valid() && r in nas
      modifies this`amfId2Nas
      ensures Valid() && View() == old(View()).(nasByAmf := old(amfId2Nas)[a := r])
    {
      amfId2Nas := amfId2Nas[a := r];
    }

    method SetSupi(supi: Supi, a: AmfId, r: NasRecord)
      requires Valid() && r in nas
      modifies this`supi2Nas, this`supi2AmfId
      ensures Valid()
      ensures View() == old(View()).(amfBySupi := old(supi2AmfId)[supi := a], nasBySupi := old(supi2Nas)[supi := r])
    {
      supi2AmfId := supi2AmfId[supi := a];
      supi2Nas := supi2Nas[supi := r];
    }

    method AttachNas(ranId: RanId, a: AmfId, supi: Supi) returns (r: NasRecord)
      requires Valid()
      modifies this`amfId2Nas, this`supi2Nas, this`supi2AmfId, this`nas
      ensures Valid() && fresh(r) && r !in old(nas)
      ensures View() == OnNasAttach(old(View()), ranId, a, supi, r)
    {
      r := NewNasRecord(ranId, a, supi, CmConnected);
      SetAmf2Nas(a, r);
      SetSupi(supi, a, r);
    }

    /** The NAS record that a GUTI leads to takes the new ids. */
    method RebindNas(ranId: RanId, a: AmfId, r: NasRecord)
      requires Valid() && r in nas
      modifies this`amfId2Nas, this`supi2Nas, this`supi2AmfId, this`nas, r
      ensures Valid() && View() == OnGutiRebind(old(View()), ranId, a, r)
    {
      WriteNas(r, r.rec.(ranId := ranId, amfId := a));
      SetAmf2Nas(a, r);
      SetSupi(r.rec.supi, a, r);
    }

    method SetSupi2Nas(supi: Supi, r: NasRecord)
      requires Valid() && r in nas
      modifies this`supi2Nas
      ensures Valid() && View() == old(View()).(nasBySupi := old(supi2Nas)[supi := r])
    {
      supi2Nas := supi2Nas[supi := r];
    }

    /** The first part of restore_ue_context_from_snapshot: the NAS record is found or made, and takes the ids. */
    method RestoreRecord(i: Ids) returns (r: NasRecord)
      requires Valid()
      modifies this`supi2Nas, this`amfId2Nas, this`nas, nas.Keys
      ensures Valid() && r in nas && r == RestoredRecord(old(View()), i, r)
      ensures if i.supi in old(supi2Nas) then r in old(nas) else r !in old(nas) && fresh(r)
      ensures r.rec.(cm := CmConnected) == Nas(i.ranId, i.amfId, i.supi, CmConnected)
      ensures View() == WithRecord(old(View()), i, r)
    {
      if i.supi in supi2Nas {
        r := supi2Nas[i.supi];
        WriteNas(r, Nas(i.ranId, i.amfId, i.supi, r.rec.cm));
        assert supi2Nas[i.supi := r] == supi2Nas;
      } else {
        r := NewNasRecord(i.ranId, i.amfId, i.supi, CmIdle);
        SetSupi2Nas(i.supi, r);
        if i.amfId != 0 { SetAmf2Nas(i.amfId, r); }
      }
    }

    method StoreRestored(i: Ids) returns (u: NgapContext)
      requires Valid()
      modifies this`ngap, this`amfId2Ue, this`ranId2Ue
      ensures Valid() && u !in old(ngap) && fresh(u)
      ensures View() == old(View()).(ngap := old(ngap)[u := RestoredNgap(i)], byAmf := old(amfId2Ue)[i.amfId := u],
                                     byRan := old(ranId2Ue)[RestoreKey(i) := u])
    {
      u := new NgapContext(RestoredNgap(i));
      ngap := ngap[u := u.rec];
      SetByAmf(i.amfId, u);
      SetByRan(RestoreKey(i), u);
    }

    /** The UE context under the ids, if there is one, takes them; a new one would be entered nowhere. */
    method RestoreIds(i: Ids)
      requires Valid()
      modifies this`ue, ue.Keys
      ensures Valid() && View() == old(View()).(ue := UesRestored(old(View()), i))
    {
      if (i.ranId, i.amfId) in ueCtxKey {
        var c := ueCtxKey[(i.ranId, i.amfId)];
        WriteUe(c, c.rec.(ranId := i.ranId, amfId := i.amfId));
      }
    }

    method RestoreNgapAndUe(i: Ids) returns (u: NgapContext)
      requires Valid()
      modifies this`ngap, this`amfId2Ue, this`ranId2Ue, this`ue, ue.Keys
      ensures Valid() && u !in old(ngap) && fresh(u)
      ensures View() == old(View()).(ngap := old(ngap)[u := RestoredNgap(i)], byAmf := old(amfId2Ue)[i.amfId := u],
                                     byRan := old(ranId2Ue)[RestoreKey(i) := u], ue := UesRestored(old(View()), i))
    {
      u := StoreRestored(i);
      RestoreIds(i);
    }

    /** The last part: the record is connected, and the SUPI leads to it and its AMF id. */
    method ConnectRestored(i: Ids, r: NasRecord)
      requires Valid() && r in nas
      modifies this`nas, this`supi2Nas, this`supi2AmfId, r
      ensures Valid()
      ensures View() == old(View()).(nas := old(nas)[r := NasOf(old(View()), r).(cm := CmConnected)],
                                     amfBySupi := old(supi2AmfId)[i.supi := i.amfId],
                                     nasBySupi := old(supi2Nas)[i.supi := r])
    {
      WriteNas(r, r.rec.(cm := CmConnected));
      SetSupi(i.supi, i.amfId, r);
    }

    /** The whole of it; whether the keys decode is told by Migration.TargetContext.RestoreSecurity. */
    method RestoreUe(i: Ids, keysDecode: bool) returns (r: NasRecord, u: NgapContext?)
      requires Valid()
      modifies this`supi2Nas, this`amfId2Nas, this`nas, this`ngap, this`amfId2Ue, this`ranId2Ue, this`supi2AmfId
      modifies this`ue, nas.Keys, ue.Keys
      ensures Valid() && (u == null <==> !keysDecode)
      ensures i.supi !in old(supi2Nas) ==> r !in old(nas)
      ensures u == null ==> View() == WithRecord(old(View()), i, r)
      ensures u != null ==> u !in old(ngap) && View() == OnRestore(old(View()), i, r, u)
    {
      r := RestoreRecord(i);
      if !keysDecode { return r, null; }
      ghost var s1 := View();
      u := RestoreNgapAndUe(i);
      RestoreSteps(old(View()), s1, i, r, u);
      ConnectRestored(i, r);
    }

    method Deregister(a: AmfId)
      requires Valid()
      modifies this`amfId2Nas, this`supi2Nas
      ensures Valid() && View() == OnDeregister(old(View()), a)
    {
      EraseNas(a);
    }
  }

  lemma RestoreSteps(s: State, s1: State, i: Ids, r: NasRecord, u: NgapContext)
    requires s1 == WithRecord(s, i, r) && r == RestoredRecord(s, i, r)
    ensures s1.(ngap := s1.ngap[u := RestoredNgap(i)], byAmf := s1.byAmf[i.amfId := u],
                byRan := s1.byRan[RestoreKey(i) := u], ue := UesRestored(s1, i),
                nas := s1.nas[r := Nas(i.ranId, i.amfId, i.supi, CmConnected)],
                amfBySupi := s1.amfBySupi[i.supi := i.amfId], nasBySupi := s1.nasBySupi[i.supi := r])
         == OnRestore(s, i, r, u)
  {
    var n := Nas(i.ranId, i.amfId, i.supi, CmConnected);
    assert s1.nas[r := n] == s.nas[r := n];
    assert s1.nasBySupi[i.supi := r] == s.nasBySupi[i.supi := r];
  }

  lemma InitialUeSteps(s: State, s1: State, assoc: Assoc, ranId: RanId, u: NgapContext)
    requires TablesClosed(s) && assoc in s.gnbs && s.gnbs[assoc].state != Unready
    requires var key := (ranId, s.gnbs[assoc].id);
             if key in s.byRan then u == s.byRan[key] && s1 == s else
               && s1 == s.(byRan := s.byRan[key := u],
                           ngap := s.ngap[u := Ngap(0, None, 0, NotConnected, 0, 0, NoCause, 0)])
    ensures s1.(ngap := s1.ngap[u := NgapOf(s1, u).(ranId := ranId, assoc := assoc)]) == OnInitialUe(s, assoc, ranId, u)
  {
    if (ranId, s.gnbs[assoc].id) !in s.byRan {
      assert s1.ngap[u := NgapOf(s1, u).(ranId := ranId, assoc := assoc)]
          == s.ngap[u := Ngap(ranId, None, assoc, NotConnected, 0, 0, NoCause, 0)];
    }
  }

  /** The generator has moved on and c is the UE context under the key, an empty one if it is new. */
  ghost predicate Opened(s: State, s1: State, key: UeKey, c: UeContext) {
    var n := s.(nextAmfId := s.nextAmfId + 1);
    if key in s.byUeKey then c == s.byUeKey[key] && s1 == n
    else s1 == n.(byUeKey := s.byUeKey[key := c], ue := s.ue[c := Ue(0, 0, 0)])
  }

  lemma OpenedAndWritten(s: State, s1: State, ranId: RanId, gnbId: GnbId, c: UeContext)
    requires Opened(s, s1, (ranId, NextAmfId(s)), c)
    ensures s1.(ue := s1.ue[c := Ue(ranId, NextAmfId(s), gnbId)]) == EstablishUe(s, ranId, gnbId, c)
  {
    if (ranId, NextAmfId(s)) in s.byUeKey {
      assert s.byUeKey[(ranId, NextAmfId(s)) := c] == s.byUeKey;
    } else {
      assert s1.ue[c := Ue(ranId, NextAmfId(s), gnbId)] == s.ue[c := Ue(ranId, NextAmfId(s), gnbId)];
    }
  }

  lemma EstablishSteps(s: State, s1: State, s2: State, ranId: RanId, gnbId: GnbId, c: UeContext)
    requires Opened(s, s1, (ranId, NextAmfId(s)), c)
    requires if (ranId, gnbId) !in s.byRan then s2 == s1 else
               var u := s.byRan[(ranId, gnbId)];
               s2 == s1.(ngap := s.ngap[u := NgapOf(s1, u).(amfId := Some(NextAmfId(s)))],
                         byAmf := s.byAmf[NextAmfId(s) := u])
    ensures s2.(ue := s2.ue[c := Ue(ranId, NextAmfId(s), gnbId)]) == OnEstablish(s, ranId, gnbId, c)
  {
    OpenedAndWritten(s, s1, ranId, gnbId, c);
    assert s2.ue == s1.ue && s1.ngap == s.ngap && s1.byAmf == s.byAmf;
  }

  lemma ReleaseSteps(s: State, s1: State, assoc: Assoc, a: AmfId, ranId: RanId)
    requires match ReleaseBranchOf(s, assoc, a, ranId)
             case ToIdle => var r := s.nasByAmf[a]; s1 == s.(nas := s.nas[r := NasOf(s, r).(cm := CmIdle)])
             case OldContext => s1 == s
             case _ => false
    ensures s1.(byAmf := Without(s1.byAmf, a), byRan := Without(s1.byRan, (ranId, s.gnbs[assoc].id)))
         == OnReleaseComplete(s, assoc, a, ranId)
  {
    assert s1.byAmf == s.byAmf && s1.byRan == s.byRan;
  }

  /** It makes no difference that the RAN entry goes last. */
  lemma RemoveByRanSteps(s: State, ranId: RanId, gnbId: GnbId)
    requires (ranId, gnbId) in s.byRan && NgapOf(s, s.byRan[(ranId, gnbId)]).amfId.Some?
    ensures var a := NgapOf(s, s.byRan[(ranId, gnbId)]).amfId.value;
            RemoveByRan(s, ranId, gnbId) ==
            WithoutNas(s, a).(byAmf := Without(s.byAmf, a), byRan := Without(s.byRan, (ranId, gnbId)))
  {
    var a := NgapOf(s, s.byRan[(ranId, gnbId)]).amfId.value;
    var s' := s.(byRan := Without(s.byRan, (ranId, gnbId)));
    if a in s.nasByAmf {
      assert NasOf(s', s'.nasByAmf[a]) == NasOf(s, s.nasByAmf[a]);
      assert WithoutNas(s', a).nasBySupi == WithoutNas(s, a).nasBySupi;
    }
  }

  lemma DlNasSteps(s: State, s1: State, ranId: RanId, a: AmfId, u: NgapContext)
    requires ViaUeKey(s, (ranId, a)) == Some(u) && NgapOf(s, u).assoc in s.gnbs
    requires s1 == s.(ngap := s.ngap[u := NgapOf(s, u).(amfId := Some(a))], byAmf := s.byAmf[a := u])
    ensures s1.(ngap := s1.ngap[u := NgapOf(s1, u).(state := Connected)]) == OnDlNas(s, ranId, a)
  {
    WrittenTwice(s, s.(ngap := s1.ngap), u, NgapOf(s1, u), NgapOf(s1, u).(state := Connected));
  }

  lemma WrittenTwice(s: State, s1: State, u: NgapContext, v: Ngap, w: Ngap)
    requires s1 == s.(ngap := s.ngap[u := v])
    ensures s1.(ngap := s1.ngap[u := w]) == s.(ngap := s.ngap[u := w])
  {
    assert s1.ngap[u := w] == s.ngap[u := w];
  }
}
