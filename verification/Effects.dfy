/** What each procedure writes, and that it writes nothing else, said of the lookups before and after it. */
module Effects {
  import opened Contexts
  import opened Registry
  import opened Agreement
  import opened Teardown

  /** The maps differ at most at this key. */
  predicate OnlyAt<K(==), V(==)>(m: map<K, V>, m': map<K, V>, key: K) {
    m' - {key} == m - {key}
  }

  // ------------------------------------------------------- gNBs

  /** A gNB context is made for a new association, and an old one stays. */
  lemma NewAssociationWrites(s: State, assoc: Assoc, g: Gnb)
    ensures var t := OnNewAssociation(s, assoc, g);
            && t == s.(gnbs := t.gnbs) && OnlyAt(s.gnbs, t.gnbs, assoc)
            && assoc in t.gnbs && t.gnbs[assoc] == if assoc in s.gnbs then s.gnbs[assoc] else g
  {
  }

  /** NG Setup has an effect on a known association only, and not without a gNB id; refused, it has set the gNB id and
      nothing else. */
  lemma RefusedSetupWrites(s: State, assoc: Assoc, gnbId: GnbId, order: seq<NgapContext>, setup: Setup)
    ensures assoc !in s.gnbs ==> OnNgSetup(s, assoc, gnbId, setup, order) == s
    ensures OnNgSetup(s, assoc, gnbId, Malformed, order) == s
    ensures var t := OnNgSetup(s, assoc, gnbId, Refused, order);
            assoc in s.gnbs ==>
              && t == s.(gnbs := t.gnbs) && OnlyAt(s.gnbs, t.gnbs, assoc)
              && assoc in t.gnbs && t.gnbs[assoc] == Gnb(gnbId, s.gnbs[assoc].state)
  {
  }

  /** What is left of the gNB of an association after an accepted NG Setup: it can be found by its id, and is ready
      exactly if the response encoded or it was ready before. */
  ghost predicate SetUp(s: State, t: State, assoc: Assoc, gnbId: GnbId, encodes: bool)
    requires assoc in s.gnbs
  {
    && OnlyAt(s.gnbs, t.gnbs, assoc) && OnlyAt(s.assocOf, t.assocOf, gnbId)
    && assoc in t.gnbs && t.gnbs[assoc] == Gnb(gnbId, if encodes then Ready else s.gnbs[assoc].state)
    && gnbId in t.assocOf && t.assocOf[gnbId] == assoc
  }

  lemma RetainedSetupWrites(s: State, assoc: Assoc, gnbId: GnbId, encodes: bool, order: seq<NgapContext>)
    requires assoc in s.gnbs
    ensures var t := OnNgSetup(s, assoc, gnbId, Retained(encodes), order);
            SetUp(s, t, assoc, gnbId, encodes) && t == s.(gnbs := t.gnbs, assocOf := t.assocOf)
  {
  }

  lemma ReleasedSetupWrites(s: State, assoc: Assoc, gnbId: GnbId, encodes: bool, order: seq<NgapContext>)
    requires assoc in s.gnbs
    ensures SetUp(s, OnNgSetup(s, assoc, gnbId, Released(encodes), order), assoc, gnbId, encodes)
  {
    var s1 := SettingUp(s, assoc, gnbId);
    assert RemoveAllListed(s1, order, gnbId).gnbs == s1.gnbs && RemoveAllListed(s1, order, gnbId).assocOf == s1.assocOf;
  }

  /** After an accepted NG Setup whose response encoded the gNB's Initial UE Messages are heeded. */
  lemma SetupOpensGnb(s: State, assoc: Assoc, gnbId: GnbId, setup: Setup, order: seq<NgapContext>)
    requires assoc in s.gnbs && (setup.Released? || setup.Retained?)
    ensures var t := OnNgSetup(s, assoc, gnbId, setup, order);
            && SetUp(s, t, assoc, gnbId, setup.encodes)
            && (InitialUeActs(t, assoc) <==> setup.encodes || InitialUeActs(s, assoc))
  {
    if setup.Released? {
      ReleasedSetupWrites(s, assoc, gnbId, setup.encodes, order);
      assert setup == Released(setup.encodes);
    } else {
      RetainedSetupWrites(s, assoc, gnbId, setup.encodes, order);
      assert setup == Retained(setup.encodes);
    }
  }

  /** NG Reset leaves the gNB resetting, and NG Shutdown removes it; neither touches another gNB or the table of ids. */
  lemma ResetWritesGnb(s: State, assoc: Assoc, order: seq<NgapContext>)
    ensures assoc !in s.gnbs ==> OnNgReset(s, assoc, order) == s && OnNgShutdown(s, assoc, order) == s
    ensures var t := OnNgReset(s, assoc, order);
            assoc in s.gnbs ==>
              && OnlyAt(s.gnbs, t.gnbs, assoc) && t.assocOf == s.assocOf
              && assoc in t.gnbs && t.gnbs[assoc] == Gnb(s.gnbs[assoc].id, Resetting)
    ensures var t := OnNgShutdown(s, assoc, order);
            OnlyAt(s.gnbs, t.gnbs, assoc) && assoc !in t.gnbs && t.assocOf == s.assocOf
  {
  }

  // ------------------------------------------------------- the two removals

  /** What the removal by AMF id does to the indices.  Without NAS record it takes the AMF id out; with one that record
      goes, and then the AMF id and the RAN entry under the record's RAN id go too, unless no UE context is found. */
  lemma RemovalByAmfWrites(s: State, a: AmfId)
    ensures RemoveByAmf(s, None) == s
    ensures var t := RemoveByAmf(s, Some(a)); var filed := a in s.nasByAmf;
            var ranId := if filed then NasOf(s, s.nasByAmf[a]).ranId else 0;
            var found := filed && (ranId, a) in s.byUeKey;
            && a !in t.nasByAmf && OnlyAt(s.nasByAmf, t.nasByAmf, a)
            && t.byAmf == (if filed && !found then s.byAmf else s.byAmf - {a})
            && t.byRan == if found then s.byRan - {(ranId, UeOf(s, s.byUeKey[(ranId, a)]).gnbId)} else s.byRan
  {
  }

  /** The removal by RAN id does nothing where there is no entry. */
  lemma RemovalByRanFindsNothing(s: State, ranId: RanId, gnbId: GnbId)
    requires (ranId, gnbId) !in s.byRan
    ensures RemoveByRan(s, ranId, gnbId) == s
  {
  }

  /** An entry goes; a context without AMF id loses nothing else. */
  lemma RemovalByRanWrites(s: State, k: RanKey)
    requires k in s.byRan && NgapOf(s, s.byRan[k]).amfId.None?
    ensures RemoveByRan(s, k.0, k.1) == s.(byRan := s.byRan - {k})
  {
  }

  /** With it the AMF id of its context goes, and the NAS record of that. */
  lemma RemovalByRanWritesId(s: State, k: RanKey, a: AmfId)
    requires k in s.byRan && NgapOf(s, s.byRan[k]).amfId == Some(a)
    ensures var t := RemoveByRan(s, k.0, k.1);
            t.byRan == s.byRan - {k} && t.byAmf == s.byAmf - {a} && t.nasByAmf == s.nasByAmf - {a}
  {
    var s' := s.(byRan := Without(s.byRan, k));
    assert RemoveByRan(s, k.0, k.1) == WithoutNas(s', a).(byAmf := Without(WithoutNas(s', a).byAmf, a));
    NasGone(s', a);
  }

  lemma NasGone(s: State, a: AmfId)
    ensures var t := WithoutNas(s, a);
            t.nasByAmf == s.nasByAmf - {a} && t.byAmf == s.byAmf && t.byRan == s.byRan
  {
    if a !in s.nasByAmf { assert s.nasByAmf - {a} == s.nasByAmf; }
  }

  // ------------------------------------------------------- UEs

  /** Initial UE Message has no effect for a gNB that is unknown or not set up. */
  lemma InitialUeDropped(s: State, assoc: Assoc, ranId: RanId, u0: NgapContext)
    requires assoc !in s.gnbs || s.gnbs[assoc].state == Unready
    ensures OnInitialUe(s, assoc, ranId, u0) == s
  {
  }

  /** Else a context found under the key takes this RAN id and association. */
  lemma InitialUeFinds(s: State, assoc: Assoc, ranId: RanId, u0: NgapContext)
    requires assoc in s.gnbs && s.gnbs[assoc].state != Unready && (ranId, s.gnbs[assoc].id) in s.byRan
    ensures var t := OnInitialUe(s, assoc, ranId, u0); var u := s.byRan[(ranId, s.gnbs[assoc].id)];
            && t == s.(ngap := t.ngap) && OnlyAt(s.ngap, t.ngap, u)
            && NgapOf(t, u) == NgapOf(s, u).(ranId := ranId, assoc := assoc)
  {
  }

  /** And where there is none, a new one is found under it, with neither an AMF id nor anything of a handover. */
  lemma InitialUeMakes(s: State, assoc: Assoc, ranId: RanId, u0: NgapContext)
    requires assoc in s.gnbs && s.gnbs[assoc].state != Unready && (ranId, s.gnbs[assoc].id) !in s.byRan
    ensures var t := OnInitialUe(s, assoc, ranId, u0); var key := (ranId, s.gnbs[assoc].id);
            && t == s.(byRan := t.byRan, ngap := t.ngap)
            && OnlyAt(s.byRan, t.byRan, key) && key in t.byRan && t.byRan[key] == u0
            && OnlyAt(s.ngap, t.ngap, u0) && NgapOf(t, u0) == Ngap(ranId, None, assoc, NotConnected, 0, 0, NoCause, 0)
  {
  }

  lemma EstablishFrame(s: State, ranId: RanId, gnbId: GnbId, c0: UeContext)
    ensures var t := OnEstablish(s, ranId, gnbId, c0);
            t == s.(nextAmfId := s.nextAmfId + 1, byUeKey := t.byUeKey, ue := t.ue, byAmf := t.byAmf, ngap := t.ngap)
  {
    EstablishUeFrame(s, ranId, gnbId, c0);
    var t1, t := EstablishUe(s, ranId, gnbId, c0), OnEstablish(s, ranId, gnbId, c0);
    assert t == t1.(byAmf := t.byAmf, ngap := t.ngap);
  }

  lemma EstablishUeFrame(s: State, ranId: RanId, gnbId: GnbId, c0: UeContext)
    ensures var t := EstablishUe(s, ranId, gnbId, c0);
            t == s.(nextAmfId := s.nextAmfId + 1, byUeKey := t.byUeKey, ue := t.ue)
  {
  }

  /** NAS signalling establishment, UE context part: the id drawn is the generator's in 32 bits, and the UE context
      under the new key, found or new, has these three ids. */
  lemma EstablishUeWrites(s: State, ranId: RanId, gnbId: GnbId, c0: UeContext)
    ensures var t := OnEstablish(s, ranId, gnbId, c0); var key := (ranId, s.nextAmfId % 0x1_0000_0000);
            && OnlyAt(s.byUeKey, t.byUeKey, key) && key in t.byUeKey
            && t.byUeKey[key] == (if key in s.byUeKey then s.byUeKey[key] else c0)
            && OnlyAt(s.ue, t.ue, t.byUeKey[key]) && UeOf(t, t.byUeKey[key]) == Ue(ranId, key.1, gnbId)
  {
    var t1 := EstablishUe(s, ranId, gnbId, c0);
    assert OnEstablish(s, ranId, gnbId, c0).byUeKey == t1.byUeKey && OnEstablish(s, ranId, gnbId, c0).ue == t1.ue;
  }

  /** The NGAP context part: a context found under the RAN key receives the id and is found by it. */
  lemma EstablishNgapWrites(s: State, ranId: RanId, gnbId: GnbId, c0: UeContext)
    ensures var t := OnEstablish(s, ranId, gnbId, c0); var a := s.nextAmfId % 0x1_0000_0000;
            if (ranId, gnbId) !in s.byRan then t.byAmf == s.byAmf && t.ngap == s.ngap
            else
              var u := s.byRan[(ranId, gnbId)];
              && OnlyAt(s.byAmf, t.byAmf, a) && a in t.byAmf && t.byAmf[a] == u
              && OnlyAt(s.ngap, t.ngap, u) && NgapOf(t, u) == NgapOf(s, u).(amfId := Some(a))
  {
  }

  /** Downlink NAS Transport reaches the context under the RAN id and the gNB id that the UE context names, if its
      association has a gNB: it is connected then, and found by the AMF id of the message, which it carries. */
  lemma DlNasWrites(s: State, ranId: RanId, a: AmfId)
    ensures var t := OnDlNas(s, ranId, a); var ok := (ranId, a) in s.byUeKey;
            var key := (ranId, if ok then UeOf(s, s.byUeKey[(ranId, a)]).gnbId else 0);
            if !ok || key !in s.byRan || NgapOf(s, s.byRan[key]).assoc !in s.gnbs then t == s
            else
              var u := s.byRan[key];
              && t == s.(byAmf := t.byAmf, ngap := t.ngap)
              && OnlyAt(s.byAmf, t.byAmf, a) && a in t.byAmf && t.byAmf[a] == u
              && OnlyAt(s.ngap, t.ngap, u) && NgapOf(t, u) == NgapOf(s, u).(amfId := Some(a), state := Connected)
  {
  }

  /** Handover Required is heeded if its gNB has a context under the RAN id that carries the AMF id, and the type is
      right.  The context is in handover then, on this association; the association of the target is kept if the NAS
      record, the key and the target's gNB are there. */
  lemma RequiredWrites(s: State, assoc: Assoc, a: AmfId, ranId: RanId, typeOk: bool, keyOk: bool, target: GnbId)
    ensures var t := OnHandoverRequired(s, assoc, a, ranId, typeOk, keyOk, target); var known := assoc in s.gnbs;
            var key := (ranId, if known then s.gnbs[assoc].id else 0);
            if !known || key !in s.byRan || NgapOf(s, s.byRan[key]).amfId != Some(a) || !typeOk then t == s
            else
              var u := s.byRan[key];
              && t == s.(ngap := t.ngap) && OnlyAt(s.ngap, t.ngap, u)
              && var found := a in s.nasByAmf && keyOk && target in s.assocOf;
              NgapOf(t, u) == NgapOf(s, u).(assoc := assoc, state := InHandover,
                                           targetAssoc := if found then s.assocOf[target] else NgapOf(s, u).targetAssoc)
  {
  }

  /** Handover Request Acknowledge: the context of the AMF id learns the RAN id at the target. */
  lemma AckWrites(s: State, assoc: Assoc, a: AmfId, ranId: RanId)
    ensures var t := OnHandoverAck(s, assoc, a, ranId);
            if assoc !in s.gnbs || a !in s.byAmf then t == s
            else
              var u := s.byAmf[a];
              && t == s.(ngap := t.ngap) && OnlyAt(s.ngap, t.ngap, u)
              && NgapOf(t, u) == NgapOf(s, u).(targetRanId := ranId)
  {
  }

  /** Handover Notify has an effect if the location, gNB, NGAP context, NAS record and UE context are there. */
  predicate NotifyHeeded(s: State, assoc: Assoc, a: AmfId, hasLocation: bool) {
    && assoc in s.gnbs && a in s.byAmf && hasLocation && a in s.nasByAmf
    && (NgapOf(s, s.byAmf[a]).ranId, a) in s.byUeKey
  }

  /** It moves the NGAP context: to the RAN id and association of the message, found under the target's key too, with
      the association it was on as the one whose release is awaited. */
  lemma NotifyWritesNgap(s: State, assoc: Assoc, a: AmfId, ranId: RanId, hasLocation: bool)
    ensures var t := OnHandoverNotify(s, assoc, a, ranId, hasLocation);
            if !NotifyHeeded(s, assoc, a, hasLocation) then t == s
            else
              var u := s.byAmf[a]; var key := (ranId, s.gnbs[assoc].id);
              && t == s.(ngap := t.ngap, byRan := t.byRan, nas := t.nas, ue := t.ue, byUeKey := t.byUeKey)
              && OnlyAt(s.byRan, t.byRan, key) && key in t.byRan && t.byRan[key] == u && OnlyAt(s.ngap, t.ngap, u)
              && NgapOf(t, u) == Ngap(ranId, NgapOf(s, u).amfId, assoc, Connected, 0, NgapOf(s, u).targetAssoc,
                                      SuccessfulHandover, NgapOf(s, u).assoc)
  {
  }

  /** And the NAS record and the UE context with it, which is found under the new RAN id too. */
  lemma NotifyWritesOthers(s: State, assoc: Assoc, a: AmfId, ranId: RanId, hasLocation: bool)
    requires NotifyHeeded(s, assoc, a, hasLocation)
    ensures var t := OnHandoverNotify(s, assoc, a, ranId, hasLocation); var r := s.nasByAmf[a];
            var c := s.byUeKey[(NgapOf(s, s.byAmf[a]).ranId, a)];
            && OnlyAt(s.nas, t.nas, r) && NasOf(t, r) == NasOf(s, r).(ranId := ranId)
            && OnlyAt(s.ue, t.ue, c) && UeOf(t, c) == UeOf(s, c).(ranId := ranId, gnbId := s.gnbs[assoc].id)
            && OnlyAt(s.byUeKey, t.byUeKey, (ranId, a)) && (ranId, a) in t.byUeKey && t.byUeKey[(ranId, a)] == c
  {
  }

  /** Which way UE Context Release Complete goes. */
  lemma ReleaseBranchExactly(s: State, assoc: Assoc, a: AmfId, ranId: RanId)
    ensures var known := (ranId, a) in s.byUeKey && a in s.byAmf && assoc in s.gnbs;
            var awaited := known && NgapOf(s, s.byAmf[a]).cause == SuccessfulHandover
                           && NgapOf(s, s.byAmf[a]).releaseGnb == assoc;
            var supi := if a in s.nasByAmf then NasOf(s, s.nasByAmf[a]).supi else 0;
            var own := supi in s.amfBySupi && s.amfBySupi[supi] == a;
            && (ReleaseBranchOf(s, assoc, a, ranId) == HandoverRelease <==> awaited)
            && (ReleaseBranchOf(s, assoc, a, ranId) == ToIdle <==> known && !awaited && a in s.nasByAmf && own)
            && (ReleaseBranchOf(s, assoc, a, ranId) == OldContext <==> known && !awaited && a in s.nasByAmf && !own)
  {
  }

  /** On each way but one the RAN entry goes; with it the mark that it was awaited, or the AMF id, and the UE becomes
      idle where the SUPI is its own. */
  lemma ReleaseWrites(s: State, assoc: Assoc, a: AmfId, ranId: RanId)
    ensures var t := OnReleaseComplete(s, assoc, a, ranId);
            match ReleaseBranchOf(s, assoc, a, ranId)
            case Ignored => t == s
            case HandoverRelease =>
              var u := s.byAmf[a];
              && t == s.(byRan := t.byRan, ngap := t.ngap)
              && OnlyAt(s.byRan, t.byRan, (ranId, s.gnbs[assoc].id)) && (ranId, s.gnbs[assoc].id) !in t.byRan
              && OnlyAt(s.ngap, t.ngap, u) && NgapOf(t, u) == NgapOf(s, u).(cause := NoCause)
            case branch =>
              var r := s.nasByAmf[a];
              && t == s.(byRan := t.byRan, byAmf := t.byAmf, nas := t.nas)
              && OnlyAt(s.byRan, t.byRan, (ranId, s.gnbs[assoc].id)) && (ranId, s.gnbs[assoc].id) !in t.byRan
              && OnlyAt(s.byAmf, t.byAmf, a) && a !in t.byAmf && OnlyAt(s.nas, t.nas, r)
              && NasOf(t, r) == if branch == ToIdle then NasOf(s, r).(cm := CmIdle) else NasOf(s, r)
  {
  }

  // ------------------------------------------------------- NAS records

  /** The lookups by AMF id and SUPI lead to the record and the AMF id, and the record says the same; every other entry
      and record is as before. */
  ghost predicate Filed(s: State, t: State, r: NasRecord, n: Nas) {
    && t == s.(nasByAmf := t.nasByAmf, nasBySupi := t.nasBySupi, amfBySupi := t.amfBySupi, nas := t.nas)
    && OnlyAt(s.nas, t.nas, r) && r in t.nas && t.nas[r] == n
    && OnlyAt(s.nasByAmf, t.nasByAmf, n.amfId) && n.amfId in t.nasByAmf && t.nasByAmf[n.amfId] == r
    && OnlyAt(s.nasBySupi, t.nasBySupi, n.supi) && n.supi in t.nasBySupi && t.nasBySupi[n.supi] == r
    && OnlyAt(s.amfBySupi, t.amfBySupi, n.supi) && n.supi in t.amfBySupi && t.amfBySupi[n.supi] == n.amfId
  }

  /** Registration with a SUCI files a new record. */
  lemma AttachFiles(s: State, ranId: RanId, a: AmfId, supi: Supi, r: NasRecord)
    ensures Filed(s, OnNasAttach(s, ranId, a, supi, r), r, Nas(ranId, a, supi, CmConnected))
  {
  }

  /** A GUTI that leads to a record files it anew under the new ids, with SUPI and connection state as they were; its
      entry under an AMF id that it had before stays. */
  lemma RebindFiles(s: State, ranId: RanId, a: AmfId, r: NasRecord)
    requires r in s.nas
    ensures Filed(s, OnGutiRebind(s, ranId, a, r), r, Nas(ranId, a, s.nas[r].supi, s.nas[r].cm))
  {
  }

  /** A UE whose record is filed goes idle when it is released, unless it is the release of a handover source. */
  lemma FiledGoesIdle(s: State, t: State, r: NasRecord, n: Nas, assoc: Assoc)
    requires Filed(s, t, r, n) && (n.ranId, n.amfId) in s.byUeKey && n.amfId in s.byAmf && assoc in s.gnbs
    requires var m := NgapOf(s, s.byAmf[n.amfId]); !(m.cause == SuccessfulHandover && m.releaseGnb == assoc)
    ensures ReleaseBranchOf(t, assoc, n.amfId, n.ranId) == ToIdle
    ensures NasOf(OnReleaseComplete(t, assoc, n.amfId, n.ranId), r) == n.(cm := CmIdle)
  {
  }

  /** So does one that has come back with its GUTI. */
  lemma ReboundGoesIdle(s: State, ranId: RanId, a: AmfId, r: NasRecord, assoc: Assoc)
    requires r in s.nas && (ranId, a) in s.byUeKey && a in s.byAmf && assoc in s.gnbs
    requires var m := NgapOf(s, s.byAmf[a]); !(m.cause == SuccessfulHandover && m.releaseGnb == assoc)
    ensures var t := OnReleaseComplete(OnGutiRebind(s, ranId, a, r), assoc, a, ranId);
            NasOf(t, r) == Nas(ranId, a, s.nas[r].supi, CmIdle)
  {
    RebindFiles(s, ranId, a, r);
    FiledGoesIdle(s, OnGutiRebind(s, ranId, a, r), r, Nas(ranId, a, s.nas[r].supi, s.nas[r].cm), assoc);
  }

  /** De-registration takes the record of the AMF id out of the tables of records, but what the SUPI has for an AMF id
      stays. */
  lemma DeregisterWrites(s: State, a: AmfId)
    ensures var t := OnDeregister(s, a);
            && t == s.(nasByAmf := t.nasByAmf, nasBySupi := t.nasBySupi)
            && a !in t.nasByAmf && OnlyAt(s.nasByAmf, t.nasByAmf, a)
            && (a !in s.nasByAmf ==> t == s)
            && (a in s.nasByAmf ==>
                  var x := NasOf(s, s.nasByAmf[a]).supi; x !in t.nasBySupi && OnlyAt(s.nasBySupi, t.nasBySupi, x))
  {
  }
}
