/** The index tables of the target AMF after restore_ue_context_from_snapshot. */
module Restore {
  import opened Contexts
  import opened Registry
  import opened Agreement

  /** The lookups that hold after a restore: by AMF id the restored NGAP context, by SUPI the AMF id and the NAS record,
      each with the snapshot's ids.  By AMF id the NAS record is found exactly if it is a new one with an AMF id other
      than 0, or was found there before. */
  lemma RestoredLookups(s: State, i: Ids, r0: NasRecord, u0: NgapContext)
    requires TablesClosed(s) && r0 !in s.nas
    ensures var t := OnRestore(s, i, r0, u0); var r := RestoredRecord(s, i, r0);
            && i.amfId in t.byAmf && t.byAmf[i.amfId] == u0
            && NgapOf(t, u0) == Ngap(i.ranId, Some(i.amfId), i.assoc, NotConnected, i.targetRanId, i.targetAssoc,
                                     NoCause, 0)
            && (i.assoc % 0x1_0000_0000, i.ranId % 0x1_0000_0000) in t.byRan
            && t.byRan[(i.assoc % 0x1_0000_0000, i.ranId % 0x1_0000_0000)] == u0
            && i.supi in t.amfBySupi && t.amfBySupi[i.supi] == i.amfId
            && i.supi in t.nasBySupi && NasOf(t, t.nasBySupi[i.supi]) == Nas(i.ranId, i.amfId, i.supi, CmConnected)
            && (i.amfId in t.nasByAmf && t.nasByAmf[i.amfId] == r <==>
                if i.supi in s.nasBySupi then i.amfId in s.nasByAmf && s.nasByAmf[i.amfId] == r else i.amfId != 0)
  {
  }

  /** The RAN-id lookup on the UE's own gNB finds the restored context only where the three numbers coincide. */
  lemma RestoredByRan(s: State, i: Ids, r0: NasRecord, u0: NgapContext, gnbId: GnbId)
    requires TablesClosed(s) && u0 !in s.ngap && i.ranId < 0x1_0000_0000
    ensures var t := OnRestore(s, i, r0, u0);
            (i.ranId, gnbId) in t.byRan && t.byRan[(i.ranId, gnbId)] == u0 <==>
            i.ranId == i.assoc % 0x1_0000_0000 && gnbId == i.ranId
  {
  }

  predicate Same<K, V(==)>(m: map<K, V>, m': map<K, V>, k: K) {
    (k in m <==> k in m') && (k in m ==> m[k] == m'[k])
  }

  /** Every other entry is as before: other SUPIs, other AMF ids, all RAN keys but the one written, and every UE
      context but the one under the ids, which only takes the ids. */
  lemma RestoreFrame(s: State, i: Ids, r0: NasRecord, u0: NgapContext, k: RanKey, a: AmfId, x: Supi, c: UeContext)
    ensures var t := OnRestore(s, i, r0, u0);
            && (k != RestoreKey(i) ==> Same(s.byRan, t.byRan, k))
            && (a != i.amfId ==> Same(s.byAmf, t.byAmf, a) && Same(s.nasByAmf, t.nasByAmf, a))
            && (x != i.supi ==> Same(s.nasBySupi, t.nasBySupi, x) && Same(s.amfBySupi, t.amfBySupi, x))
    ensures var t := OnRestore(s, i, r0, u0); var key := (i.ranId, i.amfId);
            && t.byUeKey == s.byUeKey && t.gnbs == s.gnbs && t.nextAmfId == s.nextAmfId
            && UeOf(t, c) == if key in s.byUeKey && s.byUeKey[key] == c then Ue(i.ranId, i.amfId, UeOf(s, c).gnbId)
                             else UeOf(s, c)
  {
  }

  /** A failed restore writes the NAS record and the tables of NAS records, and nothing else. */
  lemma FailedRestoreFrame(s: State, i: Ids, r0: NasRecord, a: AmfId, x: Supi, r: NasRecord)
    ensures var t := WithRecord(s, i, r0);
            && t.byRan == s.byRan && t.byAmf == s.byAmf && t.byUeKey == s.byUeKey && t.amfBySupi == s.amfBySupi
            && t.ngap == s.ngap && t.ue == s.ue && t.gnbs == s.gnbs && t.nextAmfId == s.nextAmfId
            && (a != i.amfId || i.supi in s.nasBySupi ==> Same(s.nasByAmf, t.nasByAmf, a))
            && (x != i.supi ==> Same(s.nasBySupi, t.nasBySupi, x))
            && NasOf(t, r) == if r == RestoredRecord(s, i, r0) then Nas(i.ranId, i.amfId, i.supi, NasOf(s, r).cm)
                              else NasOf(s, r)
  {
  }

  // ------------------------------------------------------- when the tables agree on a restored UE

  /** The part of a restore that agreement depends on. */
  predicate Stored(s: State, t: State, i: Ids, u0: NgapContext) {
    && t.gnbs == s.gnbs && t.byUeKey == s.byUeKey && t.ue == UesRestored(s, i)
    && t.byRan == s.byRan[RestoreKey(i) := u0] && t.byAmf == s.byAmf[i.amfId := u0]
    && t.ngap == s.ngap[u0 := RestoredNgap(i)]
  }

  /** The key written is the one that lookups use, and the UE context found there names the gNB of the association. */
  predicate KeyFits(s: State, i: Ids) {
    && i.assoc in s.gnbs && RestoreKey(i) == (i.ranId, s.gnbs[i.assoc].id)
    && (i.ranId, i.amfId) in s.byUeKey && UeOf(s, s.byUeKey[(i.ranId, i.amfId)]).gnbId == s.gnbs[i.assoc].id
  }

  /** The key written is not that of a live UE with another AMF id. */
  predicate KeyFree(s: State, i: Ids) {
    Live(s, RestoreKey(i)) ==> NgapOf(s, s.byRan[RestoreKey(i)]).amfId == Some(i.amfId)
  }

  /** A context that the AMF id led to has no RAN entry but the one written. */
  ghost predicate OldEntryReplaced(s: State, i: Ids) {
    i.amfId in s.byAmf ==>
      HomeKey(s, s.byAmf[i.amfId]) == RestoreKey(i) && forall x :: !AwaitedAt(s, s.byAmf[i.amfId], x)
  }

  lemma RestoreStores(s: State, i: Ids, r0: NasRecord, u0: NgapContext)
    requires TablesClosed(s)
    ensures var t := OnRestore(s, i, r0, u0); Stored(s, t, i, u0) && TablesClosed(t)
  {
  }

  lemma RestoredIdAgrees(s: State, t: State, i: Ids, u0: NgapContext)
    requires TablesClosed(s) && u0 !in s.ngap && Stored(s, t, i, u0)
    ensures AmfAgrees(t, i.amfId) <==> KeyFits(s, i)
  {
    assert NgapOf(t, u0) == RestoredNgap(i);
    if AmfAgrees(t, i.amfId) { assert HomeKey(t, u0) == RestoreKey(i); }
  }

  /** The lookups of the restored AMF id agree exactly if the key fits. */
  lemma RestoredLookupsAgree(s: State, i: Ids, r0: NasRecord, u0: NgapContext)
    requires TablesClosed(s) && u0 !in s.ngap
    ensures AmfAgrees(OnRestore(s, i, r0, u0), i.amfId) <==> KeyFits(s, i)
  {
    RestoreStores(s, i, r0, u0);
    RestoredIdAgrees(s, OnRestore(s, i, r0, u0), i, u0);
  }

  /** The contexts that a restore concerns: the new one, and the one that the AMF id led to. */
  function Concerned(s: State, i: Ids, u0: NgapContext): set<NgapContext> {
    if i.amfId in s.byAmf then {u0, s.byAmf[i.amfId]} else {u0}
  }

  lemma RestoreConcerns(s: State, t: State, i: Ids, u0: NgapContext)
    requires Agreed(s) && u0 !in s.ngap && Stored(s, t, i, u0) && KeyFree(s, i)
    ensures Concerns(s, t, Concerned(s, i, u0), {})
  {
    var us := Concerned(s, i, u0);
    if Live(s, RestoreKey(i)) { assert RanAgrees(s, RestoreKey(i)); }
    forall k ensures OtherRanEntryKept(s, t, us, k) { }
    forall b ensures OtherAmfEntryKept(s, t, us, b) { }
  }

  /** No entry leads to the context that was replaced. */
  lemma OldContextGone(s: State, t: State, i: Ids, u0: NgapContext)
    requires Agreed(s) && u0 !in s.ngap && Stored(s, t, i, u0) && OldEntryReplaced(s, i) && i.amfId in s.byAmf
    ensures forall k | k in t.byRan :: t.byRan[k] != s.byAmf[i.amfId]
    ensures forall b | b in t.byAmf :: t.byAmf[b] != s.byAmf[i.amfId]
  {
    var v := s.byAmf[i.amfId];
    assert AmfAgrees(s, i.amfId);
    forall k | k in s.byRan && s.byRan[k] == v ensures k == RestoreKey(i) {
      assert RanAgrees(s, k) && !AwaitedAt(s, v, k);
    }
    forall b | b in s.byAmf && s.byAmf[b] == v ensures b == i.amfId { assert AmfAgrees(s, b); }
  }

  lemma RestoreAgrees(s: State, t: State, i: Ids, u0: NgapContext)
    requires Agreed(s) && u0 !in s.ngap && Stored(s, t, i, u0) && TablesClosed(t)
    requires KeyFits(s, i) && KeyFree(s, i) && OldEntryReplaced(s, i)
    ensures Agreed(t)
  {
    RestoreConcerns(s, t, i, u0);
    RestoredIdAgrees(s, t, i, u0);
    if i.amfId in s.byAmf { OldContextGone(s, t, i, u0); }
    forall k | k in t.byRan && t.byRan[k] in Concerned(s, i, u0) ensures k == RestoreKey(i) && IsHome(t, k) { }
    SameUeKeys(s, t);
    AgreementOfTheConcerned(s, t, Concerned(s, i, u0), {});
  }

  lemma RestoreDisagrees(s: State, t: State, i: Ids, u0: NgapContext)
    requires Agreed(s) && u0 !in s.ngap && Stored(s, t, i, u0) && !(KeyFree(s, i) && OldEntryReplaced(s, i))
    ensures !Agreed(t)
  {
    if !KeyFree(s, i) {
      assert RanAgrees(s, RestoreKey(i));
      var b := NgapOf(s, s.byRan[RestoreKey(i)]).amfId.value;
      assert !AmfAgrees(t, b);
    } else {
      var v := s.byAmf[i.amfId];
      assert AmfAgrees(s, i.amfId);
      if HomeKey(s, v) != RestoreKey(i) {
        assert !RanAgrees(t, HomeKey(s, v));
      } else {
        var x :| AwaitedAt(s, v, x);
        assert !RanAgrees(t, x);
      }
    }
  }

  /** The tables agree on a restored UE exactly if the association number, the RAN id and the gNB id are one and the
      same, the target has a UE context of these ids that names that gNB, and no other entry of either NGAP index is in
      the way. */
  lemma RestoreAgreement(s: State, i: Ids, r0: NasRecord, u0: NgapContext)
    requires Agreed(s) && u0 !in s.ngap
    ensures Agreed(OnRestore(s, i, r0, u0)) <==> KeyFits(s, i) && KeyFree(s, i) && OldEntryReplaced(s, i)
  {
    var t := OnRestore(s, i, r0, u0);
    RestoreStores(s, i, r0, u0);
    RestoredIdAgrees(s, t, i, u0);
    if !KeyFits(s, i) {
      assert i.amfId in t.byAmf;
    } else if KeyFree(s, i) && OldEntryReplaced(s, i) {
      RestoreAgrees(s, t, i, u0);
    } else {
      RestoreDisagrees(s, t, i, u0);
    }
  }

  /** A target that has set up one gNB, with id 5 on association 5, and has no UE. */
  function FreshTarget(): State {
    State(map[5 := Gnb(5, Ready)], map[5 := 5], map[], map[], map[], map[], map[], map[], map[], map[], map[], 0)
  }

  /** Even where all three numbers coincide a restore on a fresh target loses agreement, for nothing enters the UE
      context. */
  lemma RestoreOnFreshTarget(supi: Supi, amfId: AmfId, r0: NasRecord, u0: NgapContext)
    ensures var s := FreshTarget(); var i := Ids(supi, amfId, 5, 5, 0, 0); var t := OnRestore(s, i, r0, u0);
            && Agreed(s) && RestoreKey(i) == (i.ranId, s.gnbs[i.assoc].id)
            && t.byAmf[amfId] == u0 == t.byRan[(5, 5)] && ViaUeKey(t, (5, amfId)) == None && !Agreed(t)
  {
    var s, i := FreshTarget(), Ids(supi, amfId, 5, 5, 0, 0);
    assert Agreed(s);
    RestoreAgreement(s, i, r0, u0);
  }

  /** Of a UE that the target knows already, at home where the three numbers coincide, a restore keeps agreement exactly
      if no release of it is awaited. */
  lemma RestoreOfKnownUe(s: State, a: AmfId, supi: Supi, n: nat, r0: NasRecord, u0: NgapContext)
    requires Agreed(s) && u0 !in s.ngap && a in s.byAmf && n < 0x1_0000_0000
    requires NgapOf(s, s.byAmf[a]).assoc == n && HomeKey(s, s.byAmf[a]) == (n, n)
    ensures Agreed(OnRestore(s, Ids(supi, a, n, n, 0, 0), r0, u0)) <==> forall x :: !AwaitedAt(s, s.byAmf[a], x)
  {
    assert AmfAgrees(s, a);
    RestoreAgreement(s, Ids(supi, a, n, n, 0, 0), r0, u0);
  }
}
