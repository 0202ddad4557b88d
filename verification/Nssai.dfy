/** Which slices a UE may use: whether this AMF can serve what the UE requests, and the allowed and rejected lists of
    Registration Accept. */
module Nssai {
  import opened Contexts

  /** An S-NSSAI by SST and SD; SD_NO_VALUE stands for no SD. */
  datatype Snssai = Snssai(sst: int, sd: int)

  const SD_NO_VALUE := 0xFFFFFF

  datatype Tai = Tai(mcc: string, mnc: string, tac: int)

  /** A configured PLMN and its slice list. */
  datatype Plmn = Plmn(tai: Tai, slices: seq<Snssai>)

  // ------------------------------------------------------- check_subscribed_nssai

  /** The slices that one PLMN has to serve: those requested that are subscribed, by default or otherwise;
      all the default ones if there are none such. */
  ghost function Required(requested: seq<Snssai>, defaults: seq<Snssai>, others: seq<Snssai>): set<Snssai> {
    var common := set s | s in requested && (s in defaults || s in others);
    if common == {} then set s | s in defaults else common
  }

  ghost predicate Serves(p: Plmn, required: set<Snssai>) {
    forall s | s in required :: s in p.slices
  }

  /** The verdict of the last PLMN of the UE's tracking area; false if there is none. */
  ghost function Verdict(plmns: seq<Plmn>, tai: Tai, required: set<Snssai>): bool
    decreases |plmns|
  {
    if plmns == [] then false
    else if plmns[|plmns| - 1].tai == tai then Serves(plmns[|plmns| - 1], required)
    else Verdict(plmns[..|plmns| - 1], tai, required)
  }

  /** Said with an index: true exactly if some PLMN of the tracking area serves them all and no later one is of that
      tracking area. */
  lemma {:induction false} VerdictIsOfTheLast(plmns: seq<Plmn>, tai: Tai, required: set<Snssai>)
    ensures Verdict(plmns, tai, required) <==>
            exists i :: 0 <= i < |plmns| && plmns[i].tai == tai && Serves(plmns[i], required) &&
                        (forall j | i < j < |plmns| :: plmns[j].tai != tai)
    decreases |plmns|
  {
    if plmns != [] {
      var front, last := plmns[..|plmns| - 1], plmns[|plmns| - 1];
      VerdictIsOfTheLast(front, tai, required);
      if last.tai == tai {
        if Serves(last, required) { assert plmns[|plmns| - 1].tai == tai; }
      } else {
        if Verdict(front, tai, required) {
          var i :| 0 <= i < |front| && front[i].tai == tai && Serves(front[i], required) &&
                   (forall j | i < j < |front| :: front[j].tai != tai);
          assert plmns[i] == front[i];
          forall j | i < j < |plmns| ensures plmns[j].tai != tai { assert j < |front| ==> plmns[j] == front[j]; }
        }
        if i :| 0 <= i < |plmns| && plmns[i].tai == tai && Serves(plmns[i], required) &&
                (forall j | i < j < |plmns| :: plmns[j].tai != tai) {
          assert front[i] == plmns[i];
          forall j | i < j < |front| ensures front[j].tai != tai { assert front[j] == plmns[j]; }
        }
      }
    }
  }

  /** The loop that looks a slice up in a list, and stops where it finds it. */
  method Contains(list: seq<Snssai>, s: Snssai) returns (found: bool)
    ensures found <==> s in list
  {
    found := false;
    var i := 0;
    while i < |list|
      invariant 0 <= i <= |list| && !found && s !in list[..i]
    {
      if list[i].sst == s.sst && list[i].sd == s.sd {
        return true;
      }
      i := i + 1;
    }
  }

  /** The requested slices that are subscribed; one that is subscribed both by default and otherwise comes twice. */
  method CommonOf(requested: seq<Snssai>, defaults: seq<Snssai>, others: seq<Snssai>) returns (common: seq<Snssai>)
    ensures forall s :: s in common <==> s in requested && (s in defaults || s in others)
  {
    common := [];
    var i := 0;
    while i < |requested|
      invariant 0 <= i <= |requested|
      invariant forall s :: s in common <==> s in requested[..i] && (s in defaults || s in others)
    {
      var isDefault := Contains(defaults, requested[i]);
      if isDefault { common := common + [requested[i]]; }
      var isOther := Contains(others, requested[i]);
      if isOther { common := common + [requested[i]]; }
      assert requested[..i + 1] == requested[..i] + [requested[i]];
      i := i + 1;
    }
    assert requested[..i] == requested;
  }

  /** The loop that stops at the first slice not in the list. */
  method AllServed(needed: seq<Snssai>, slices: seq<Snssai>) returns (served: bool)
    ensures served <==> forall s | s in needed :: s in slices
  {
    served := true;
    var i := 0;
    while i < |needed|
      invariant 0 <= i <= |needed| && forall s | s in needed[..i] :: s in slices
    {
      var found := Contains(slices, needed[i]);
      if !found {
        assert needed[i] in needed;
        return false;
      }
      i := i + 1;
    }
  }

  /** check_subscribed_nssai */
  method CheckSubscribedNssai(plmns: seq<Plmn>, ueTai: Option<Tai>, requested: seq<Snssai>,
                              defaults: seq<Snssai>, others: seq<Snssai>) returns (result: bool)
    ensures result <==> ueTai.Some? && Verdict(plmns, ueTai.value, Required(requested, defaults, others))
  {
    if ueTai.None? {
      return false;
    }
    var tai := ueTai.value;
    ghost var required := Required(requested, defaults, others);
    result := false;
    var i := 0;
    while i < |plmns|
      invariant 0 <= i <= |plmns|
      invariant result == Verdict(plmns[..i], tai, required)
    {
      var p := plmns[i];
      assert plmns[..i + 1][..i] == plmns[..i];
      if p.tai == tai {
        result := ServedBy(p, requested, defaults, others);
      }
      i := i + 1;
    }
    assert plmns[..i] == plmns;
  }

  method ServedBy(p: Plmn, requested: seq<Snssai>, defaults: seq<Snssai>, others: seq<Snssai>) returns (served: bool)
    ensures served <==> Serves(p, Required(requested, defaults, others))
  {
    var common := CommonOf(requested, defaults, others);
    ghost var shared := set s | s in requested && (s in defaults || s in others);
    if |requested| == 0 || |common| == 0 {
      assert forall s | s in shared :: s in common;
      served := AllServed(defaults, p.slices);
    } else {
      assert common[0] in shared;
      served := AllServed(common, p.slices);
    }
  }

  // ------------------------------------------------------- allowed and rejected

  /** An entry of the rejected list: no SD where there was none. */
  datatype Rejected = Rejected(sst: int, sd: Option<int>)

  function RejectedOf(s: Snssai): Rejected {
    Rejected(s.sst, if s.sd == SD_NO_VALUE then None else Some(s.sd))
  }

  /** The effective requested list. */
  function Effective(requested: seq<Snssai>, subscribed: seq<Snssai>): seq<Snssai> {
    if |requested| > 0 then requested else subscribed
  }

  /** The elements of a list that are not in another, in order and as often as they occur. */
  function Outside(list: seq<Snssai>, common: seq<Snssai>): seq<Snssai>
    decreases |list|
  {
    if list == [] then []
    else Outside(list[..|list| - 1], common) + if list[|list| - 1] in common then [] else [list[|list| - 1]]
  }

  function RejectedList(list: seq<Snssai>, common: seq<Snssai>): (r: seq<Rejected>)
    ensures |r| == |Outside(list, common)|
  {
    seq(|Outside(list, common)|, i requires 0 <= i < |Outside(list, common)| => RejectedOf(Outside(list, common)[i]))
  }

  lemma {:induction false} OutsideSplits(a: seq<Snssai>, b: seq<Snssai>, common: seq<Snssai>)
    ensures Outside(a + b, common) == Outside(a, common) + Outside(b, common)
    decreases |b|
  {
    if b == [] {
      assert a + b == a;
    } else {
      assert (a + b)[..|a + b| - 1] == a + b[..|b| - 1];
      OutsideSplits(a, b[..|b| - 1], common);
    }
  }

  lemma {:induction false} OutsideMultiplicity(list: seq<Snssai>, common: seq<Snssai>, s: Snssai)
    ensures multiset(Outside(list, common))[s] == if s in common then 0 else multiset(list)[s]
    decreases |list|
  {
    if list != [] {
      assert list == list[..|list| - 1] + [list[|list| - 1]];
      OutsideMultiplicity(list[..|list| - 1], common, s);
    }
  }

  /** Partition: every requested slice is in the common list or among the rejected, with its multiplicity, and
      never both; nothing else is rejected. */
  lemma RequestedArePartitioned(list: seq<Snssai>, common: seq<Snssai>, s: Snssai)
    ensures s in list ==> (s in common <==> s !in Outside(list, common))
    ensures s in Outside(list, common) ==> s in list && s !in common
    ensures multiset(Outside(list, common))[s] == if s in common then 0 else multiset(list)[s]
  {
    OutsideMultiplicity(list, common, s);
    assert s in multiset(list) <==> s in list;
    assert s in multiset(Outside(list, common)) <==> s in Outside(list, common);
  }

  /** The rejected keep the order of the request: each stands between those rejected of what came before and
      after it. */
  lemma RejectedInOrder(list: seq<Snssai>, common: seq<Snssai>, i: nat)
    requires i < |list| && list[i] !in common
    ensures Outside(list, common) == Outside(list[..i], common) + [list[i]] + Outside(list[i + 1..], common)
  {
    assert list == list[..i + 1] + list[i + 1..];
    OutsideSplits(list[..i + 1], list[i + 1..], common);
    assert list[..i + 1][..i] == list[..i];
  }

  /** The part of initialize_registration_accept that fills the NSSAI lists.  The allowed ones are the common list in
      order, appended to those the NAS context has. */
  method NssaiLists(requested: seq<Snssai>, subscribed: seq<Snssai>, common: seq<Snssai>, held: seq<Snssai>)
    returns (allowed: seq<Snssai>, inContext: seq<Snssai>, rejected: seq<Rejected>)
    ensures allowed == common && inContext == held + common
    ensures var list := if requested == [] then subscribed else requested; var out := Outside(list, common);
            && |rejected| == |out|
            && forall i | 0 <= i < |rejected| ::
                 rejected[i] == Rejected(out[i].sst, if out[i].sd == 0xFFFFFF then None else Some(out[i].sd))
    ensures rejected == RejectedList(Effective(requested, subscribed), common)
  {
    var effective := requested;
    if |requested| == 0 { effective := subscribed; }
    allowed, inContext, rejected := [], held, [];
    var a := 0;
    while a < |common|
      invariant 0 <= a <= |common| && allowed == common[..a] && inContext == held + common[..a]
    {
      allowed := allowed + [common[a]];
      inContext := inContext + [common[a]];
      a := a + 1;
    }
    var i := 0;
    while i < |effective|
      invariant 0 <= i <= |effective|
      invariant rejected == RejectedList(effective[..i], common)
    {
      var found := Contains(common, effective[i]);
      assert effective[..i + 1][..i] == effective[..i];
      if !found {
        rejected := rejected + [RejectedOf(effective[i])];
      }
      i := i + 1;
    }
    assert effective[..i] == effective;
  }
}
