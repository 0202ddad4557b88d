/** The tracking areas, PLMNs and slices that a gNB and the AMF's configuration have in common: the
    search NG Setup makes. */
module CommonPlmn {

  /** A PLMN that the configuration serves, with its slices as (SST, SD). */
  datatype Configured = Configured(mcc: string, mnc: string, tac: int, slices: seq<Slice>)

  datatype Slice = Slice(sst: int, sd: int)
  datatype Plmn = Plmn(mcc: string, mnc: string)
  datatype Broadcast = Broadcast(plmn: Plmn, slices: seq<Slice>)

  /** SupportedTaItem */
  datatype Ta = Ta(tac: int, broadcast: seq<Broadcast>)

  // ------------------------------------------------------- what is to be found

  /** The triple (configured PLMN i, tracking area j, broadcast PLMN k) matches on TAC, MCC and MNC. */
  predicate Matches(plmns: seq<Configured>, tas: seq<Ta>, i: nat, j: nat, k: nat)
  {
    && i < |plmns| && j < |tas| && k < |tas[j].broadcast|
    && plmns[i].tac == tas[j].tac
    && tas[j].broadcast[k].plmn == Plmn(plmns[i].mcc, plmns[i].mnc)
  }

  /** The triples of indices, in the order of the loops. */
  predicate Before(a: (nat, nat, nat), b: (nat, nat, nat)) {
    a.0 < b.0 || (a.0 == b.0 && (a.1 < b.1 || (a.1 == b.1 && a.2 < b.2)))
  }

  function Count(slices: seq<Slice>, s: Slice): nat
    decreases |slices|
  {
    if slices == [] then 0 else (if slices[0] == s then 1 else 0) + Count(slices[1..], s)
  }

  function Times(s: Slice, n: nat): (r: seq<Slice>)
    ensures |r| == n && forall x | x in r :: x == s
  {
    if n == 0 then [] else Times(s, n - 1) + [s]
  }

  /** The slices of a gNB that equal configured ones, in the gNB's order, each as often as it is configured. */
  function CommonSlices(of: seq<Slice>, configured: seq<Slice>): seq<Slice>
    decreases |of|
  {
    if of == [] then []
    else CommonSlices(of[..|of| - 1], configured) + Times(of[|of| - 1], Count(configured, of[|of| - 1]))
  }

  predicate ShareSlice(of: seq<Slice>, configured: seq<Slice>) {
    exists s :: s in of && s in configured
  }

  /** The item that a matching triple contributes. */
  function ItemOf(plmns: seq<Configured>, tas: seq<Ta>, t: (nat, nat, nat)): Ta
    requires Matches(plmns, tas, t.0, t.1, t.2)
  {
    var b := tas[t.1].broadcast[t.2];
    Ta(tas[t.1].tac, [Broadcast(b.plmn, CommonSlices(b.slices, plmns[t.0].slices))])
  }

  /** `found` are exactly the matching triples that come before `limit` in loop order, each once. */
  ghost predicate Enumerates(plmns: seq<Configured>, tas: seq<Ta>, found: seq<(nat, nat, nat)>,
                             limit: (nat, nat, nat)) {
    && (forall n | 0 <= n < |found| ::
          Matches(plmns, tas, found[n].0, found[n].1, found[n].2) && Before(found[n], limit))
    && (forall m, n | 0 <= m < n < |found| :: Before(found[m], found[n]))
    && (forall i: nat, j: nat, k: nat | Matches(plmns, tas, i, j, k) && Before((i, j, k), limit) :: (i, j, k) in found)
  }

  predicate Shares(plmns: seq<Configured>, tas: seq<Ta>, t: (nat, nat, nat)) {
    Matches(plmns, tas, t.0, t.1, t.2) && ShareSlice(tas[t.1].broadcast[t.2].slices, plmns[t.0].slices)
  }

  // ------------------------------------------------------- slices

  lemma {:induction false} CountIsMembership(slices: seq<Slice>, s: Slice)
    ensures Count(slices, s) > 0 <==> s in slices
    decreases |slices|
  {
    if slices != [] { CountIsMembership(slices[1..], s); }
  }

  lemma {:induction false} CountOneMore(slices: seq<Slice>, x: Slice, s: Slice)
    ensures Count(slices + [x], s) == Count(slices, s) + if x == s then 1 else 0
    decreases |slices|
  {
    if slices != [] {
      assert (slices + [x])[1..] == slices[1..] + [x];
      CountOneMore(slices[1..], x, s);
    } else {
      assert (slices + [x])[1..] == [];
    }
  }

  /** A slice is among the common ones exactly if both sides have it; so there are any exactly if the two share one. */
  lemma {:induction false} CommonSlicesAreShared(of: seq<Slice>, configured: seq<Slice>, s: Slice)
    ensures s in CommonSlices(of, configured) <==> s in of && s in configured
    decreases |of|
  {
    if of != [] {
      var last := of[|of| - 1];
      CommonSlicesAreShared(of[..|of| - 1], configured, s);
      CountIsMembership(configured, last);
      assert of == of[..|of| - 1] + [last];
      assert s in Times(last, Count(configured, last)) <==> s == last && Count(configured, last) > 0 by {
        var repeated := Times(last, Count(configured, last));
        if repeated != [] { assert repeated[0] in repeated; }
      }
    }
  }

  lemma {:induction false} CountOfSum(a: seq<Slice>, b: seq<Slice>, s: Slice)
    ensures Count(a + b, s) == Count(a, s) + Count(b, s)
    decreases |a|
  {
    if a == [] {
      assert a + b == b;
    } else {
      assert (a + b)[1..] == a[1..] + b;
      CountOfSum(a[1..], b, s);
    }
  }

  lemma {:induction false} CountOfTimes(x: Slice, n: nat, s: Slice)
    ensures Count(Times(x, n), s) == if x == s then n else 0
  {
    if n > 0 {
      CountOfTimes(x, n - 1, s);
      CountOneMore(Times(x, n - 1), x, s);
    }
  }

  lemma OneMoreTime(m: nat, n: nat)
    ensures (m + 1) * n == m * n + n
  {
  }

  /** A slice that the gNB names m times and the configuration n times comes out m * n times. */
  lemma {:induction false} CommonMultiplicity(of: seq<Slice>, configured: seq<Slice>, s: Slice)
    ensures Count(CommonSlices(of, configured), s) == Count(of, s) * Count(configured, s)
    decreases |of|
  {
    if of != [] {
      var front, last := of[..|of| - 1], of[|of| - 1];
      assert of == front + [last];
      CommonMultiplicity(front, configured, s);
      CountOneMore(front, last, s);
      CountOfSum(CommonSlices(front, configured), Times(last, Count(configured, last)), s);
      CountOfTimes(last, Count(configured, last), s);
      OneMoreTime(Count(front, s), Count(configured, s));
    }
  }

  lemma {:induction false} CountIsMultiplicity(slices: seq<Slice>, s: Slice)
    ensures Count(slices, s) == multiset(slices)[s]
    decreases |slices|
  {
    if slices != [] {
      assert slices == [slices[0]] + slices[1..];
      CountIsMultiplicity(slices[1..], s);
    }
  }

  /** They keep the order of the gNB: each slice stands between those common of what came before and after it. */
  lemma {:induction false} CommonInOrder(a: seq<Slice>, b: seq<Slice>, configured: seq<Slice>)
    ensures CommonSlices(a + b, configured) == CommonSlices(a, configured) + CommonSlices(b, configured)
    decreases |b|
  {
    if b == [] {
      assert a + b == a;
    } else {
      assert (a + b)[..|a + b| - 1] == a + b[..|b| - 1];
      CommonInOrder(a, b[..|b| - 1], configured);
    }
  }

  /** What a matching triple contributes: the tracking area with one PLMN, that of both sides, which carries each slice
      as often as the gNB names it times as often as it is configured. */
  lemma ItemCarries(plmns: seq<Configured>, tas: seq<Ta>, i: nat, j: nat, k: nat, s: Slice)
    requires Matches(plmns, tas, i, j, k)
    ensures var item := ItemOf(plmns, tas, (i, j, k));
            && item.tac == tas[j].tac && |item.broadcast| == 1
            && item.broadcast[0].plmn.mcc == plmns[i].mcc && item.broadcast[0].plmn.mnc == plmns[i].mnc
            && multiset(item.broadcast[0].slices)[s] ==
               multiset(tas[j].broadcast[k].slices)[s] * multiset(plmns[i].slices)[s]
  {
    var of, configured := tas[j].broadcast[k].slices, plmns[i].slices;
    CommonMultiplicity(of, configured, s);
    CountIsMultiplicity(of, s);
    CountIsMultiplicity(configured, s);
    CountIsMultiplicity(CommonSlices(of, configured), s);
  }

  /** The two inner loops. */
  method CollectSlices(of: seq<Slice>, configured: seq<Slice>) returns (common: seq<Slice>, any: bool)
    ensures common == CommonSlices(of, configured)
    ensures any <==> ShareSlice(of, configured)
  {
    common, any := [], false;
    var a := 0;
    while a < |of|
      invariant 0 <= a <= |of|
      invariant common == CommonSlices(of[..a], configured)
      invariant any <==> common != []
    {
      var s1 := of[a];
      ghost var before := common;
      var b := 0;
      while b < |configured|
        invariant 0 <= b <= |configured|
        invariant common == before + Times(s1, Count(configured[..b], s1))
        invariant any <==> common != []
      {
        CountOneMore(configured[..b], configured[b], s1);
        assert configured[..b + 1] == configured[..b] + [configured[b]];
        if configured[b] == s1 {
          common := common + [s1];
          any := true;
        }
        b := b + 1;
      }
      assert configured[..b] == configured;
      assert of[..a + 1][..a] == of[..a];
      a := a + 1;
    }
    assert of[..a] == of;
    if common != [] {
      CommonSlicesAreShared(of, configured, common[0]);
    }
    if s :| s in of && s in configured {
      CommonSlicesAreShared(of, configured, s);
    }
  }

  // ------------------------------------------------------- the search

  /** What the loops have when they stand at `limit`. */
  ghost predicate Collected(plmns: seq<Configured>, tas: seq<Ta>, result: seq<Ta>, extended: seq<Ta>, any: bool,
                            found: seq<(nat, nat, nat)>, limit: (nat, nat, nat)) {
    && Enumerates(plmns, tas, found, limit)
    && |extended| == |result| + |found| && extended[..|result|] == result
    && (forall n | 0 <= n < |found| :: extended[|result| + n] == ItemOf(plmns, tas, found[n]))
    && (any <==> exists n :: 0 <= n < |found| && Shares(plmns, tas, found[n]))
  }

  lemma NoneHere(plmns: seq<Configured>, tas: seq<Ta>, result: seq<Ta>, extended: seq<Ta>, any: bool,
                 found: seq<(nat, nat, nat)>, i: nat, j: nat)
    requires i < |plmns| && j < |tas| && Collected(plmns, tas, result, extended, any, found, (i, j, 0))
    requires plmns[i].tac != tas[j].tac
    ensures Collected(plmns, tas, result, extended, any, found, (i, j + 1, 0))
  {
  }

  lemma NextPlmn(plmns: seq<Configured>, tas: seq<Ta>, result: seq<Ta>, extended: seq<Ta>, any: bool,
                 found: seq<(nat, nat, nat)>, i: nat)
    requires i < |plmns| && Collected(plmns, tas, result, extended, any, found, (i, |tas|, 0))
    ensures Collected(plmns, tas, result, extended, any, found, (i + 1, 0, 0))
  {
  }

  lemma NextTa(plmns: seq<Configured>, tas: seq<Ta>, result: seq<Ta>, extended: seq<Ta>, any: bool,
               found: seq<(nat, nat, nat)>, i: nat, j: nat)
    requires i < |plmns| && j < |tas| && Collected(plmns, tas, result, extended, any, found, (i, j, |tas[j].broadcast|))
    ensures Collected(plmns, tas, result, extended, any, found, (i, j + 1, 0))
  {
  }

  lemma OneMore(plmns: seq<Configured>, tas: seq<Ta>, result: seq<Ta>, extended: seq<Ta>, any: bool,
                found: seq<(nat, nat, nat)>, i: nat, j: nat, k: nat)
    requires Matches(plmns, tas, i, j, k) && Collected(plmns, tas, result, extended, any, found, (i, j, k))
    ensures Collected(plmns, tas, result, extended + [ItemOf(plmns, tas, (i, j, k))],
                      any || Shares(plmns, tas, (i, j, k)), found + [(i, j, k)], (i, j, k + 1))
  {
  }

  lemma NotThis(plmns: seq<Configured>, tas: seq<Ta>, result: seq<Ta>, extended: seq<Ta>, any: bool,
                found: seq<(nat, nat, nat)>, i: nat, j: nat, k: nat)
    requires !Matches(plmns, tas, i, j, k) && Collected(plmns, tas, result, extended, any, found, (i, j, k))
    ensures Collected(plmns, tas, result, extended, any, found, (i, j, k + 1))
  {
  }

  /** One broadcast PLMN of a tracking area. */
  method TakeBroadcast(plmns: seq<Configured>, tas: seq<Ta>, i: nat, j: nat, k: nat, ghost result: seq<Ta>,
                       soFar: seq<Ta>, anySoFar: bool, ghost foundSoFar: seq<(nat, nat, nat)>)
    returns (extended: seq<Ta>, any: bool, ghost found: seq<(nat, nat, nat)>)
    requires i < |plmns| && j < |tas| && k < |tas[j].broadcast| && plmns[i].tac == tas[j].tac
    requires Collected(plmns, tas, result, soFar, anySoFar, foundSoFar, (i, j, k))
    ensures Collected(plmns, tas, result, extended, any, found, (i, j, k + 1))
  {
    var b := tas[j].broadcast[k];
    if b.plmn.mcc == plmns[i].mcc && b.plmn.mnc == plmns[i].mnc {
      OneMore(plmns, tas, result, soFar, anySoFar, foundSoFar, i, j, k);
      var slices, shares := CollectSlices(b.slices, plmns[i].slices);
      var item := Ta(tas[j].tac, [Broadcast(b.plmn, slices)]);
      assert item == ItemOf(plmns, tas, (i, j, k)) && shares == Shares(plmns, tas, (i, j, k));
      extended, any, found := soFar + [item], anySoFar || shares, foundSoFar + [(i, j, k)];
    } else {
      NotThis(plmns, tas, result, soFar, anySoFar, foundSoFar, i, j, k);
      extended, any, found := soFar, anySoFar, foundSoFar;
    }
  }

  /** The loop over the PLMNs that one tracking area broadcasts. */
  method InTrackingArea(plmns: seq<Configured>, tas: seq<Ta>, i: nat, j: nat, ghost result: seq<Ta>,
                        soFar: seq<Ta>, anySoFar: bool, ghost foundSoFar: seq<(nat, nat, nat)>)
    returns (extended: seq<Ta>, any: bool, ghost found: seq<(nat, nat, nat)>)
    requires i < |plmns| && j < |tas| && plmns[i].tac == tas[j].tac
    requires Collected(plmns, tas, result, soFar, anySoFar, foundSoFar, (i, j, 0))
    ensures Collected(plmns, tas, result, extended, any, found, (i, j + 1, 0))
  {
    extended, any, found := soFar, anySoFar, foundSoFar;
    var k := 0;
    while k < |tas[j].broadcast|
      invariant 0 <= k <= |tas[j].broadcast| && Collected(plmns, tas, result, extended, any, found, (i, j, k))
    {
      extended, any, found := TakeBroadcast(plmns, tas, i, j, k, result, extended, any, found);
      k := k + 1;
    }
    NextTa(plmns, tas, result, extended, any, found, i, j);
  }

  lemma AllCollected(plmns: seq<Configured>, tas: seq<Ta>, result: seq<Ta>, extended: seq<Ta>, any: bool,
                     found: seq<(nat, nat, nat)>)
    requires Collected(plmns, tas, result, extended, any, found, (|plmns|, 0, 0))
    ensures any <==> exists i: nat, j: nat, k: nat :: Shares(plmns, tas, (i, j, k))
  {
    if i: nat, j: nat, k: nat :| Shares(plmns, tas, (i, j, k)) {
      assert Matches(plmns, tas, i, j, k) && (i, j, k) in found;
    }
    if any {
      var n :| 0 <= n < |found| && Shares(plmns, tas, found[n]);
      assert found[n] == (found[n].0, found[n].1, found[n].2);
    }
  }

  /** The loop over the tracking areas, for one configured PLMN. */
  method ForPlmn(plmns: seq<Configured>, tas: seq<Ta>, i: nat, ghost result: seq<Ta>,
                 soFar: seq<Ta>, anySoFar: bool, ghost foundSoFar: seq<(nat, nat, nat)>)
    returns (extended: seq<Ta>, any: bool, ghost found: seq<(nat, nat, nat)>)
    requires i < |plmns| && Collected(plmns, tas, result, soFar, anySoFar, foundSoFar, (i, 0, 0))
    ensures Collected(plmns, tas, result, extended, any, found, (i + 1, 0, 0))
  {
    extended, any, found := soFar, anySoFar, foundSoFar;
    var j := 0;
    while j < |tas|
      invariant 0 <= j <= |tas| && Collected(plmns, tas, result, extended, any, found, (i, j, 0))
    {
      if plmns[i].tac != tas[j].tac {
        NoneHere(plmns, tas, result, extended, any, found, i, j);
      } else {
        extended, any, found := InTrackingArea(plmns, tas, i, j, result, extended, any, found);
      }
      j := j + 1;
    }
    NextPlmn(plmns, tas, result, extended, any, found, i);
  }

  /** get_common_plmn: it appends one item for every matching triple, in loop order, and no other, and answers
      whether some matching triple has a slice in common. */
  method GetCommonPlmn(plmns: seq<Configured>, tas: seq<Ta>, result: seq<Ta>)
    returns (extended: seq<Ta>, foundCommon: bool, ghost found: seq<(nat, nat, nat)>)
    ensures Enumerates(plmns, tas, found, (|plmns|, 0, 0))
    ensures |extended| == |result| + |found| && extended[..|result|] == result
    ensures forall n | 0 <= n < |found| :: extended[|result| + n] == ItemOf(plmns, tas, found[n])
    ensures foundCommon <==> exists i: nat, j: nat, k: nat :: Shares(plmns, tas, (i, j, k))
  {
    extended, foundCommon, found := result, false, [];
    var i := 0;
    while i < |plmns|
      invariant 0 <= i <= |plmns| && Collected(plmns, tas, result, extended, foundCommon, found, (i, 0, 0))
    {
      extended, foundCommon, found := ForPlmn(plmns, tas, i, result, extended, foundCommon, found);
      i := i + 1;
    }
    AllCollected(plmns, tas, result, extended, foundCommon, found);
  }
}
