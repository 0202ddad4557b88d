/** The choice of the NAS algorithms: the configured names become preference lists, and a UE gets the first algorithm of
    each list that it supports. */
module Algorithms {
  import opened Contexts

  /** An algorithm, by its number. */
  type Alg = x: int | 0 <= x < 8

  /** An octet of the UE security capability: algorithm 0 at its highest bit. */
  type Capability = x: int | 0 <= x < 0x100

  // ------------------------------------------------------- preference lists

  /** The number that a name with this prefix stands for; a name of another form stands for none. */
  function Numbered(prefix: string, name: string): (r: Option<Alg>)
    ensures forall n: Alg :: r == Some(n) <==> name == NameOf(prefix, n)
  {
    if |name| == |prefix| + 1 && prefix <= name && '0' <= name[|prefix|] <= '7'
    then
      var n := name[|prefix|] as int - '0' as int;
      assert name == prefix + [name[|prefix|]] == NameOf(prefix, n);
      Some(n)
    else
      assert forall n: Alg :: |NameOf(prefix, n)| == |prefix| + 1 && prefix <= NameOf(prefix, n);
      None
  }

  function NameOf(prefix: string, n: Alg): string {
    prefix + ["01234567"[n]]
  }

  /** A name is the prefix and the digit of the number, so NIA0 to NIA7 and NEA0 to NEA7. */
  lemma NamesAre(prefix: string, n: Alg)
    ensures NameOf(prefix, n) == prefix + [('0' as int + n) as char]
    ensures NameOf("NIA", 2) == "NIA2" && NameOf("NEA", 0) == "NEA0"
  {
    assert n == 0 || n == 1 || n == 2 || n == 3 || n == 4 || n == 5 || n == 6 || n == 7;
  }

  /** The algorithms that a list of names stands for, in its order; other names are passed over. */
  function Preference(prefix: string, names: seq<string>): seq<Alg>
    decreases |names|
  {
    if names == [] then []
    else
      var front := Preference(prefix, names[..|names| - 1]);
      match Numbered(prefix, names[|names| - 1])
      case Some(n) => front + [n]
      case None => front
  }

  /** The list of names itself, or the default one. */
  function NamesOrDefault(prefix: string, names: seq<string>): (r: seq<string>)
    ensures r != []
  {
    if names == [] then [NameOf(prefix, 2), NameOf(prefix, 1), NameOf(prefix, 0)] else names
  }

  /** The loop of pre_process.  Its last part, for an empty list of names, is dead: the list never is. */
  method PreProcess(prefix: string, configured: seq<string>) returns (preferred: seq<Alg>)
    ensures preferred == Preference(prefix, NamesOrDefault(prefix, configured))
  {
    var names := NamesOrDefault(prefix, configured);
    preferred := [];
    var i := 0;
    while i < |names|
      invariant 0 <= i <= |names| && preferred == Preference(prefix, names[..i])
    {
      assert names[..i + 1][..i] == names[..i];
      if names[i] == NameOf(prefix, 0) { preferred := preferred + [0]; }
      if names[i] == NameOf(prefix, 1) { preferred := preferred + [1]; }
      if names[i] == NameOf(prefix, 2) { preferred := preferred + [2]; }
      if names[i] == NameOf(prefix, 3) { preferred := preferred + [3]; }
      if names[i] == NameOf(prefix, 4) { preferred := preferred + [4]; }
      if names[i] == NameOf(prefix, 5) { preferred := preferred + [5]; }
      if names[i] == NameOf(prefix, 6) { preferred := preferred + [6]; }
      if names[i] == NameOf(prefix, 7) { preferred := preferred + [7]; }
      i := i + 1;
    }
    assert names[..i] == names;
  }

  lemma {:induction false} PreferenceSplits(prefix: string, a: seq<string>, b: seq<string>)
    ensures Preference(prefix, a + b) == Preference(prefix, a) + Preference(prefix, b)
    decreases |b|
  {
    if b == [] {
      assert a + b == a;
    } else {
      assert (a + b)[..|a + b| - 1] == a + b[..|b| - 1];
      PreferenceSplits(prefix, a, b[..|b| - 1]);
    }
  }

  /** Order is kept: what is named first is preferred. */
  lemma PreferenceKeepsOrder(prefix: string, names: seq<string>, i: nat, m: Alg)
    requires i < |names| && names[i] == NameOf(prefix, m)
    ensures Preference(prefix, names) == Preference(prefix, names[..i]) + [m] + Preference(prefix, names[i + 1..])
  {
    assert names == names[..i + 1] + names[i + 1..];
    PreferenceSplits(prefix, names[..i + 1], names[i + 1..]);
    assert names[..i + 1][..i] == names[..i];
    assert Numbered(prefix, names[i]) == Some(m);
  }

  // ------------------------------------------------------- selection

  function Bit(n: Alg): int {
    [0x80, 0x40, 0x20, 0x10, 0x08, 0x04, 0x02, 0x01][n]
  }

  /** capability & (0x80 >> n) */
  predicate Supports(capability: Capability, n: Alg) {
    capability / Bit(n) % 2 == 1
  }

  lemma Halves(n: nat)
    requires n < 256
    ensures n / 4 == n / 2 / 2 && n / 8 == n / 4 / 2 && n / 16 == n / 8 / 2 && n / 32 == n / 16 / 2
    ensures n / 64 == n / 32 / 2 && n / 128 == n / 64 / 2
  {
  }

  function Worth(capability: Capability, n: Alg, bit: nat): nat {
    if Supports(capability, n) then bit else 0
  }

  lemma LowBits(capability: Capability)
    ensures capability == capability / 16 * 16 + Worth(capability, 4, 8) + Worth(capability, 5, 4)
                          + Worth(capability, 6, 2) + Worth(capability, 7, 1)
  {
    Halves(capability);
  }

  lemma HighBits(capability: Capability)
    ensures capability / 16 == Worth(capability, 0, 8) + Worth(capability, 1, 4) + Worth(capability, 2, 2)
                               + Worth(capability, 3, 1)
  {
    Halves(capability);
  }

  /** A capability is the sum of the bits of what it supports, algorithm 0 at the highest, 7 at the lowest. */
  lemma CapabilityIsItsBits(capability: Capability)
    ensures capability ==
            (if Supports(capability, 0) then 128 else 0) + (if Supports(capability, 1) then 64 else 0) +
            (if Supports(capability, 2) then 32 else 0) + (if Supports(capability, 3) then 16 else 0) +
            (if Supports(capability, 4) then 8 else 0) + (if Supports(capability, 5) then 4 else 0) +
            (if Supports(capability, 6) then 2 else 0) + (if Supports(capability, 7) then 1 else 0)
  {
    LowBits(capability);
    HighBits(capability);
  }

  predicate SupportsAny(capability: Capability, preferred: seq<Alg>) {
    exists i :: 0 <= i < |preferred| && Supports(capability, preferred[i])
  }

  /** The first of the list that the UE supports. */
  predicate IsFirstSupported(preferred: seq<Alg>, capability: Capability, i: nat) {
    && i < |preferred| && Supports(capability, preferred[i])
    && forall j | 0 <= j < i :: !Supports(capability, preferred[j])
  }

  function Chosen(preferred: seq<Alg>, capability: Capability): Alg
    decreases |preferred|
  {
    if preferred == [] then 0
    else if Supports(capability, preferred[0]) then preferred[0]
    else Chosen(preferred[1..], capability)
  }

  /** The choice is the supported algorithm of least index, and 0 where there is none. */
  lemma {:induction false} ChosenIsFirst(preferred: seq<Alg>, capability: Capability, i: nat)
    ensures IsFirstSupported(preferred, capability, i) ==> Chosen(preferred, capability) == preferred[i]
    ensures !SupportsAny(capability, preferred) ==> Chosen(preferred, capability) == 0
    decreases |preferred|
  {
    if preferred != [] {
      var rest := preferred[1..];
      if Supports(capability, preferred[0]) {
        assert SupportsAny(capability, preferred);
      } else {
        ChosenIsFirst(rest, capability, if i > 0 then i - 1 else 0);
        assert forall j | 0 <= j < |rest| :: rest[j] == preferred[j + 1];
        assert IsFirstSupported(preferred, capability, i) ==> IsFirstSupported(rest, capability, i - 1);
      }
    }
  }

  /** One of the two loops of security_select_algorithms; `chosen` keeps its initial 0 if nothing is found. */
  method SelectFirst(preferred: seq<Alg>, capability: Capability) returns (chosen: Alg, found: bool)
    ensures found == SupportsAny(capability, preferred)
    ensures chosen == Chosen(preferred, capability)
  {
    chosen, found := 0, false;
    var i := 0;
    while i < |preferred|
      invariant 0 <= i <= |preferred| && !found && chosen == 0
      invariant forall j | 0 <= j < i :: !Supports(capability, preferred[j])
    {
      if Supports(capability, preferred[i]) {
        ChosenIsFirst(preferred, capability, i);
        return preferred[i], true;
      }
      i := i + 1;
    }
    ChosenIsFirst(preferred, capability, 0);
  }

  /** security_select_algorithms */
  method SelectAlgorithms(preferredEa: seq<Alg>, preferredIa: seq<Alg>, ea: Capability, ia: Capability)
    returns (amfEa: Alg, amfIa: Alg, ok: bool)
    ensures amfEa == Chosen(preferredEa, ea) && amfIa == Chosen(preferredIa, ia)
    ensures ok == (SupportsAny(ea, preferredEa) && SupportsAny(ia, preferredIa))
  {
    var foundEa, foundIa;
    amfEa, foundEa := SelectFirst(preferredEa, ea);
    amfIa, foundIa := SelectFirst(preferredIa, ia);
    ok := foundEa && foundIa;
  }

  /** With the default list NIA2, NIA1, NIA0 the null algorithm is chosen exactly for a UE that supports neither NIA2
      nor NIA1; it need not support NIA0. */
  lemma DefaultPrefersIntegrity(ia: Capability)
    ensures var p := Preference("NIA", NamesOrDefault("NIA", []));
            p == [2, 1, 0] && (Chosen(p, ia) == 0 <==> !Supports(ia, 2) && !Supports(ia, 1))
  {
    DefaultOrder("NIA");
    assert [2, 1, 0][1..] == [1, 0] && [1, 0][1..] == [0];
  }

  lemma DefaultOrder(prefix: string)
    ensures Preference(prefix, NamesOrDefault(prefix, [])) == [2, 1, 0]
  {
    var names := NamesOrDefault(prefix, []);
    PreferenceKeepsOrder(prefix, names, 0, 2);
    PreferenceKeepsOrder(prefix, names[1..], 0, 1);
    PreferenceKeepsOrder(prefix, names[1..][1..], 0, 0);
  }
}
