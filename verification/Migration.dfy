/** Moving a UE to another AMF: the active Kamf is printed as hex and the NAS counts are packed into a snapshot;
    the target decodes them and reinstalls the security context. */
module Migration {
  import opened Contexts
  import opened SnapshotCodecs

  type Octet = U8

  const KEY_LENGTH := 32

  // ------------------------------------------------------- hex

  /** The digit "%02x" prints for a nibble. */
  function Digit(n: nat): char
    requires n < 16
  {
    "0123456789abcdef"[n]
  }

  /** hex_val: -1 for a character that is no digit. */
  function HexVal(c: char): (r: int)
    ensures -1 <= r < 16
  {
    if '0' <= c <= '9' then c as int - '0' as int
    else if 'a' <= c <= 'f' then c as int - 'a' as int + 10
    else if 'A' <= c <= 'F' then c as int - 'A' as int + 10
    else -1
  }

  /** The loop of sprintf "%02x" over some octets. */
  function PrintHex(b: seq<Octet>): (r: string)
    ensures |r| == 2 * |b|
    decreases |b|
  {
    if b == [] then ""
    else PrintHex(b[..|b| - 1]) + [Digit(b[|b| - 1] / 16), Digit(b[|b| - 1] % 16)]
  }

  predicate IsPair(hex: string, i: nat)
    requires 2 * i + 1 < |hex|
  {
    HexVal(hex[2 * i]) >= 0 && HexVal(hex[2 * i + 1]) >= 0
  }

  function PairValue(hex: string, i: nat): Octet
    requires 2 * i + 1 < |hex| && IsPair(hex, i)
  {
    HexVal(hex[2 * i]) * 16 + HexVal(hex[2 * i + 1])
  }

  /** How many pairs decode before the first that does not; none for a string of another length. */
  function GoodPairs(hex: string): (r: nat)
    ensures r <= KEY_LENGTH
    ensures |hex| == 2 * KEY_LENGTH ==>
              (forall i | 0 <= i < r :: IsPair(hex, i)) && (r < KEY_LENGTH ==> !IsPair(hex, r))
    ensures |hex| != 2 * KEY_LENGTH ==> r == 0
  {
    if |hex| != 2 * KEY_LENGTH then 0 else GoodPairsFrom(hex, 0)
  }

  function GoodPairsFrom(hex: string, i: nat): (r: nat)
    requires |hex| == 2 * KEY_LENGTH && i <= KEY_LENGTH
    ensures i <= r <= KEY_LENGTH
    ensures forall k | i <= k < r :: IsPair(hex, k)
    ensures r < KEY_LENGTH ==> !IsPair(hex, r)
    decreases KEY_LENGTH - i
  {
    if i == KEY_LENGTH || !IsPair(hex, i) then i else GoodPairsFrom(hex, i + 1)
  }

  /** 64 hex digits, of either case. */
  predicate IsKey(hex: string) {
    |hex| == 2 * KEY_LENGTH && forall k | 0 <= k < |hex| :: HexVal(hex[k]) >= 0
  }

  lemma IsKeyMeansAllGood(hex: string)
    ensures IsKey(hex) <==> GoodPairs(hex) == KEY_LENGTH
  {
    if |hex| == 2 * KEY_LENGTH {
      if GoodPairs(hex) == KEY_LENGTH {
        forall k | 0 <= k < |hex| ensures HexVal(hex[k]) >= 0 { assert IsPair(hex, k / 2); }
      } else {
        assert !IsPair(hex, GoodPairs(hex));
      }
    }
  }

  function DecodedPrefix(hex: string): (r: seq<Octet>)
    ensures |r| == GoodPairs(hex)
  {
    seq(GoodPairs(hex), i requires 0 <= i < GoodPairs(hex) => PairValue(hex, i))
  }

  /** What a buffer holds after hex_to_bytes_32: the decoded octets over the front of what it held. */
  function Overwritten(before: seq<Octet>, hex: string): seq<Octet>
    requires |before| == KEY_LENGTH
  {
    DecodedPrefix(hex) + before[GoodPairs(hex)..]
  }

  /** hex_to_bytes_32 */
  method HexToBytes32(hex: string, out: array<Octet>) returns (ok: bool)
    requires out.Length == KEY_LENGTH
    modifies out
    ensures ok == IsKey(hex)
    ensures out[..] == Overwritten(old(out[..]), hex)
  {
    IsKeyMeansAllGood(hex);
    ghost var d := DecodedPrefix(hex);
    if |hex| != 2 * KEY_LENGTH {
      return false;
    }
    var i := 0;
    while i < KEY_LENGTH
      invariant 0 <= i <= |d|
      invariant forall k | 0 <= k < i :: out[k] == d[k]
      invariant forall k | i <= k < KEY_LENGTH :: out[k] == old(out[k])
    {
      var hi, lo := HexVal(hex[2 * i]), HexVal(hex[2 * i + 1]);
      if hi < 0 || lo < 0 {
        assert !IsPair(hex, i);
        return false;
      }
      assert IsPair(hex, i);
      out[i] := hi * 16 + lo;
      i := i + 1;
    }
    ok := true;
  }

  predicate IsHexDigit(c: char) {
    '0' <= c <= '9' || 'a' <= c <= 'f' || 'A' <= c <= 'F'
  }

  /** The value of a hex digit, of either case. */
  function DigitValue(c: char): int
    requires IsHexDigit(c)
  {
    c as int - if c <= '9' then 48 else if c <= 'F' then 55 else 87
  }

  /** A nibble prints as its digit in lower case, and digits of either case read as their values; anything else does not
      read. */
  lemma DigitsAre(n: nat, c: char)
    requires n < 16
    ensures Digit(n) as int == if n < 10 then 48 + n else 87 + n
    ensures HexVal(c) == if IsHexDigit(c) then DigitValue(c) else -1
  {
    assert n == 0 || n == 1 || n == 2 || n == 3 || n == 4 || n == 5 || n == 6 || n == 7 || n == 8 || n == 9 || n == 10
        || n == 11 || n == 12 || n == 13 || n == 14 || n == 15;
  }

  /** A key is 64 hex digits, of either case. */
  lemma KeysAre(hex: string)
    ensures IsKey(hex) <==> |hex| == 64 && forall k | 0 <= k < 64 :: IsHexDigit(hex[k])
  {
    forall k | 0 <= k < |hex| ensures HexVal(hex[k]) >= 0 <==> IsHexDigit(hex[k]) { DigitsAre(0, hex[k]); }
  }

  /** Octet i is overwritten, with the value of its pair of digits, exactly if the text has 64 characters of which
      those up to this pair are hex digits. */
  lemma OverwrittenAt(before: seq<Octet>, hex: string, i: nat)
    requires |before| == 32 && i < 32
    ensures |Overwritten(before, hex)| == 32
    ensures Overwritten(before, hex)[i] ==
            if |hex| == 64 && (forall k | 0 <= k < 2 * i + 2 :: IsHexDigit(hex[k]))
            then DigitValue(hex[2 * i]) * 16 + DigitValue(hex[2 * i + 1]) else before[i]
  {
    forall c: char ensures HexVal(c) >= 0 <==> IsHexDigit(c) { DigitsAre(0, c); }
    if |hex| == 64 {
      var r := GoodPairs(hex);
      if i < r {
        assert IsPair(hex, i);
        forall k | 0 <= k < 2 * i + 2 ensures IsHexDigit(hex[k]) { assert IsPair(hex, k / 2); }
        DigitsAre(0, hex[2 * i]);
        DigitsAre(0, hex[2 * i + 1]);
      } else {
        assert !IsPair(hex, r);
        assert !(IsHexDigit(hex[2 * r]) && IsHexDigit(hex[2 * r + 1]));
      }
    }
  }

  lemma DigitsInvert(n: nat)
    requires n < 16
    ensures HexVal(Digit(n)) == n
  {
  }

  lemma {:induction false} PrintedPair(b: seq<Octet>, i: nat)
    requires i < |b|
    ensures PrintHex(b)[2 * i] == Digit(b[i] / 16) && PrintHex(b)[2 * i + 1] == Digit(b[i] % 16)
    decreases |b|
  {
    if i < |b| - 1 { PrintedPair(b[..|b| - 1], i); }
  }

  /** Printing a key as hex and decoding it gives it back. */
  lemma HexRoundTrip(key: seq<Octet>)
    requires |key| == KEY_LENGTH
    ensures IsKey(PrintHex(key)) && DecodedPrefix(PrintHex(key)) == key
  {
    var hex := PrintHex(key);
    forall i | 0 <= i < KEY_LENGTH ensures IsPair(hex, i) && PairValue(hex, i) == key[i] {
      PrintedPair(key, i);
      DigitsInvert(key[i] / 16);
      DigitsInvert(key[i] % 16);
    }
    assert GoodPairs(hex) == KEY_LENGTH;
    IsKeyMeansAllGood(hex);
  }

  function LowerCase(c: char): char {
    if 'A' <= c <= 'F' then (c as int - 'A' as int + 'a' as int) as char else c
  }

  lemma DigitOfValue(c: char)
    requires HexVal(c) >= 0
    ensures Digit(HexVal(c)) == LowerCase(c)
  {
  }

  lemma Nibbles(b: Octet, hi: nat, lo: nat)
    requires b == hi * 16 + lo && hi < 16 && lo < 16
    ensures b / 16 == hi && b % 16 == lo
  {
  }

  lemma PrintsAsRead(hex: string, i: nat)
    requires IsKey(hex) && GoodPairs(hex) == KEY_LENGTH && i < KEY_LENGTH
    ensures PrintHex(DecodedPrefix(hex))[2 * i] == LowerCase(hex[2 * i])
    ensures PrintHex(DecodedPrefix(hex))[2 * i + 1] == LowerCase(hex[2 * i + 1])
  {
    var b := DecodedPrefix(hex);
    PrintedPair(b, i);
    assert IsPair(hex, i);
    Nibbles(b[i], HexVal(hex[2 * i]), HexVal(hex[2 * i + 1]));
    DigitOfValue(hex[2 * i]);
    DigitOfValue(hex[2 * i + 1]);
  }

  /** And a decoded key prints as the digits it was decoded from, in lower case; so keys that differ other than
      in case decode differently. */
  lemma HexIsCaseFolded(hex: string, k: nat)
    requires IsKey(hex) && k < |hex|
    ensures |DecodedPrefix(hex)| == KEY_LENGTH
    ensures PrintHex(DecodedPrefix(hex))[k] == LowerCase(hex[k])
  {
    IsKeyMeansAllGood(hex);
    PrintsAsRead(hex, k / 2);
    assert k == 2 * (k / 2) || k == 2 * (k / 2) + 1;
  }

  // ------------------------------------------------------- counts

  /** A NAS COUNT: 24 bits of overflow above 8 of sequence number. */
  datatype NasCount = NasCount(overflow: nat, seqNum: U8)

  /** (overflow << 8) | seq_num; the shift is one of 32 bits, so it drops what overflow has above 24. */
  function Pack(c: NasCount): U32 {
    c.overflow % 0x100_0000 * 0x100 + c.seqNum
  }

  function Unpack(n: U32): NasCount {
    NasCount(n / 0x100 % 0x100_0000, n % 0x100)
  }

  /** Packing and unpacking are inverse, the one for every 32-bit number, the other exactly where the overflow
      counter fits its 24 bits. */
  lemma PackInverts(c: NasCount, n: U32)
    ensures Pack(Unpack(n)) == n
    ensures Unpack(Pack(c)) == c <==> c.overflow < 0x100_0000
    ensures c.overflow < 0x100_0000 ==> Pack(c) == c.overflow * 256 + c.seqNum
    ensures Unpack(n) == NasCount(n / 256, n % 256)
  {
    assert Unpack(n).overflow == n / 0x100;
    assert Pack(c) / 0x100 == c.overflow % 0x100_0000;
  }

  // ------------------------------------------------------- the source

  datatype SecurityState = SecurityState(vectorPointer: nat, ul: NasCount, dl: NasCount)

  /** The source's NAS context, as far as the snapshot is made from it. */
  datatype Source = Source(supi: string, kamf: seq<seq<Octet>>, security: Option<SecurityState>)

  predicate ValidSource(s: Source) {
    && s.kamf != [] && (forall j | 0 <= j < |s.kamf| :: |s.kamf[j]| == KEY_LENGTH)
    && (s.security.Some? ==> s.security.value.vectorPointer < |s.kamf|)
  }

  function ActiveIndex(s: Source): nat {
    if s.security.Some? then s.security.value.vectorPointer else 0
  }

  function ActiveKamf(s: Source): seq<Octet>
    requires ValidSource(s)
  {
    s.kamf[ActiveIndex(s)]
  }

  /** The counts and the vector pointer that a snapshot takes; zero without a security context. */
  function CountsOf(s: Source): (r: (U32, U32, U32)) {
    match s.security
    case None => (0, 0, 0)
    case Some(c) => (Pack(c.ul), Pack(c.dl), AsU32(c.vectorPointer))
  }

  /** The snapshot made once the AUSF has confirmed: snapshot_from_nas_context on the printed active Kamf.
      Every other field is zero or empty. */
  function SnapshotOf(s: Source, kseafHex: string): Snapshot
    requires ValidSource(s)
  {
    var (ul, dl, pointer) := CountsOf(s);
    Snapshot(s.supi, "", s.supi, 0, "", 0, "", 0, "", "", dl, ul, pointer, PrintHex(ActiveKamf(s)), kseafHex,
             0, 0, 0, 0, 0, false, 0, 0, 0, "", "", 0, 0)
  }

  /** A snapshot has the SUPI, also for its context id, the Kseaf, and the print of the Kamf that the vector pointer of
      the security context selects, or else of the first. */
  lemma SnapshotTakesKeys(s: Source, kseafHex: string)
    requires ValidSource(s)
    ensures var r := SnapshotOf(s, kseafHex);
            && r.supi == s.supi && r.contextId == s.supi && r.kseaf == kseafHex
            && ActiveKamf(s) == s.kamf[if s.security.Some? then s.security.value.vectorPointer else 0]
            && r.kamf == PrintHex(ActiveKamf(s))
  {
  }

  /** It has that pointer in 32 bits and the packed counts, each zero where there is no security context. */
  lemma SnapshotTakesCounts(s: Source, kseafHex: string)
    requires ValidSource(s)
    ensures var r := SnapshotOf(s, kseafHex);
            match s.security
            case None => r.ulNasCount == 0 && r.dlNasCount == 0 && r.vectorPointer == 0
            case Some(c) =>
              r.ulNasCount == Pack(c.ul) && r.dlNasCount == Pack(c.dl) && r.vectorPointer == AsU32(c.vectorPointer)
  {
  }

  /** Every other text is empty, and every other number zero. */
  lemma SnapshotLeavesRest(s: Source, kseafHex: string)
    requires ValidSource(s)
    ensures var r := SnapshotOf(s, kseafHex);
            && r.traceId == r.targetSlice == r.dnn == r.sd == r.ip == r.upfNodeId == r.upfN4Addr == ""
            && r.pduSessionId == r.timestamp == r.sst == r.ranUeNgapId == r.amfUeNgapId == r.gnbAssocId == r.ncc == 0
            && r.sctpStreamRecv == r.sctpStreamSend == r.targetRanUeNgapId == r.targetGnbAssocId == 0
            && r.upfSeid == r.upfTeid == 0 && !r.ueContextRequest
  {
  }

  // ------------------------------------------------------- the target

  /** The octets at the target's Kamf of vector 0 after an attempt to restore. */
  function RestoredKamf(before: seq<Octet>, kseafHex: string, kamfHex: string): seq<Octet>
    requires |before| == KEY_LENGTH
  {
    if |kseafHex| == 2 * KEY_LENGTH && |kamfHex| == 2 * KEY_LENGTH && IsKey(kseafHex)
    then Overwritten(before, kamfHex) else before
  }

  /** The target's NAS context: one array for each authentication vector's Kamf, one for Kseaf. */
  class TargetContext {
    const kseaf: array<Octet>
    const kamf: seq<array<Octet>>
    var security: Option<SecurityState>
    var vectorsPresent: bool
    var securityAvailable: bool

    ghost predicate Valid()
      reads this
    {
      && kseaf.Length == KEY_LENGTH && kamf != []
      && (forall j | 0 <= j < |kamf| :: kamf[j].Length == KEY_LENGTH && kamf[j] != kseaf)
      && (forall i, j | 0 <= i < j < |kamf| :: kamf[i] != kamf[j])
      && (security.Some? ==> security.value.vectorPointer < |kamf|)
    }

    constructor (vectors: nat)
      requires vectors > 0
      ensures Valid() && |kamf| == vectors && fresh(kseaf) && (forall j | 0 <= j < vectors :: fresh(kamf[j]))
      ensures security == None && !vectorsPresent && !securityAvailable
    {
      var anchor := new Octet[KEY_LENGTH](_ => 0);
      var keys: seq<array<Octet>> := [];
      while |keys| < vectors
        invariant |keys| <= vectors
        invariant forall j | 0 <= j < |keys| :: fresh(keys[j]) && keys[j].Length == KEY_LENGTH && keys[j] != anchor
        invariant forall i, j | 0 <= i < j < |keys| :: keys[i] != keys[j]
      {
        var key := new Octet[KEY_LENGTH](_ => 0);
        keys := keys + [key];
      }
      kseaf, kamf := anchor, keys;
      security, vectorsPresent, securityAvailable := None, false, false;
    }

    /** restore_ue_security_context.  On failure only key buffers may have changed, and just so far as they
        could be decoded; on success both hold the whole decoding. */
    method RestoreSecurity(kseafHex: string, kamfHex: string, ulNasCount: U32, dlNasCount: U32) returns (ok: bool)
      requires Valid()
      modifies this, kseaf, kamf[0]
      ensures Valid()
      ensures ok == (IsKey(kseafHex) && IsKey(kamfHex))
      ensures security == if ok then Some(SecurityState(0, Unpack(ulNasCount), Unpack(dlNasCount))) else old(security)
      ensures ok ==> vectorsPresent && securityAvailable
      ensures !ok ==> vectorsPresent == old(vectorsPresent) && securityAvailable == old(securityAvailable)
      ensures kseaf[..] == if |kseafHex| == 2 * KEY_LENGTH && |kamfHex| == 2 * KEY_LENGTH
                           then Overwritten(old(kseaf[..]), kseafHex) else old(kseaf[..])
      ensures kamf[0][..] == RestoredKamf(old(kamf[0][..]), kseafHex, kamfHex)
    {
      if |kseafHex| != 2 * KEY_LENGTH || |kamfHex| != 2 * KEY_LENGTH {
        return false;
      }
      ok := HexToBytes32(kseafHex, kseaf);
      if !ok {
        return;
      }
      ok := HexToBytes32(kamfHex, kamf[0]);
      if !ok {
        return;
      }
      security := Some(SecurityState(0, Unpack(ulNasCount), Unpack(dlNasCount)));
      vectorsPresent := true;
      securityAvailable := true;
    }
  }

  /** A failed restore leaves the Kamf of vector 0 as it was exactly if the Kseaf was no key or what could be decoded
      of the new Kamf repeats what was there; every other vector's is out of its reach. */
  lemma FailedRestoreKeepsActive(before: seq<Octet>, kseafHex: string, kamfHex: string)
    requires |before| == KEY_LENGTH && !(IsKey(kseafHex) && IsKey(kamfHex))
    ensures RestoredKamf(before, kseafHex, kamfHex) == before <==>
            (IsKey(kseafHex) && |kamfHex| == 2 * KEY_LENGTH ==> DecodedPrefix(kamfHex) <= before)
  {
    var d := DecodedPrefix(kamfHex);
    if RestoredKamf(before, kseafHex, kamfHex) == Overwritten(before, kamfHex) {
      if d <= before { assert before == d + before[|d|..]; }
      assert Overwritten(before, kamfHex)[..|d|] == d;
    }
  }

  /** With valid keys the whole of it is the decoding. */
  lemma RestoredIsDecoded(before: seq<Octet>, kseafHex: string, kamfHex: string)
    requires |before| == KEY_LENGTH && IsKey(kseafHex) && IsKey(kamfHex)
    ensures RestoredKamf(before, kseafHex, kamfHex) == DecodedPrefix(kamfHex)
  {
    IsKeyMeansAllGood(kamfHex);
  }

  lemma CountsMigrate(s: Source, c: SecurityState)
    requires s.security == Some(c)
    ensures Unpack(CountsOf(s).0) == c.ul <==> c.ul.overflow < 0x100_0000
    ensures Unpack(CountsOf(s).1) == c.dl <==> c.dl.overflow < 0x100_0000
  {
    PackInverts(c.ul, 0);
    PackInverts(c.dl, 0);
  }

  /** Migration end to end: snapshot, JSON, restore.  The target's Kamf at its own vector pointer, 0, is the
      source's at its; each pair of counts is the same exactly if its overflow counter fits.  It succeeds
      exactly when the Kseaf that the AUSF handed out is a key. */
  lemma MigrationPreservesSecurity(s: Source, kseafHex: string, into: Snapshot, before: seq<Octet>)
    requires ValidSource(s) && |before| == KEY_LENGTH
    ensures var r := FromJson(ToJson(SnapshotOf(s, kseafHex)), into);
            && r.Some? && IsKey(r.value.kamf) && r.value.kseaf == kseafHex && r.value.supi == s.supi
            && (IsKey(kseafHex) ==> RestoredKamf(before, r.value.kseaf, r.value.kamf) == ActiveKamf(s))
            && (s.security.None? ==> r.value.ulNasCount == 0 == r.value.dlNasCount)
            && (s.security.Some? ==>
                  && (Unpack(r.value.ulNasCount) == s.security.value.ul <==> s.security.value.ul.overflow < 0x100_0000)
                  && (Unpack(r.value.dlNasCount) == s.security.value.dl <==> s.security.value.dl.overflow < 0x100_0000))
  {
    var snap := SnapshotOf(s, kseafHex);
    JsonRoundTrip(snap, into);
    HexRoundTrip(ActiveKamf(s));
    var r := FromJson(ToJson(snap), into).value;
    if IsKey(kseafHex) { RestoredIsDecoded(before, r.kseaf, r.kamf); }
    if s.security.Some? { CountsMigrate(s, s.security.value); }
  }

  /** The same on the target's memory. */
  method Migrate(s: Source, kseafHex: string, into: Snapshot, target: TargetContext) returns (ok: bool)
    requires ValidSource(s) && target.Valid()
    modifies target, target.kseaf, target.kamf[0]
    ensures ok == IsKey(kseafHex) && target.Valid()
    ensures ok ==> target.security.Some? && target.kamf[target.security.value.vectorPointer][..] == ActiveKamf(s)
    ensures ok && s.security.Some? ==>
              && (target.security.value.ul == s.security.value.ul <==> s.security.value.ul.overflow < 0x100_0000)
              && (target.security.value.dl == s.security.value.dl <==> s.security.value.dl.overflow < 0x100_0000)
    ensures !ok ==> target.security == old(target.security)
  {
    MigrationPreservesSecurity(s, kseafHex, into, target.kamf[0][..]);
    var snap := FromJson(ToJson(SnapshotOf(s, kseafHex)), into).value;
    ok := target.RestoreSecurity(snap.kseaf, snap.kamf, snap.ulNasCount, snap.dlNasCount);
  }

  /** Redis does not carry the counts: two sources that differ in them leave the same record, so no way
      of restoring from it gives both their counts back. */
  lemma RedisLosesCounts(s: Source, other: Source, kseafHex: string)
    requires ValidSource(s) && ValidSource(other) && s.security.Some? && other.security.Some?
    requires other.supi == s.supi && ActiveKamf(other) == ActiveKamf(s)
    ensures ToRecord(SnapshotOf(s, kseafHex)) == ToRecord(SnapshotOf(other, kseafHex))
  {
  }
}
