/** The NAS security layer: framing, MAC and ciphering of protected 5GMM messages.

    The algorithms themselves are the functions of a `Crypto` value; nothing is known of them.
    What is proved holds for every choice of them. */
module NasSecurity {
  import opened Contexts

  type Byte = x: int | 0 <= x < 0x100
  type Word = x: int | 0 <= x < 0x1_0000_0000

  datatype Direction = Uplink | Downlink

  /** mac(algorithm, key, COUNT, direction, message); stream(algorithm, key, COUNT, direction, length, i)
      is the i-th keystream octet; tail(algorithm, key, COUNT, direction, message, i) is what 128-NEA1 leaves
      in an octet past the end of the message.  BEARER is always 1. */
  datatype Crypto = Crypto(
    mac: (int, seq<Byte>, Byte, Direction, seq<Byte>) -> Word,
    stream: (int, seq<Byte>, nat, Direction, nat, nat) -> Byte,
    tail: (int, seq<Byte>, nat, Direction, seq<Byte>, nat) -> Byte)

  /** A NAS COUNT as nas_secu_ctx holds it. */
  datatype Count = Count(overflow: nat, seqNum: Byte)

  datatype Keys = Keys(knasInt: seq<Byte>, knasEnc: seq<Byte>, integrity: Byte, encryption: Byte)

  /** nas_secu_ctx, as far as the security layer uses it. */
  datatype Security = Security(keys: Keys, ul: Count, dl: Count)

  const EPD_5GMM: Byte := 0x7e
  const PLAIN: Byte := 0
  const INTEGRITY: Byte := 1
  const INTEGRITY_CIPHERED: Byte := 2
  const INTEGRITY_NEW: Byte := 3
  const INTEGRITY_CIPHERED_NEW: Byte := 4
  const SEQ_OCTET: nat := 6
  const HEADER_LENGTH: nat := 7
  const MIN_LENGTH: nat := 3
  const BUFFER_SIZE: nat := 4096

  // ------------------------------------------------------- octets and words

  function Pow2(n: nat): nat {
    if n == 0 then 1 else 2 * Pow2(n - 1)
  }

  /** Exclusive or of the n low bits. */
  function XorBits(n: nat, a: nat, b: nat): (r: nat)
    ensures r < Pow2(n)
  {
    if n == 0 then 0 else (if a % 2 == b % 2 then 0 else 1) + 2 * XorBits(n - 1, a / 2, b / 2)
  }

  /** Bit i of a number. */
  function BitAt(a: nat, i: nat): nat {
    if i == 0 then a % 2 else BitAt(a / 2, i - 1)
  }

  /** Bit by bit it tells whether the two differ. */
  lemma {:induction false} XorBitsAt(n: nat, a: nat, b: nat, i: nat)
    requires i < n
    ensures BitAt(XorBits(n, a, b), i) == if BitAt(a, i) == BitAt(b, i) then 0 else 1
  {
    var d := if a % 2 == b % 2 then 0 else 1;
    var r := d + 2 * XorBits(n - 1, a / 2, b / 2);
    assert r % 2 == d && r / 2 == XorBits(n - 1, a / 2, b / 2);
    if i > 0 { XorBitsAt(n - 1, a / 2, b / 2, i - 1); }
  }

  lemma XorAt(a: Byte, b: Byte, i: nat)
    requires i < 8
    ensures BitAt(Xor(a, b), i) == if BitAt(a, i) == BitAt(b, i) then 0 else 1
  {
    XorBitsAt(8, a, b, i);
  }

  lemma {:induction false} XorBitsTwice(n: nat, a: nat, b: nat)
    requires a < Pow2(n)
    ensures XorBits(n, XorBits(n, a, b), b) == a
  {
    if n > 0 {
      XorBitsTwice(n - 1, a / 2, b / 2);
      var x, h := XorBits(n, a, b), XorBits(n - 1, a / 2, b / 2);
      assert x / 2 == h && x % 2 == if a % 2 == b % 2 then 0 else 1;
    }
  }

  function Xor(a: Byte, b: Byte): Byte {
    assert Pow2(8) == 0x100;
    XorBits(8, a, b)
  }

  lemma XorTwice(a: Byte, b: Byte)
    ensures Xor(Xor(a, b), b) == a
  {
    assert Pow2(8) == 0x100;
    XorBitsTwice(8, a, b);
  }

  /** htonl, octet by octet */
  function BigEndian(w: Word): (r: seq<Byte>)
    ensures |r| == 4
  {
    [w / 0x100_0000, w / 0x1_0000 % 0x100, w / 0x100 % 0x100, w % 0x100]
  }

  /** ntohl */
  function FromBigEndian(b: seq<Byte>): Word
    requires |b| == 4
  {
    var b0: int, b1: int, b2: int, b3: int := b[0], b[1], b[2], b[3];
    b0 * 0x100_0000 + b1 * 0x1_0000 + b2 * 0x100 + b3
  }

  lemma BigEndianInverts(w: Word, b: seq<Byte>)
    requires |b| == 4
    ensures FromBigEndian(BigEndian(w)) == w
    ensures BigEndian(FromBigEndian(b)) == b
  {
    var b0: int, b1: int, b2: int := b[0], b[1], b[2];
    assert FromBigEndian(b) / 0x100_0000 == b0;
    assert FromBigEndian(b) / 0x1_0000 == b0 * 0x100 + b1;
    assert FromBigEndian(b) / 0x100 == b0 * 0x1_0000 + b1 * 0x100 + b2;
  }

  // ------------------------------------------------------- the two algorithms' use

  /** The COUNT that ciphering uses: 16 bits of the overflow counter above the sequence number. */
  function CipherCount(c: Count): nat {
    c.overflow % 0x1_0000 * 0x100 + c.seqNum
  }

  /** Whether output exists for this encryption algorithm; for others it is left unset. */
  predicate Enciphers(k: Keys) {
    k.encryption % 0x10 <= 2
  }

  /** 128-NEA1 works on 32-bit words and its whole output is kept. */
  function OutputLength(k: Keys, n: nat): (r: nat)
    ensures r >= n
  {
    if k.encryption % 0x10 == 1 then (n + 3) / 4 * 4 else n
  }

  /** Octet i of the output of 128-NEA1 and 128-NEA2. */
  function CipherOctet(c: Crypto, k: Keys, count: nat, d: Direction, msg: seq<Byte>, i: nat): Byte {
    var alg := k.encryption % 0x10;
    if i < |msg| then Xor(msg[i], c.stream(alg, k.knasEnc, count, d, |msg|, i))
    else c.tail(alg, k.knasEnc, count, d, msg, i)
  }

  function Ciphered(c: Crypto, k: Keys, count: nat, d: Direction, msg: seq<Byte>): (r: seq<Byte>)
    ensures |r| == OutputLength(k, |msg|)
  {
    if k.encryption % 0x10 == 0 then msg
    else seq(OutputLength(k, |msg|), i requires 0 <= i => CipherOctet(c, k, count, d, msg, i))
  }

  /** The MAC over a sequence number octet and what follows it.  Its COUNT is that octet alone;
      algorithms past 128-NIA2 leave the caller's zero. */
  function Mac(c: Crypto, k: Keys, d: Direction, covered: seq<Byte>): Word
    requires covered != []
  {
    var alg := k.integrity % 0x10;
    if 1 <= alg <= 2 then c.mac(alg, k.knasInt, covered[0], d, covered) else 0
  }

  predicate NullIntegrity(k: Keys) {
    k.integrity % 0x10 == 0
  }

  // ------------------------------------------------------- sending

  function Header(headerType: Byte, mac: Word): (r: seq<Byte>)
    ensures |r| == SEQ_OCTET
  {
    [EPD_5GMM, headerType] + BigEndian(mac)
  }

  /** What header type 2 carries of a message: its ciphertext, cut to the message's own length. */
  function Body(c: Crypto, k: Keys, count: Count, d: Direction, headerType: Byte, msg: seq<Byte>): (r: seq<Byte>)
    ensures |r| == |msg|
  {
    if headerType == INTEGRITY_CIPHERED then Ciphered(c, k, CipherCount(count), d, msg)[..|msg|] else msg
  }

  /** A protected message; under NIA0 the message goes out as it is. */
  function Frame(c: Crypto, k: Keys, count: Count, d: Direction, headerType: Byte, msg: seq<Byte>): seq<Byte> {
    if NullIntegrity(k) then msg
    else
      var covered := [count.seqNum] + Body(c, k, count, d, headerType, msg);
      Header(headerType, Mac(c, k, d, covered)) + covered
  }

  function Next(c: Count): Count {
    c.(seqNum := (c.seqNum + 1) % 0x100)
  }

  /** What a call of encode_nas_message_protected produces: None where it returns early,
      without output. */
  function Protected(c: Crypto, s: Security, isNew: bool, headerType: Byte, msg: seq<Byte>): Option<seq<Byte>> {
    var t := headerType % 0x10;
    if t == INTEGRITY_NEW && !isNew then None
    else if t == INTEGRITY_CIPHERED || t == INTEGRITY_NEW then Some(Frame(c, s.keys, s.dl, Downlink, t, msg))
    else Some([])
  }

  /** The context after it: every call but a refused one takes a number. */
  function AfterProtect(s: Security, isNew: bool, headerType: Byte): Security {
    if headerType % 0x10 == INTEGRITY_NEW && !isNew then s else s.(dl := Next(s.dl))
  }

  // ------------------------------------------------------- receiving

  /** check_security_header_type */
  function HeaderType(msg: seq<Byte>): Option<Byte> {
    if |msg| < MIN_LENGTH || msg[0] != EPD_5GMM || msg[1] % 0x10 > INTEGRITY_CIPHERED_NEW then None
    else if msg[1] % 0x10 != PLAIN && |msg| < MIN_LENGTH + HEADER_LENGTH then None
    else Some(msg[1] % 0x10)
  }

  /** A message whose MAC the uplink path checks. */
  predicate Checked(msg: seq<Byte>) {
    HeaderType(msg).Some? && HeaderType(msg).value >= INTEGRITY_CIPHERED
  }

  /** A checked message that passes; under NIA0 every one does. */
  predicate MacMatches(c: Crypto, k: Keys, msg: seq<Byte>) {
    Checked(msg) && (NullIntegrity(k) || Mac(c, k, Uplink, msg[SEQ_OCTET..]) == FromBigEndian(msg[2..SEQ_OCTET]))
  }

  /** The plain message the uplink path goes on with, if any. */
  function Received(c: Crypto, held: Option<Security>, msg: seq<Byte>): Option<seq<Byte>> {
    match HeaderType(msg)
    case None => None
    case Some(t) =>
      if t == PLAIN then Some(msg)
      else if t == INTEGRITY then Some(msg[HEADER_LENGTH..])
      else if held.None? then None
      else
        var k := held.value.keys;
        if !MacMatches(c, k, msg) then None
        else
          var count := CipherCount(Count(held.value.ul.overflow, msg[SEQ_OCTET]));
          Some(Ciphered(c, k, count, Uplink, msg[HEADER_LENGTH..]))
  }

  /** The security context after it: the sequence number of a checked message is kept, whether or not the
      MAC matches. */
  function AfterReceive(s: Security, msg: seq<Byte>): Security {
    if Checked(msg) then s.(ul := s.ul.(seqNum := msg[SEQ_OCTET])) else s
  }

  // ------------------------------------------------------- the properties

  /** Deciphering what was enciphered gives the message back, in its own octets. */
  lemma CipherInverts(c: Crypto, k: Keys, count: nat, d: Direction, msg: seq<Byte>)
    ensures Ciphered(c, k, count, d, Ciphered(c, k, count, d, msg)[..|msg|])[..|msg|] == msg
  {
    var once := Ciphered(c, k, count, d, msg)[..|msg|];
    var twice := Ciphered(c, k, count, d, once);
    forall i | 0 <= i < |msg| ensures twice[i] == msg[i] {
      XorTwice(msg[i], c.stream(k.encryption % 0x10, k.knasEnc, count, d, |msg|, i));
    }
  }

  /** Octet i of what carries a message: the message's own where it is not enciphered, or under NEA0; else that
      combined with the keystream of the algorithm, for the COUNT made of 16 bits of the overflow counter and the
      sequence number, and for the length of the message. */
  function CarriedOctet(c: Crypto, k: Keys, count: Count, d: Direction, enciphered: bool, msg: seq<Byte>, i: nat): Byte
    requires i < |msg|
  {
    var alg := k.encryption % 16;
    if !enciphered || alg == 0 then msg[i]
    else Xor(msg[i], c.stream(alg, k.knasEnc, count.overflow % 65536 * 256 + count.seqNum, d, |msg|, i))
  }

  /** Octets 2 to 5, where the MAC is, as a number, high octet first. */
  function MacOctets(f: seq<Byte>): int
    requires |f| >= 6
  {
    var f2: int, f3: int, f4: int, f5: int := f[2], f[3], f[4], f[5];
    f2 * 0x100_0000 + f3 * 0x1_0000 + f4 * 0x100 + f5
  }

  /** The parts a receiver takes a frame apart into.  A Security Mode Command, of header type 3, carries its message as
      it is; the MAC, high octet first, is that of the algorithm over what follows it, with the sequence number for its
      COUNT, and zero for an algorithm past NIA2. */
  lemma FrameParts(c: Crypto, k: Keys, count: Count, d: Direction, t: Byte, msg: seq<Byte>)
    requires !NullIntegrity(k)
    ensures var f := Frame(c, k, count, d, t, msg); var alg := k.integrity % 16;
            && |f| == 7 + |msg| && f[0] == 0x7e && f[1] == t && f[6] == count.seqNum
            && (forall i | 0 <= i < |msg| :: f[7..][i] == CarriedOctet(c, k, count, d, t == 2, msg, i))
            && (t != 2 ==> f[7..] == msg)
            && MacOctets(f) == if alg <= 2 then c.mac(alg, k.knasInt, count.seqNum, d, f[6..]) else 0
    ensures var f := Frame(c, k, count, d, t, msg);
            && f[HEADER_LENGTH..] == Body(c, k, count, d, t, msg)
            && FromBigEndian(f[2..SEQ_OCTET]) == Mac(c, k, d, f[SEQ_OCTET..])
  {
    var body := Body(c, k, count, d, t, msg);
    var covered := [count.seqNum] + body;
    var mac := Mac(c, k, d, covered);
    var f := Frame(c, k, count, d, t, msg);
    assert f[SEQ_OCTET..] == covered;
    assert f[2..SEQ_OCTET] == BigEndian(mac);
    BigEndianInverts(mac, BigEndian(mac));
    assert f[HEADER_LENGTH..] == body;
    forall i | 0 <= i < |msg| ensures f[7..][i] == CarriedOctet(c, k, count, d, t == 2, msg, i) {
      assert f[HEADER_LENGTH..][i] == body[i];
    }
  }

  /** Under NIA0 there is no frame, whatever the header type. */
  lemma NullFrame(c: Crypto, k: Keys, count: Count, d: Direction, t: Byte, msg: seq<Byte>)
    requires k.integrity % 16 == 0
    ensures Frame(c, k, count, d, t, msg) == msg
  {
  }

  /** What goes out: nothing if the call is refused, a frame for header types 2 and 3, and for any other no octet at
      all; every call that is not refused moves the downlink sequence number on, and nothing else. */
  lemma ProtectedExactly(c: Crypto, s: Security, isNew: bool, headerType: Byte, msg: seq<Byte>)
    ensures var t := headerType % 16; var out := Protected(c, s, isNew, headerType, msg);
            && (out.None? <==> t == 3 && !isNew)
            && (out.Some? ==> out.value == if t == 2 || t == 3 then Frame(c, s.keys, s.dl, Downlink, t, msg) else [])
    ensures var s' := AfterProtect(s, isNew, headerType);
            && s'.keys == s.keys && s'.ul == s.ul && s'.dl.overflow == s.dl.overflow
            && s'.dl.seqNum == if headerType % 16 == 3 && !isNew then s.dl.seqNum else (s.dl.seqNum + 1) % 256
  {
  }

  // ------------------------------------------------------- receiving, octet by octet

  /** Too short, no 5GMM message, or of an unknown header type. */
  predicate Dropped(f: seq<Byte>) {
    |f| < 3 || f[0] != 0x7e || f[1] % 16 > 4 || (f[1] % 16 != 0 && |f| < 10)
  }

  /** A plain message is taken whole, and one of header type 1 from octet 7 on, with whatever context. */
  lemma ReceivedUnchecked(c: Crypto, held: Option<Security>, f: seq<Byte>)
    ensures Dropped(f) ==> Received(c, held, f) == None
    ensures !Dropped(f) && f[1] % 16 == 0 ==> Received(c, held, f) == Some(f)
    ensures !Dropped(f) && f[1] % 16 == 1 ==> Received(c, held, f) == Some(f[7..])
  {
  }

  /** One of header type 2, 3 or 4 is accepted exactly with a context and, unless that says NIA0, the right MAC; what is
      read is its octets from 7 on, deciphered with the sequence number in octet 6. */
  lemma ReceivedChecked(c: Crypto, held: Option<Security>, f: seq<Byte>)
    requires !Dropped(f) && f[1] % 16 >= 2
    ensures held.None? ==> Received(c, held, f) == None
    ensures held.Some? ==>
              var s := held.value; var r := Received(c, held, f); var alg := s.keys.integrity % 16;
              (r.Some? <==> alg == 0 ||
                            MacOctets(f) == if alg <= 2 then c.mac(alg, s.keys.knasInt, f[6], Uplink, f[6..]) else 0)
    ensures held.Some? ==>
              var s := held.value; var r := Received(c, held, f); var n := |f| - 7;
              r.Some? ==>
                && |r.value| == (if s.keys.encryption % 16 == 1 then (n + 3) / 4 * 4 else n)
                && (forall i | 0 <= i < n ::
                      r.value[i] == CarriedOctet(c, s.keys, Count(s.ul.overflow, f[6]), Uplink, true, f[7..], i))
                && forall i | n <= i < |r.value| ::
                     r.value[i] == c.tail(1, s.keys.knasEnc, s.ul.overflow % 65536 * 256 + f[6], Uplink, f[7..], i)
  {
  }

  /** After it the sequence number of a checked message is held, whether it was accepted or not, and nothing else has
      changed. */
  lemma HeldAfter(s: Security, f: seq<Byte>)
    ensures var s' := AfterReceive(s, f);
            && s'.keys == s.keys && s'.dl == s.dl && s'.ul.overflow == s.ul.overflow
            && s'.ul.seqNum == if !Dropped(f) && f[1] % 16 >= 2 then f[6] else s.ul.seqNum
  {
  }

  /** The three header types under which a MAC is checked make no difference. */
  lemma CheckedAlike(c: Crypto, held: Option<Security>, s: Security, f: seq<Byte>, t: Byte)
    requires HeaderType(f) == Some(INTEGRITY_CIPHERED) && 2 <= t <= 4
    ensures Received(c, held, f[1 := t]) == Received(c, held, f) && AfterReceive(s, f[1 := t]) == AfterReceive(s, f)
  {
    var g := f[1 := t];
    assert g[2..SEQ_OCTET] == f[2..SEQ_OCTET] && g[SEQ_OCTET..] == f[SEQ_OCTET..];
    assert g[HEADER_LENGTH..] == f[HEADER_LENGTH..];
  }

  /** The round trip: an uplink message protected by the same keys and with an overflow counter that agrees on
      its 16 bits is accepted whatever sequence number the receiver held, and its octets come out as they
      went in; nothing follows them except under 128-NEA1, which fills its last word. */
  lemma ProtectedRoundTrip(c: Crypto, s: Security, sent: Count, msg: seq<Byte>)
    requires !NullIntegrity(s.keys) && sent.overflow % 0x1_0000 == s.ul.overflow % 0x1_0000
    ensures var f := Frame(c, s.keys, sent, Uplink, INTEGRITY_CIPHERED, msg);
            var r := Received(c, Some(s), f);
            && (r.Some? <==> |msg| >= MIN_LENGTH)
            && (r.Some? ==> msg <= r.value && |r.value| == OutputLength(s.keys, |msg|))
            && (r.Some? ==> AfterReceive(s, f) == s.(ul := s.ul.(seqNum := sent.seqNum)))
            && (r == Some(msg) <==> |msg| >= MIN_LENGTH && (s.keys.encryption % 0x10 == 1 ==> |msg| % 4 == 0))
  {
    var f := Frame(c, s.keys, sent, Uplink, INTEGRITY_CIPHERED, msg);
    FrameParts(c, s.keys, sent, Uplink, INTEGRITY_CIPHERED, msg);
    assert f[0] == f[..2][0] && f[1] == f[..2][1];
    assert CipherCount(Count(s.ul.overflow, f[SEQ_OCTET])) == CipherCount(sent);
    CipherInverts(c, s.keys, CipherCount(sent), Uplink, msg);
    var r := Received(c, Some(s), f);
    if |msg| >= MIN_LENGTH {
      assert HeaderType(f) == Some(INTEGRITY_CIPHERED);
      assert r.value[..|msg|] == msg;
      assert |r.value| == |msg| ==> r.value == msg;
    } else {
      assert HeaderType(f) == None;
    }
  }

  /** Under NIA0 a message is sent bare, and comes back exactly when it is a plain 5GMM message. */
  lemma BareRoundTrip(c: Crypto, s: Security, sent: Count, msg: seq<Byte>)
    requires NullIntegrity(s.keys)
    ensures var f := Frame(c, s.keys, sent, Uplink, INTEGRITY_CIPHERED, msg);
            && (Received(c, Some(s), f) == Some(msg) <==> HeaderType(msg) == Some(PLAIN))
            && (HeaderType(msg) == Some(PLAIN) ==> AfterReceive(s, f) == s)
  {
    var r := Received(c, Some(s), msg);
    assert r.Some? && HeaderType(msg) != Some(PLAIN) ==> |r.value| < |msg|;
  }

  /** Conversely, whatever is accepted under header type 2 is the frame of what was read from it, but for the bits
      above the header type in its second octet, which the receiver masks off: no other octets lead to that plain
      message under that sequence number. */
  lemma AcceptedIsFramed(c: Crypto, s: Security, f: seq<Byte>)
    requires !NullIntegrity(s.keys) && HeaderType(f) == Some(INTEGRITY_CIPHERED)
    ensures var r := Received(c, Some(s), f);
            var n := |f| - HEADER_LENGTH;
            r.Some? ==>
              && n <= |r.value|
              && var count := Count(s.ul.overflow, f[SEQ_OCTET]);
              var g := Frame(c, s.keys, count, Uplink, INTEGRITY_CIPHERED, r.value[..n]);
              f == g[1 := f[1]] && g[1] == f[1] % 0x10
  {
    var r := Received(c, Some(s), f);
    if r.Some? {
      var k, n, count := s.keys, |f| - HEADER_LENGTH, Count(s.ul.overflow, f[SEQ_OCTET]);
      CipherInverts(c, k, CipherCount(count), Uplink, f[HEADER_LENGTH..]);
      var covered := [count.seqNum] + Body(c, k, count, Uplink, INTEGRITY_CIPHERED, r.value[..n]);
      assert covered == f[SEQ_OCTET..];
      BigEndianInverts(0, f[2..SEQ_OCTET]);
      assert f == f[..2] + f[2..SEQ_OCTET] + f[SEQ_OCTET..];
    }
  }

  // ------------------------------------------------------- the security context in memory

  class SecurityContext {
    var keys: Keys
    var ul: Count
    var dl: Count

    function View(): Security
      reads this
    {
      Security(keys, ul, dl)
    }

    /** nas_message_integrity_protected, on the octets from the sequence number on. */
    method IntegrityProtected(c: Crypto, d: Direction, covered: seq<Byte>) returns (ok: bool, mac: Word)
      requires covered != []
      modifies this`ul
      ensures ok == !NullIntegrity(keys)
      ensures ok ==> mac == Mac(c, keys, d, covered)
      ensures View() == if d == Uplink then old(View()).(ul := old(ul).(seqNum := covered[0])) else old(View())
    {
      var count := covered[0];
      if d == Uplink {
        ul := ul.(seqNum := count);
      }
      ok, mac := true, 0;
      match keys.integrity % 0x10
      case 0 => ok := false;
      case 1 => mac := c.mac(1, keys.knasInt, count, d, covered);
      case 2 => mac := c.mac(2, keys.knasInt, count, d, covered);
      case _ =>
    }

    /** nas_message_cipher_protected */
    method CipherProtected(c: Crypto, d: Direction, input: seq<Byte>) returns (output: seq<Byte>)
      requires Enciphers(keys)
      ensures output == Ciphered(c, keys, CipherCount(if d == Downlink then dl else ul), d, input)
    {
      var count := CipherCount(if d == Downlink then dl else ul);
      var alg, n := keys.encryption % 0x10, |input|;
      if alg == 0 {
        return input;
      }
      var len := if alg == 1 then (n * 8 + 31) / 32 * 4 else n;
      var ciphered := new Byte[len](_ => 0);
      var i := 0;
      while i < len
        invariant 0 <= i <= len
        invariant ciphered[..i] == Ciphered(c, keys, count, d, input)[..i]
      {
        ciphered[i] := CipherOctet(c, keys, count, d, input, i);
        i := i + 1;
      }
      output := ciphered[..];
    }

    /** The header but for the MAC, and behind it the message; of a padded ciphertext, all of it. */
    static method LayOut(buf: array<Byte>, t: Byte, seqNum: Byte, carried: seq<Byte>, n: nat)
      requires buf.Length == BUFFER_SIZE && HEADER_LENGTH + |carried| <= BUFFER_SIZE && n <= |carried|
      modifies buf
      ensures buf[..2] == [EPD_5GMM, t] && buf[SEQ_OCTET..HEADER_LENGTH + n] == [seqNum] + carried[..n]
    {
      buf[0], buf[1], buf[SEQ_OCTET] := EPD_5GMM, t, seqNum;
      forall i | 0 <= i < |carried| { buf[HEADER_LENGTH + i] := carried[i]; }
    }

    /** The MAC goes behind the first two octets of the header. */
    static method PutMac(buf: array<Byte>, mac: Word, size: nat)
      requires buf.Length == BUFFER_SIZE && SEQ_OCTET <= size <= BUFFER_SIZE
      modifies buf
      ensures buf[..size] == old(buf[..2]) + BigEndian(mac) + old(buf[SEQ_OCTET..size])
    {
      var word := BigEndian(mac);
      forall i | 0 <= i < 4 { buf[2 + i] := word[i]; }
    }

    static method PutPlain(buf: array<Byte>, input: seq<Byte>)
      requires buf.Length == BUFFER_SIZE && |input| <= BUFFER_SIZE
      modifies buf
      ensures buf[..|input|] == input
    {
      forall i | 0 <= i < |input| { buf[i] := input[i]; }
    }

    /** The middle of encode_nas_message_protected: the frame is built in a fixed buffer. */
    method BuildFrame(c: Crypto, t: Byte, carried: seq<Byte>, input: seq<Byte>, buf: array<Byte>) returns (size: nat)
      requires t == INTEGRITY_CIPHERED || t == INTEGRITY_NEW
      requires buf.Length == BUFFER_SIZE && HEADER_LENGTH + |carried| <= BUFFER_SIZE
      requires |input| <= |carried| && carried[..|input|] == Body(c, keys, dl, Downlink, t, input)
      modifies buf, this`ul
      ensures size <= BUFFER_SIZE && buf[..size] == Frame(c, keys, dl, Downlink, t, input)
      ensures ul == old(ul)
    {
      LayOut(buf, t, dl.seqNum, carried, |input|);
      size := HEADER_LENGTH + |input|;
      var ok, mac := IntegrityProtected(c, Downlink, buf[SEQ_OCTET..size]);
      if ok {
        PutMac(buf, mac, size);
      } else {
        PutPlain(buf, input);
        size := |input|;
      }
    }

    /** encode_nas_message_protected */
    method EncodeProtected(c: Crypto, isNew: bool, headerType: Byte, input: seq<Byte>)
      returns (protectedNas: Option<seq<Byte>>)
      requires headerType % 0x10 == INTEGRITY_CIPHERED ==>
                 Enciphers(keys) && HEADER_LENGTH + OutputLength(keys, |input|) <= BUFFER_SIZE
      requires headerType % 0x10 == INTEGRITY_NEW && isNew ==> HEADER_LENGTH + |input| <= BUFFER_SIZE
      modifies this`dl, this`ul
      ensures protectedNas == Protected(c, old(View()), isNew, headerType, input)
      ensures View() == AfterProtect(old(View()), isNew, headerType)
    {
      var buf := new Byte[BUFFER_SIZE](_ => 0);
      var size := 0;
      match headerType % 0x10 {
      case 2 =>
        var ciphered := CipherProtected(c, Downlink, input);
        size := BuildFrame(c, INTEGRITY_CIPHERED, ciphered, input, buf);
      case 3 =>
        if !isNew {
          return None;
        }
        assert input[..|input|] == input;
        size := BuildFrame(c, INTEGRITY_NEW, input, input, buf);
      case _ =>
      }
      protectedNas := Some(buf[..size]);
      dl := Next(dl);
    }
  }

  /** The uplink path from the header check to the plain message. */
  method Unprotect(c: Crypto, ctx: SecurityContext?, msg: seq<Byte>) returns (plain: Option<seq<Byte>>)
    requires ctx != null && MacMatches(c, ctx.keys, msg) ==> Enciphers(ctx.keys)
    modifies ctx
    ensures plain == Received(c, if ctx == null then None else Some(old(ctx.View())), msg)
    ensures ctx != null ==> ctx.View() == AfterReceive(old(ctx.View()), msg)
  {
    var t := HeaderType(msg);
    if t.None? {
      return None;
    }
    match t.value
    case 0 => plain := Some(msg);
    case 1 => plain := Some(msg[HEADER_LENGTH..]);
    case _ =>
      if ctx == null {
        return None;
      }
      var ok, mac := ctx.IntegrityProtected(c, Uplink, msg[SEQ_OCTET..]);
      if ok && mac != FromBigEndian(msg[2..SEQ_OCTET]) {
        return None;
      }
      var output := ctx.CipherProtected(c, Uplink, msg[HEADER_LENGTH..]);
      plain := Some(output);
  }
}
