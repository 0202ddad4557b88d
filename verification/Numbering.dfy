/** Downlink numbering over any sequence of calls of encode_nas_message_protected. */
module Numbering {
  import opened Contexts
  import opened NasSecurity

  datatype Call = Call(isNew: bool, headerType: Byte, msg: seq<Byte>)

  /** A call that returns early: its security context is too old for header type 3. */
  predicate Refused(e: Call) {
    e.headerType % 0x10 == INTEGRITY_NEW && !e.isNew
  }

  /** A call that frames its message. */
  predicate Frames(e: Call) {
    !Refused(e) && (e.headerType % 0x10 == INTEGRITY_CIPHERED || e.headerType % 0x10 == INTEGRITY_NEW)
  }

  /** The context after the calls, each of which leaves it as SecurityContext.EncodeProtected does. */
  function After(s: Security, calls: seq<Call>): Security
    decreases |calls|
  {
    if calls == [] then s else After(AfterProtect(s, calls[0].isNew, calls[0].headerType), calls[1..])
  }

  function Outputs(c: Crypto, s: Security, calls: seq<Call>): (r: seq<Option<seq<Byte>>>)
    ensures |r| == |calls|
    decreases |calls|
  {
    if calls == [] then []
    else
      var e := calls[0];
      [Protected(c, s, e.isNew, e.headerType, e.msg)] + Outputs(c, AfterProtect(s, e.isNew, e.headerType), calls[1..])
  }

  /** How many of the calls were not refused. */
  function Taken(calls: seq<Call>): nat
    decreases |calls|
  {
    if calls == [] then 0 else (if Refused(calls[0]) then 0 else 1) + Taken(calls[1..])
  }

  /** Both counts zeroed, as before the first Security Mode Command. */
  function Zeroed(k: Keys): Security {
    Security(k, Count(0, 0), Count(0, 0))
  }

  lemma WrapOnce(a: nat, n: nat)
    ensures ((a + 1) % 0x100 + n) % 0x100 == (a + (1 + n)) % 0x100
  {
    assert (a + 1) % 0x100 == a + 1 - (a + 1) / 0x100 * 0x100;
  }

  /** Calls move the downlink sequence number alone, by one each, but for the refused. */
  lemma {:induction false} NumberAfter(s: Security, calls: seq<Call>)
    ensures After(s, calls) == s.(dl := Count(s.dl.overflow, (s.dl.seqNum + Taken(calls)) % 0x100))
    decreases |calls|
  {
    if calls != [] {
      NumberAfter(AfterProtect(s, calls[0].isNew, calls[0].headerType), calls[1..]);
      WrapOnce(s.dl.seqNum, Taken(calls[1..]));
    }
  }

  lemma {:induction false} OutputAt(c: Crypto, s: Security, calls: seq<Call>, j: nat)
    requires j < |calls|
    ensures var e := calls[j];
            Outputs(c, s, calls)[j] == Protected(c, After(s, calls[..j]), e.isNew, e.headerType, e.msg)
    decreases j
  {
    if j > 0 {
      OutputAt(c, AfterProtect(s, calls[0].isNew, calls[0].headerType), calls[1..], j - 1);
      assert calls[..j][1..] == calls[1..][..j - 1];
    }
  }

  lemma {:induction false} TakenSplits(calls: seq<Call>, i: nat)
    requires i <= |calls|
    ensures Taken(calls) == Taken(calls[..i]) + Taken(calls[i..])
    decreases i
  {
    if i > 0 {
      TakenSplits(calls[1..], i - 1);
      assert calls[..i][1..] == calls[1..][..i - 1];
    }
  }

  /** The octet that numbers the output of call j. */
  function NumberOf(c: Crypto, s: Security, calls: seq<Call>, j: nat): Option<Byte>
    requires j < |calls|
  {
    match Outputs(c, s, calls)[j]
    case None => None
    case Some(f) => if |f| > SEQ_OCTET then Some(f[SEQ_OCTET]) else None
  }

  /** Numbering: after a new security context zeroed the counts, the k-th call not refused carries k - 1
      modulo 256 if it frames its message, and a refused call has no output and consumes no number. */
  lemma NumberedInOrder(c: Crypto, k: Keys, calls: seq<Call>, j: nat)
    requires !NullIntegrity(k) && j < |calls|
    ensures Frames(calls[j]) ==> NumberOf(c, Zeroed(k), calls, j) == Some(Taken(calls[..j]) % 0x100)
    ensures Refused(calls[j]) ==> Outputs(c, Zeroed(k), calls)[j] == None
                                  && After(Zeroed(k), calls[..j + 1]) == After(Zeroed(k), calls[..j])
  {
    var s := Zeroed(k);
    OutputAt(c, s, calls, j);
    NumberAfter(s, calls[..j]);
    NumberAfter(s, calls[..j + 1]);
    TakenSplits(calls[..j + 1], j);
    assert calls[..j + 1][..j] == calls[..j] && calls[..j + 1][j..] == [calls[j]];
    if Frames(calls[j]) {
      FrameParts(c, k, After(s, calls[..j]).dl, Downlink, calls[j].headerType % 0x10, calls[j].msg);
    }
  }

  lemma SameOctet(a: nat, n: nat)
    ensures a % 0x100 == (a + n) % 0x100 <==> n % 0x100 == 0
  {
  }

  /** Two framed messages carry the same octet exactly when the calls from one to the other took a multiple of
      256 numbers; so any 256 in a row are told apart by it. */
  lemma NumbersRepeatEvery256(c: Crypto, k: Keys, calls: seq<Call>, i: nat, j: nat)
    requires !NullIntegrity(k) && i < j < |calls| && Frames(calls[i]) && Frames(calls[j])
    ensures NumberOf(c, Zeroed(k), calls, i) == NumberOf(c, Zeroed(k), calls, j) <==>
            Taken(calls[i..j]) % 0x100 == 0
    ensures Taken(calls[i..j]) > 0
  {
    NumberedInOrder(c, k, calls, i);
    NumberedInOrder(c, k, calls, j);
    TakenSplits(calls[..j], i);
    assert calls[..j][..i] == calls[..i] && calls[..j][i..] == calls[i..j];
    assert calls[i..j][0] == calls[i];
    SameOctet(Taken(calls[..i]), Taken(calls[i..j]));
  }

  /** The COUNT that call j enciphers with. */
  function CountAt(s: Security, calls: seq<Call>, j: nat): nat
    requires j < |calls|
  {
    CipherCount(After(s, calls[..j]).dl)
  }

  lemma LowOctet(n: nat)
    ensures n % 0x100 == n % 0x100_0000 <==> n % 0x100_0000 < 0x100
  {
    assert n == n / 0x100_0000 * 0x100_0000 + n % 0x100_0000;
  }

  /** The overflow counter never moves, so ciphering goes through the same 256 COUNT values again and again:
      call j has the value that section 4.4.3.1 of TS 24.501 prescribes, the number of messages before it in
      24 bits, exactly while that is less than 256. */
  lemma CountRepeats(k: Keys, calls: seq<Call>, j: nat)
    requires j < |calls|
    ensures CountAt(Zeroed(k), calls, j) == Taken(calls[..j]) % 0x100
    ensures CountAt(Zeroed(k), calls, j) == Taken(calls[..j]) % 0x100_0000 <==> Taken(calls[..j]) % 0x100_0000 < 0x100
  {
    NumberAfter(Zeroed(k), calls[..j]);
    LowOctet(Taken(calls[..j]));
  }
}
