/** PDU session bitmaps: the sixteen bits of PDU session status, uplink data status and reactivation result (sections
    9.11.3.44, 9.11.3.57 and 9.11.3.42 of TS 24.501), and the loops that activate sessions by them. */
module PduBitmap {
  import opened Contexts

  /** std::bitset<16>; the high octet comes first on the wire. */
  type Bits = b: seq<bool> | |b| == 16
    witness [false, false, false, false, false, false, false, false,
             false, false, false, false, false, false, false, false]

  type SessionId = x: int | 0 <= x < 0x100

  const ZERO: Bits := [false, false, false, false, false, false, false, false,
                      false, false, false, false, false, false, false, false]

  // ------------------------------------------------------- the code

  /** The bit of a session id: ids 1 to 7 are in the high octet, 8 to 15 in the low one.  Bit 8 belongs to no
      session. */
  function Position(id: int): (p: int)
    ensures 1 <= id <= 15 ==> 0 <= p < 16 && p != 8
  {
    if id <= 7 then id + 8 else id - 8
  }

  /** The session id of a bit other than 8. */
  function IdAt(p: nat): (id: SessionId)
    requires p < 16 && p != 8
    ensures 1 <= id <= 15 && Position(id) == p
  {
    if p <= 7 then p + 8 else p - 8
  }

  function Decode(b: Bits): (r: set<SessionId>)
    ensures forall id | id in r :: 1 <= id <= 15
  {
    set id: SessionId | 1 <= id <= 15 && b[Position(id)]
  }

  function Encode(ids: set<SessionId>): Bits
    requires forall id | id in ids :: 1 <= id <= 15
  {
    seq(16, p requires 0 <= p < 16 => p != 8 && IdAt(p) in ids)
  }

  /** Which bits stand for which sessions: 1 to 7 have bits 9 to 15, and 8 to 15 have bits 0 to 7. */
  lemma DecodedBits(b: Bits, id: SessionId)
    ensures id in Decode(b) <==> (1 <= id <= 7 && b[id + 8]) || (8 <= id <= 15 && b[id - 8])
  {
  }

  /** The code is one to one between sets of ids 1 to 15 and bitmaps whose bit 8 is clear. */
  lemma BitmapRoundTrip(b: Bits, ids: set<SessionId>)
    requires forall id | id in ids :: 1 <= id <= 15
    ensures Decode(Encode(ids)) == ids
    ensures Encode(Decode(b)) == b <==> !b[8]
  {
    forall id: SessionId | 1 <= id <= 15 ensures id in Decode(Encode(ids)) <==> id in ids {
      assert IdAt(Position(id)) == id;
    }
    var c := Encode(Decode(b));
    assert !c[8];
    forall p: nat | p < 16 && p != 8 ensures c[p] == b[p] {
      assert Position(IdAt(p)) == p;
      assert c[p] <==> IdAt(p) in Decode(b);
    }
    if !b[8] { assert forall p: nat | p < 16 :: c[p] == b[p]; }
  }

  // ------------------------------------------------------- the functions on bitmaps

  /** get_pdu_session_to_be_activated: exactly the sessions whose bit is set, each once, low octet first. */
  method SessionsToActivate(status: Bits) returns (ids: seq<SessionId>)
    ensures forall id :: id in ids <==> id in Decode(status)
    ensures forall id | id in ids :: 1 <= id <= 15 && status[if id <= 7 then id + 8 else id - 8]
    ensures forall i, j | 0 <= i < j < |ids| :: Position(ids[i]) < Position(ids[j])
  {
    ids := [];
    var i := 0;
    while i <= 15
      invariant 0 <= i <= 16
      invariant forall id: SessionId :: id in ids <==> id in Decode(status) && Position(id) < i
      invariant forall m, n | 0 <= m < n < |ids| :: Position(ids[m]) < Position(ids[n])
    {
      if status[i] {
        if i <= 7 {
          assert IdAt(i) == 8 + i;
          ids := ids + [8 + i];
        } else if i > 8 {
          assert IdAt(i) == i - 8;
          ids := ids + [i - 8];
        }
      }
      i := i + 1;
    }
  }

  function WithBit(id: SessionId, b: Bits, value: bool): Bits {
    if 1 <= id <= 15 then b[Position(id) := value] else b
  }

  lemma WithBitDecodes(id: SessionId, b: Bits)
    ensures Decode(WithBit(id, b, false)) == Decode(b) - {id}
    ensures Decode(WithBit(id, b, true)) == if 1 <= id <= 15 then Decode(b) + {id} else Decode(b)
    ensures WithBit(id, b, true)[8] == b[8] && WithBit(id, b, false)[8] == b[8]
  {
    forall x: SessionId | 1 <= x <= 15 && 1 <= id <= 15 && Position(x) == Position(id) ensures x == id { }
  }

  /** set_pdu_session_status_inactive: the session leaves the status, and every other bit stays. */
  method SetStatusInactive(id: SessionId, status: Bits) returns (r: Bits)
    ensures Decode(r) == Decode(status) - {id} && r[8] == status[8]
  {
    WithBitDecodes(id, status);
    r := status;
    if id > 0 && id <= 7 { r := r[id + 8 := false]; }
    else if id > 7 && id <= 15 { r := r[id - 8 := false]; }
  }

  /** set_pdu_session_reactivation_result */
  method SetReactivationResult(id: SessionId, result: Bits) returns (r: Bits)
    ensures Decode(r) == (if 1 <= id <= 15 then Decode(result) + {id} else Decode(result)) && r[8] == result[8]
  {
    WithBitDecodes(id, result);
    r := result;
    if id > 0 && id <= 7 { r := r[id + 8 := true]; }
    else if id > 7 && id <= 15 { r := r[id - 8 := true]; }
  }

  // ------------------------------------------------------- the activation loop

  /** Which sessions a request asks to activate. */
  function Asked(uplink: Option<Bits>, status: Option<Bits>): set<SessionId> {
    if uplink.Some? then Decode(uplink.value) else if status.Some? then Decode(status.value) else {}
  }

  /** Those of them for which there is no N2 information once activation has been triggered. */
  function Lacking(uplink: Option<Bits>, status: Option<Bits>, hasN2: set<SessionId>): set<SessionId> {
    Asked(uplink, status) - hasN2
  }

  /** One session without N2 information, in the bitmaps whose information element is present. */
  method MarkLacking(id: SessionId, hasUplink: bool, hasStatus: bool, result: Bits, status: Bits)
    returns (newResult: Bits, newStatus: Bits)
    requires 1 <= id <= 15
    ensures Decode(newResult) == (if hasUplink then Decode(result) + {id} else Decode(result))
    ensures newResult[8] == result[8]
    ensures Decode(newStatus) == (if hasStatus then Decode(status) - {id} else Decode(status))
    ensures newStatus[8] == status[8]
  {
    newResult, newStatus := result, status;
    if hasUplink { newResult := SetReactivationResult(id, newResult); }
    if hasStatus { newStatus := SetStatusInactive(id, newStatus); }
  }

  function Listed(ids: seq<SessionId>): set<SessionId> {
    set id | id in ids
  }

  /** The loop itself, over the sessions to be activated. */
  method MarkAll(ids: seq<SessionId>, hasN2: set<SessionId>, hasUplink: bool, hasStatus: bool, status: Bits)
    returns (sessions: map<SessionId, bool>, newStatus: Bits, result: Bits)
    requires forall id | id in ids :: 1 <= id <= 15
    ensures sessions.Keys == Listed(ids) && forall id | id in sessions :: sessions[id] <==> id in hasN2
    ensures Decode(newStatus) == (if hasStatus then Decode(status) - (Listed(ids) - hasN2) else Decode(status))
    ensures Decode(result) == (if hasUplink then Listed(ids) - hasN2 else {})
    ensures newStatus[8] == status[8] && !result[8]
  {
    newStatus, result, sessions := status, ZERO, map[];
    ghost var missing: set<SessionId> := {};
    var i := 0;
    while i < |ids|
      invariant 0 <= i <= |ids| && missing == Listed(ids[..i]) - hasN2
      invariant sessions.Keys == Listed(ids[..i]) && forall id | id in sessions :: sessions[id] <==> id in hasN2
      invariant Decode(newStatus) == if hasStatus then Decode(status) - missing else Decode(status)
      invariant Decode(result) == if hasUplink then missing else {}
      invariant newStatus[8] == status[8] && !result[8]
    {
      var id := ids[i];
      ListedOneMore(ids, i, hasN2);
      if id !in hasN2 {
        assert 1 <= id <= 15 by { assert id in ids; }
        missing := missing + {id};
        result, newStatus := MarkLacking(id, hasUplink, hasStatus, result, newStatus);
      }
      if id !in sessions {
        sessions := sessions[id := id in hasN2];
      }
      i := i + 1;
    }
    assert ids[..i] == ids;
  }

  /** The activation of Service Request (Initial UE Message), Security Mode Complete and Mobility Registration Update,
      and the information elements that they set after it.  The status keeps all sessions but those lacking N2
      information, the reactivation result shows exactly those. */
  method ActivateSessions(uplink: Option<Bits>, status: Option<Bits>, hasN2: set<SessionId>)
    returns (sessions: map<SessionId, bool>, statusIe: Option<Bits>, resultIe: Option<Bits>)
    ensures sessions.Keys == Asked(uplink, status) && forall id | id in sessions :: sessions[id] <==> id in hasN2
    ensures sessions.Keys == if uplink.Some? then Decode(uplink.value)
                             else if status.Some? then Decode(status.value) else {}
    ensures statusIe.Some? <==> status.Some?
    ensures status.Some? ==> Decode(statusIe.value) == Decode(status.value) - Lacking(uplink, status, hasN2)
                             && statusIe.value[8] == status.value[8]
    ensures resultIe.Some? <==> uplink.Some?
    ensures uplink.Some? ==> Decode(resultIe.value) == Lacking(uplink, status, hasN2) && !resultIe.value[8]
    ensures Lacking(uplink, status, hasN2) == sessions.Keys - hasN2
  {
    var ids: seq<SessionId> := [];
    if uplink.Some? {
      ids := SessionsToActivate(uplink.value);
    } else if status.Some? {
      ids := SessionsToActivate(status.value);
    }
    assert Listed(ids) == Asked(uplink, status);
    assert forall id | id in ids :: id in Listed(ids);
    var newStatus, result;
    var held := if status.Some? then status.value else ZERO;
    sessions, newStatus, result := MarkAll(ids, hasN2, uplink.Some?, status.Some?, held);
    statusIe := if status.Some? then Some(newStatus) else None;
    resultIe := if uplink.Some? then Some(result) else None;
  }

  lemma ListedOneMore(ids: seq<SessionId>, i: nat, hasN2: set<SessionId>)
    requires i < |ids|
    ensures Listed(ids[..i + 1]) == Listed(ids[..i]) + {ids[i]}
    ensures Listed(ids[..i + 1]) - hasN2 == Listed(ids[..i]) - hasN2 + if ids[i] in hasN2 then {} else {ids[i]}
  {
    assert ids[..i + 1] == ids[..i] + [ids[i]];
  }

  /** A reactivation result names only sessions whose uplink data status bit is set, bit by bit; a status only
      loses bits. */
  lemma ResultWithinUplink(uplink: Bits, status: Option<Bits>, hasN2: set<SessionId>, result: Bits, p: nat)
    requires p < 16 && Decode(result) == Lacking(Some(uplink), status, hasN2) && !result[8]
    ensures result[p] ==> uplink[p]
  {
    if p != 8 {
      assert Position(IdAt(p)) == p;
      assert result[p] <==> IdAt(p) in Decode(result);
    }
  }

  /** Service Request in an Uplink NAS Transport sets its information elements before the loop and leaves them:
      what it sends is the status of the request and an empty result. */
  function EarlyIes(uplink: Option<Bits>, status: Option<Bits>): (Option<Bits>, Option<Bits>) {
    (status, if uplink.Some? then Some(ZERO) else None)
  }

  /** They agree with what the loop finds exactly when it finds no session lacking N2 information whose bit they should
      have changed. */
  lemma EarlyIesAreStale(uplink: Option<Bits>, status: Option<Bits>, hasN2: set<SessionId>,
                         statusIe: Option<Bits>, resultIe: Option<Bits>)
    requires (statusIe.Some? <==> status.Some?) && (resultIe.Some? <==> uplink.Some?)
    requires status.Some? ==> Decode(statusIe.value) == Decode(status.value) - Lacking(uplink, status, hasN2)
                              && statusIe.value[8] == status.value[8]
    requires uplink.Some? ==> Decode(resultIe.value) == Lacking(uplink, status, hasN2) && !resultIe.value[8]
    ensures EarlyIes(uplink, status) == (statusIe, resultIe) <==>
            (uplink.Some? || status.Some? ==> Lacking(uplink, status, hasN2) == {})
  {
    var lacking := Lacking(uplink, status, hasN2);
    assert Decode(ZERO) == {};
    if status.Some? { SameBits(status.value, statusIe.value); }
    if uplink.Some? { SameBits(ZERO, resultIe.value); }
    if uplink.None? && status.Some? { assert lacking <= Decode(status.value); }
  }

  lemma SameBits(a: Bits, b: Bits)
    requires a[8] == b[8]
    ensures a == b <==> Decode(a) == Decode(b)
  {
    if Decode(a) == Decode(b) {
      forall p: nat | p < 16 ensures a[p] == b[p] {
        if p != 8 { assert a[p] <==> IdAt(p) in Decode(a); }
      }
    }
  }
}
