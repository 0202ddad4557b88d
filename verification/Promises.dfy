/** The table of promises that answers of other network functions fulfil, and the deactivation of a UE's
    user planes, which waits for one such answer for every PDU session. */
module Promises {
  import opened Contexts

  type PromiseId = nat
  type SessionId = nat

  /** An answer, by the HTTP response code it carries, if any. */
  datatype Answer = Answer(httpCode: Option<int>)

  /** An answer on its way to a promise. */
  datatype Arrival = Arrival(id: PromiseId, answer: Answer)

  // ------------------------------------------------------- the answers that count

  /** The first answer to a promise. */
  function FirstAnswer(log: seq<Arrival>, id: PromiseId): (r: Option<Answer>)
    ensures r.None? <==> forall i | 0 <= i < |log| :: log[i].id != id
    decreases |log|
  {
    if log == [] then None
    else if log[0].id == id then Some(log[0].answer)
    else FirstAnswer(log[1..], id)
  }

  /** Later answers make no difference. */
  lemma {:induction false} FirstAnswerStays(log: seq<Arrival>, more: seq<Arrival>, id: PromiseId)
    ensures FirstAnswer(log + more, id) ==
            if FirstAnswer(log, id).Some? then FirstAnswer(log, id) else FirstAnswer(more, id)
    decreases |log|
  {
    if log == [] {
      assert log + more == more;
    } else {
      assert (log + more)[1..] == log[1..] + more;
      FirstAnswerStays(log[1..], more, id);
    }
  }

  /** Nor does the order in which two promises are answered. */
  lemma AnswerOrderIrrelevant(before: seq<Arrival>, a: Arrival, b: Arrival, after: seq<Arrival>, id: PromiseId)
    requires a.id != b.id
    ensures FirstAnswer(before + [a, b] + after, id) == FirstAnswer(before + [b, a] + after, id)
  {
    FirstAnswerStays(before + [a, b], after, id);
    FirstAnswerStays(before + [b, a], after, id);
    FirstAnswerStays(before, [a, b], id);
    FirstAnswerStays(before, [b, a], id);
    assert [a, b][1..] == [b] && [b, a][1..] == [a];
  }

  lemma OneMoreAnswer(log: seq<Arrival>, start: nat, id: PromiseId, e: Arrival)
    requires start <= |log|
    ensures FirstAnswer((log + [e])[start..], id) ==
            if FirstAnswer(log[start..], id).None? && e.id == id then Some(e.answer) else FirstAnswer(log[start..], id)
  {
    assert (log + [e])[start..] == log[start..] + [e];
    FirstAnswerStays(log[start..], [e], id);
  }

  // ------------------------------------------------------- the table

  /** A promise and the future got from it. */
  class Promise {
    var value: Option<Answer>
    ghost const id: PromiseId

    constructor (ghost id: PromiseId)
      ensures value == None && this.id == id
    {
      value := None;
      this.id := id;
    }

    /** A second value would throw. */
    method SetValue(answer: Answer)
      requires value.None?
      modifies this
      ensures value == Some(answer)
    {
      value := Some(answer);
    }
  }

  class PromiseTable {
    var pending: map<PromiseId, Promise>
    var nextId: PromiseId

    // every promise added, the answers that came, and how many had come when it was added
    ghost var all: map<PromiseId, Promise>
    ghost var log: seq<Arrival>
    ghost var since: map<PromiseId, nat>

    /** The value of a promise, at any time, is the first answer to it since it was added; it is in the table
        while there is none. */
    ghost predicate Tracks(id: PromiseId)
      requires id in all
      reads this, all[id]
    {
      && all[id].id == id && id < nextId && id in since && since[id] <= |log|
      && all[id].value == FirstAnswer(log[since[id]..], id)
      && (id in pending <==> all[id].value.None?)
      && (id in pending ==> pending[id] == all[id])
    }

    ghost predicate Valid()
      reads this, all.Values
    {
      && pending.Keys <= all.Keys
      && (forall id | id in all :: Tracks(id))
    }

    constructor ()
      ensures Valid() && pending == map[] && all == map[] && log == []
    {
      pending, nextId, all, log, since := map[], 0, map[], [], map[];
    }

    method GeneratePromiseId() returns (id: PromiseId)
      requires Valid()
      modifies this`nextId
      ensures Valid() && id == old(nextId) && nextId == id + 1 && id !in all
    {
      assert nextId in all ==> Tracks(nextId);
      id := nextId;
      nextId := nextId + 1;
      assert forall i | i in all :: old(Tracks(i)) ==> Tracks(i);
    }

    /** emplace: an id that is in the table keeps its promise. */
    method AddPromise(id: PromiseId, p: Promise)
      requires Valid() && id < nextId && p.id == id && p.value.None?
      modifies this`pending, this`all, this`since
      ensures Valid()
      ensures id in old(pending) ==> pending == old(pending) && all == old(all) && since == old(since)
      ensures id !in old(pending) ==>
                pending == old(pending)[id := p] && all == old(all)[id := p] && since == old(since)[id := |log|]
    {
      if id in pending {
        return;
      }
      pending, all, since := pending[id := p], all[id := p], since[id := |log|];
      assert log[|log|..] == [];
      forall i | i in all ensures Tracks(i) {
        if i != id { assert old(Tracks(i)); }
      }
    }

    /** An answer fulfils its promise and takes it out of the table; without such a promise it is dropped. */
    method TriggerProcessResponse(id: PromiseId, answer: Answer)
      requires Valid()
      modifies this`pending, this`log, all.Values
      ensures Valid() && log == old(log) + [Arrival(id, answer)]
      ensures pending == Without(old(pending), id)
    {
      assert id in all ==> Tracks(id);
      if id in pending {
        pending[id].SetValue(answer);
      }
      pending := Without(pending, id);
      log := log + [Arrival(id, answer)];
      forall i | i in all ensures Tracks(i) {
        assert old(Tracks(i));
        OneMoreAnswer(old(log), since[i], i, Arrival(id, answer));
      }
    }

    /** Some answers, in the order they arrive in. */
    method Deliver(batch: seq<Arrival>)
      requires Valid()
      modifies this`pending, this`log, all.Values
      ensures Valid() && log == old(log) + batch && all == old(all) && since == old(since)
      ensures forall i | i in pending :: i in old(pending)
    {
      var k := 0;
      while k < |batch|
        invariant 0 <= k <= |batch| && Valid() && log == old(log) + batch[..k]
        invariant forall i | i in pending :: i in old(pending)
      {
        TriggerProcessResponse(batch[k].id, batch[k].answer);
        assert batch[..k + 1] == batch[..k] + [batch[k]];
        k := k + 1;
      }
      assert batch[..k] == batch;
    }
  }

  // ------------------------------------------------------- user plane deactivation

  datatype UpState = Activated | Activating | Deactivated

  /** The PDU sessions of a ue_context, by the state of their user plane. */
  class UeSessions {
    var up: map<SessionId, UpState>

    constructor (up: map<SessionId, UpState>)
      ensures this.up == up
    {
      this.up := up;
    }
  }

  /** The answers that arrive before wait k ends or times out, for k = 0, 1, 2, ...; each batch in its order. */
  type Schedule = seq<seq<Arrival>>

  function Batch(schedule: Schedule, k: nat): seq<Arrival> {
    if k < |schedule| then schedule[k] else []
  }

  /** All that has arrived by the end of k waits. */
  function Arrived(schedule: Schedule, k: nat): seq<Arrival> {
    if k == 0 then [] else Arrived(schedule, k - 1) + Batch(schedule, k - 1)
  }

  function ToSet(sessions: seq<SessionId>): set<SessionId> {
    set s | s in sessions
  }

  /** How many sessions are waited for before this one: those of smaller id. */
  function Rank(ids: set<SessionId>, s: SessionId): nat {
    |set t | t in ids && t < s|
  }

  predicate Distinct(sessions: seq<SessionId>) {
    forall i, j | 0 <= i < j < |sessions| :: sessions[i] != sessions[j]
  }

  predicate Succeeded(a: Option<Answer>) {
    a.Some? && a.value.httpCode.Some? && a.value.httpCode.value in {200, 204}
  }

  /** The first answer to the session's own promise came by the end of its wait, and was 200 or 204. */
  predicate Released(pids: map<SessionId, PromiseId>, schedule: Schedule, s: SessionId) {
    s in pids && Succeeded(FirstAnswer(Arrived(schedule, Rank(pids.Keys, s) + 1), pids[s]))
  }

  /** Arrival i of batch k is an answer to this promise, and none came before it. */
  predicate ComesFirst(schedule: Schedule, k: nat, i: nat, id: PromiseId) {
    && k < |schedule| && i < |schedule[k]| && schedule[k][i].id == id
    && (forall j | 0 <= j < i :: schedule[k][j].id != id)
    && (forall l, j | 0 <= l < k && 0 <= j < |schedule[l]| :: schedule[l][j].id != id)
  }

  lemma {:induction false} FirstWithin(log: seq<Arrival>, id: PromiseId, i: nat)
    requires i < |log| && log[i].id == id && forall j | 0 <= j < i :: log[j].id != id
    ensures FirstAnswer(log, id) == Some(log[i].answer)
    decreases |log|
  {
    if i > 0 { FirstWithin(log[1..], id, i - 1); }
  }

  /** Nothing has come for a promise by the end of n waits exactly if no batch up to then has an answer to it. */
  lemma {:induction false} NoneBy(schedule: Schedule, n: nat, id: PromiseId)
    ensures FirstAnswer(Arrived(schedule, n), id).None? <==>
            forall l, j | 0 <= l < n && l < |schedule| && 0 <= j < |schedule[l]| :: schedule[l][j].id != id
    decreases n
  {
    if n > 0 {
      NoneBy(schedule, n - 1, id);
      FirstAnswerStays(Arrived(schedule, n - 1), Batch(schedule, n - 1), id);
    }
  }

  /** The first answer by the end of n waits is the one that comes first in those batches. */
  lemma {:induction false} FirstBy(schedule: Schedule, n: nat, k: nat, i: nat, id: PromiseId)
    requires k < n && ComesFirst(schedule, k, i, id)
    ensures FirstAnswer(Arrived(schedule, n), id) == Some(schedule[k][i].answer)
    decreases n
  {
    FirstAnswerStays(Arrived(schedule, n - 1), Batch(schedule, n - 1), id);
    if k < n - 1 {
      FirstBy(schedule, n - 1, k, i, id);
    } else {
      NoneBy(schedule, n - 1, id);
      FirstWithin(schedule[k], id, i);
    }
  }

  /** Which sessions are deactivated: those whose first answer of all is in a batch up to that of their own wait, which
      is as many waits after the first as there are sessions of smaller id, and carries 200 or 204. */
  lemma ReleasedExactly(pids: map<SessionId, PromiseId>, schedule: Schedule, s: SessionId, k: nat, i: nat)
    requires s in pids && ComesFirst(schedule, k, i, pids[s])
    ensures Released(pids, schedule, s) <==>
            k <= |set t | t in pids && t < s| && schedule[k][i].answer.httpCode in {Some(200), Some(204)}
  {
    var n := |set t | t in pids && t < s|;
    assert (set t | t in pids && t < s) == (set t | t in pids.Keys && t < s);
    if k <= n { FirstBy(schedule, n + 1, k, i, pids[s]); } else { NoneBy(schedule, n + 1, pids[s]); }
  }

  /** And none to whose promise no answer comes. */
  lemma UnansweredStays(pids: map<SessionId, PromiseId>, schedule: Schedule, s: SessionId)
    requires s in pids ==> forall l, j | 0 <= l < |schedule| && 0 <= j < |schedule[l]| :: schedule[l][j].id != pids[s]
    ensures !Released(pids, schedule, s)
  {
    if s in pids { NoneBy(schedule, Rank(pids.Keys, s) + 1, pids[s]); }
  }

  /** Each session's promise was drawn in its turn. */
  predicate InTurn(pids: map<SessionId, PromiseId>, sessions: seq<SessionId>, first: PromiseId) {
    && pids.Keys == ToSet(sessions)
    && forall j | 0 <= j < |sessions| :: sessions[j] in pids && pids[sessions[j]] == first + j
  }

  /** The session's future is that of its promise, which was added when `start` answers had come. */
  ghost predicate Awaits(all: map<PromiseId, Promise>, since: map<PromiseId, nat>, responses: map<SessionId, Promise>,
                         s: SessionId, id: PromiseId, start: nat)
  {
    id in all && s in responses && responses[s] == all[id] && id in since && since[id] == start
  }

  lemma StillAwait(all: map<PromiseId, Promise>, since: map<PromiseId, nat>, responses: map<SessionId, Promise>,
                   pids: map<SessionId, PromiseId>, pids': map<SessionId, PromiseId>, start: nat,
                   s: SessionId, id: PromiseId, p: Promise)
    requires forall t | t in pids :: Awaits(all, since, responses, t, pids[t], start)
    requires id !in all && pids' == pids[s := id]
    ensures forall t | t in pids' :: Awaits(all[id := p], since[id := start], responses[s := p], t, pids'[t], start)
  {
    forall t | t in pids' ensures Awaits(all[id := p], since[id := start], responses[s := p], t, pids'[t], start) {
      if t != s { assert Awaits(all, since, responses, t, pids[t], start); }
    }
  }

  lemma OneMoreInTurn(pids: map<SessionId, PromiseId>, sessions: seq<SessionId>, i: nat, first: PromiseId)
    requires Distinct(sessions) && i < |sessions| && InTurn(pids, sessions[..i], first)
    ensures InTurn(pids[sessions[i] := first + i], sessions[..i + 1], first)
  {
    assert sessions[..i + 1] == sessions[..i] + [sessions[i]];
    forall j | 0 <= j < i ensures sessions[..i + 1][j] == sessions[..i][j] != sessions[i] { }
  }

  /** What was not in the table before is new. */
  twostate predicate Extended(table: PromiseTable)
    reads table
  {
    forall id | id in table.all ::
      fresh(table.all[id]) || (id in old(table.all) && table.all[id] == old(table.all)[id])
  }

  /** One promise for each session, in the table and kept by session id. */
  method SendRequests(table: PromiseTable, sessions: seq<SessionId>)
    returns (responses: map<SessionId, Promise>, ghost pids: map<SessionId, PromiseId>)
    requires table.Valid() && Distinct(sessions)
    modifies table`pending, table`nextId, table`all, table`since
    ensures table.Valid() && table.log == old(table.log) && Extended(table)
    ensures InTurn(pids, sessions, old(table.nextId)) && responses.Keys == pids.Keys
    ensures forall s | s in pids :: Awaits(table.all, table.since, responses, s, pids[s], |table.log|)
  {
    ghost var first := table.nextId;
    responses, pids := map[], map[];
    var i := 0;
    while i < |sessions|
      invariant 0 <= i <= |sessions| && table.Valid() && table.nextId == first + i
      invariant InTurn(pids, sessions[..i], first) && responses.Keys == pids.Keys
      invariant forall s | s in pids :: Awaits(table.all, table.since, responses, s, pids[s], |table.log|)
      invariant Extended(table)
    {
      var id := table.GeneratePromiseId();
      var p := new Promise(id);
      StillAwait(table.all, table.since, responses, pids, pids[sessions[i] := id], |table.log|, sessions[i], id, p);
      OneMoreInTurn(pids, sessions, i, first);
      responses, pids := responses[sessions[i] := p], pids[sessions[i] := id];
      table.AddPromise(id, p);
      i := i + 1;
    }
    assert sessions[..i] == sessions;
  }

  /** One wait, during which a batch arrives, and what follows from its result. */
  method WaitFor(table: PromiseTable, uc: UeSessions, s: SessionId, future: Promise, batch: seq<Arrival>,
                 ghost id: PromiseId)
    requires table.Valid() && id in table.all && future == table.all[id] && id in table.since
    modifies table`pending, table`log, table.all.Values, uc
    ensures table.Valid() && table.log == old(table.log) + batch && table.since[id] <= |table.log|
    ensures table.all == old(table.all) && table.since == old(table.since)
    ensures uc.up == if Succeeded(FirstAnswer(table.log[table.since[id]..], id)) then old(uc.up)[s := Deactivated]
                     else old(uc.up)
  {
    table.Deliver(batch);
    assert table.Tracks(id);
    var result := future.value;
    if result.Some? && result.value.httpCode.Some? {
      var code := result.value.httpCode.value;
      if code == 200 || code == 204 {
        uc.up := uc.up[s := Deactivated];
      }
    }
  }

  /** The sessions waited for before s are those that are out of the map. */
  lemma RankIsCount(ids: set<SessionId>, done: set<SessionId>, left: set<SessionId>, s: SessionId)
    requires ids == done + left && s in left && (forall t | t in left :: s <= t) && (forall t | t in done :: t < s)
    ensures Rank(ids, s) == |done|
  {
    assert (set t | t in ids && t < s) == done;
  }

  lemma {:induction false} LeastExists(keys: set<SessionId>)
    requires keys != {}
    ensures exists s :: s in keys && forall t | t in keys :: s <= t
    decreases keys
  {
    var s :| s in keys;
    if t :| t in keys && t < s {
      var smaller := set t | t in keys && t < s;
      assert t in smaller && s !in smaller;
      LeastExists(smaller);
      var m :| m in smaller && forall t | t in smaller :: m <= t;
      LeastOfAll(keys, smaller, s, m);
    }
  }

  lemma LeastOfAll(keys: set<SessionId>, smaller: set<SessionId>, s: SessionId, m: SessionId)
    requires smaller == (set t | t in keys && t < s) && m in smaller && forall t | t in smaller :: m <= t
    ensures m in keys && forall t | t in keys :: m <= t
  {
    forall t | t in keys ensures m <= t {
      if t < s { assert t in smaller; }
    }
  }

  /** What the sessions look like when those of `left` are still to be waited for. */
  ghost predicate Settled(up: map<SessionId, UpState>, before: map<SessionId, UpState>, left: set<SessionId>,
                          pids: map<SessionId, PromiseId>, schedule: Schedule)
  {
    && up.Keys == before.Keys
    && forall s | s in up :: up[s] == if s !in left && Released(pids, schedule, s) then Deactivated else before[s]
  }

  lemma OneMoreSettled(up: map<SessionId, UpState>, up': map<SessionId, UpState>, before: map<SessionId, UpState>,
                       left: set<SessionId>, pids: map<SessionId, PromiseId>, schedule: Schedule, s: SessionId)
    requires Settled(up, before, left, pids, schedule) && s in left && s in up && s in pids
    requires up' == if Released(pids, schedule, s) then up[s := Deactivated] else up
    ensures Settled(up', before, left - {s}, pids, schedule)
  {
  }

  lemma ArrivedBy(log: seq<Arrival>, start: nat, schedule: Schedule, k: nat)
    requires start <= |log| && log[start..] == Arrived(schedule, k)
    ensures (log + Batch(schedule, k))[start..] == Arrived(schedule, k + 1)
  {
  }

  lemma LeftAfter(left: set<SessionId>, left': set<SessionId>, s: SessionId, done: set<SessionId>, ids: set<SessionId>)
    requires ids == done + left && s in left && s !in done && s !in left'
    requires forall t | t != s :: t in left' <==> t in left
    requires (forall t | t in left :: s <= t) && forall t, u | t in done && u in left :: t < u
    ensures left' == left - {s} && ids == done + {s} + left' && |done + {s}| == |done| + 1
    ensures forall t, u | t in done + {s} && u in left' :: t < u
  {
  }

  /** Where the wait loop stands after k waits, those for `done`, when `arrived` has come since it began. */
  ghost predicate Progress(up: map<SessionId, UpState>, before: map<SessionId, UpState>, left: set<SessionId>,
                           done: set<SessionId>, pids: map<SessionId, PromiseId>, arrived: seq<Arrival>,
                           schedule: Schedule, k: nat)
  {
    && pids.Keys == done + left && k == |done| && arrived == Arrived(schedule, k)
    && (forall s, t | s in done && t in left :: s < t)
    && Settled(up, before, left, pids, schedule)
  }

  lemma OneMoreWait(up: map<SessionId, UpState>, up': map<SessionId, UpState>, before: map<SessionId, UpState>,
                    left: set<SessionId>, done: set<SessionId>, pids: map<SessionId, PromiseId>,
                    log: seq<Arrival>, start: nat, schedule: Schedule, k: nat, s: SessionId, left': set<SessionId>)
    requires start <= |log| && Progress(up, before, left, done, pids, log[start..], schedule, k)
    requires s in left && s in up && (forall t | t in left :: s <= t) && left' == left - {s}
    requires up' == if Succeeded(FirstAnswer((log + Batch(schedule, k))[start..], pids[s]))
                    then up[s := Deactivated] else up
    ensures Progress(up', before, left', done + {s}, pids, (log + Batch(schedule, k))[start..], schedule, k + 1)
  {
    assert s !in done;
    RankIsCount(pids.Keys, done, left, s);
    ArrivedBy(log, start, schedule, k);
    OneMoreSettled(up, up', before, left, pids, schedule, s);
    LeftAfter(left, left', s, done, pids.Keys);
  }

  /** One turn of the wait loop: the first entry of the map is waited for and leaves it. */
  method WaitForNext(table: PromiseTable, uc: UeSessions, left: map<SessionId, Promise>, batch: seq<Arrival>,
                     ghost pids: map<SessionId, PromiseId>, ghost start: nat, ghost before: map<SessionId, UpState>,
                     ghost done: set<SessionId>, ghost schedule: Schedule, ghost k: nat)
    returns (left': map<SessionId, Promise>, s: SessionId)
    requires table.Valid() && left != map[] && start <= |table.log| && batch == Batch(schedule, k)
    requires left.Keys <= pids.Keys <= uc.up.Keys
    requires forall s | s in left :: Awaits(table.all, table.since, left, s, pids[s], start)
    requires Progress(uc.up, before, left.Keys, done, pids, table.log[start..], schedule, k)
    modifies table`pending, table`log, table.all.Values, uc
    ensures table.Valid() && table.all == old(table.all) && table.since == old(table.since) && start <= |table.log|
    ensures s in left && left' == Without(left, s)
    ensures Progress(uc.up, before, left'.Keys, done + {s}, pids, table.log[start..], schedule, k + 1)
  {
    LeastExists(left.Keys);
    s :| s in left && forall t | t in left :: s <= t;
    ghost var up, log := uc.up, table.log;
    assert Awaits(table.all, table.since, left, s, pids[s], start);
    WaitFor(table, uc, s, left[s], batch, pids[s]);
    left' := Without(left, s);
    OneMoreWait(up, uc.up, before, left.Keys, done, pids, log, start, schedule, k, s, left'.Keys);
  }

  /** The wait loop ends because each wait takes one entry out of the map. */
  method WaitForAll(table: PromiseTable, uc: UeSessions, responses: map<SessionId, Promise>, schedule: Schedule,
                    ghost pids: map<SessionId, PromiseId>)
    requires table.Valid() && responses.Keys == pids.Keys && forall s | s in pids :: s in uc.up
    requires forall s | s in pids :: Awaits(table.all, table.since, responses, s, pids[s], |table.log|)
    modifies table`pending, table`log, table.all.Values, uc
    ensures table.Valid() && Settled(uc.up, old(uc.up), {}, pids, schedule)
  {
    ghost var start, done: set<SessionId> := |table.log|, {};
    assert table.log[start..] == [];
    var left, k := responses, 0;
    while left != map[]
      invariant table.Valid() && table.all == old(table.all) && table.since == old(table.since)
      invariant start <= |table.log|
      invariant Progress(uc.up, old(uc.up), left.Keys, done, pids, table.log[start..], schedule, k)
      invariant forall s | s in left :: Awaits(table.all, table.since, left, s, pids[s], start)
      decreases left.Keys
    {
      var s;
      left, s := WaitForNext(table, uc, left, Batch(schedule, k), pids, start, old(uc.up), done, schedule, k);
      done := done + {s};
      k := k + 1;
    }
  }

  /** trigger_pdu_session_up_deactivation: whatever order the answers come in, and whichever are late or missing,
      exactly the sessions whose own answer was in time and 200 or 204 become DEACTIVATED; every other session keeps its
      state. */
  method TriggerUpDeactivation(table: PromiseTable, uc: UeSessions, sessions: seq<SessionId>, schedule: Schedule)
    returns (ghost pids: map<SessionId, PromiseId>)
    requires table.Valid() && Distinct(sessions) && forall s | s in sessions :: s in uc.up
    modifies table, table.all.Values, uc
    ensures table.Valid() && InTurn(pids, sessions, old(table.nextId))
    ensures uc.up.Keys == old(uc.up).Keys
    ensures forall s | s in uc.up :: uc.up[s] == if Released(pids, schedule, s) then Deactivated else old(uc.up)[s]
  {
    var responses;
    responses, pids := SendRequests(table, sessions);
    WaitForAll(table, uc, responses, schedule, pids);
  }
}
