/** What the reservation protocol guarantees over whole runs: every interleaving of every number of
    requests, with crashes, cancels and failed, ambiguous or late writes at any step. */
module ReservationRuns {

  import opened Options
  import opened Orders
  import opened Reservation
  import opened Decimals

  // The state after executing acts from s, if each action is enabled in turn.
  ghost function Exec(s: State, acts: seq<Action>): Option<State>
    decreases |acts|
  {
    if acts == [] then Some(s)
    else if Enabled(s, acts[0]) then Exec(Apply(s, acts[0]), acts[1..])
    else None
  }

  ghost predicate IsRun(acts: seq<Action>) {
    Exec(INIT, acts).Some?
  }

  ghost function Final(acts: seq<Action>): State
    requires IsRun(acts)
  {
    Exec(INIT, acts).value
  }

  lemma {:induction false} ExecKeepsInv(s: State, acts: seq<Action>)
    requires Inv(s) && Exec(s, acts).Some?
    ensures Inv(Exec(s, acts).value)
    decreases |acts|
  {
    hide Inv, Enabled, Apply;
    if acts != [] {
      StepKeepsInv(s, acts[0]);
      ExecKeepsInv(Apply(s, acts[0]), acts[1..]);
    }
  }

  lemma RunKeepsInv(acts: seq<Action>)
    requires IsRun(acts)
    ensures Inv(Final(acts))
  {
    InvInit();
    ExecKeepsInv(INIT, acts);
  }

  lemma {:induction false} ExecSplit(s: State, a: seq<Action>, b: seq<Action>)
    ensures Exec(s, a + b).Some? ==> Exec(s, a).Some?
    ensures Exec(s, a).Some? ==> Exec(s, a + b) == Exec(Exec(s, a).value, b)
    decreases |a|
  {
    hide Enabled, Apply;
    if a == [] {
      assert a + b == b;
    } else {
      assert (a + b)[1..] == a[1..] + b;
      if Enabled(s, a[0]) {
        ExecSplit(Apply(s, a[0]), a[1..], b);
      }
    }
  }

  // ---------- at most one accepted order ----------

  // The exchange accepts an order of request a.id.
  predicate Accepts(a: Action) {
    a.BrokerAccepts? || a.LateAccept?
  }

  // Requests keep the order they started with, and the exchange's acceptances are only added to.
  lemma StepKeepsThread(s: State, a: Action, id: Id)
    requires Inv(s) && Enabled(s, a) && id in s.threads
    ensures var s' := Apply(s, a);
            && id in s'.threads
            && s'.threads[id].order == s.threads[id].order
            && s.threads[id].placed <= s'.threads[id].placed
  {
  }

  lemma {:induction false} ExecKeepsThread(s: State, acts: seq<Action>, id: Id)
    requires Inv(s) && Exec(s, acts).Some? && id in s.threads
    ensures var s' := Exec(s, acts).value;
            && id in s'.threads
            && s'.threads[id].order == s.threads[id].order
            && s.threads[id].placed <= s'.threads[id].placed
    decreases |acts|
  {
    hide Inv, Enabled, Apply;
    if acts != [] {
      StepKeepsInv(s, acts[0]);
      StepKeepsThread(s, acts[0], id);
      ExecKeepsThread(Apply(s, acts[0]), acts[1..], id);
    }
  }

  lemma AcceptancesDoNotConflict(s: State, a: Id, b: Id)
    requires Inv(s) && a in s.threads && b in s.threads && a != b
    requires s.threads[a].placed != [] && s.threads[b].placed != []
    ensures !Conflict(s.threads[a].order, s.threads[b].order)
  {
    assert ThreadOk(s, a) && ThreadOk(s, b) && RowOk(s, a) && RowOk(s, b);
  }

  lemma Unlike(a: Order, b: Order)
    requires !Conflict(a, b)
    ensures a.intent != b.intent && (a.key != "" && a.tenant == b.tenant ==> a.key != b.key)
  {
  }

  lemma AcceptStep(s: State, a: Action)
    requires Inv(s) && Enabled(s, a) && Accepts(a)
    ensures a.id in s.threads && s.threads[a.id].placed == []
    ensures Apply(s, a).threads[a.id].placed != []
  {
    if a.LateAccept? {
      assert OrphanOk(s, PlaceStmt(a.id));
    }
    assert ThreadOk(s, a.id);
  }

  // Of two acceptances in one run, wherever they occur, the requests share neither the trade intent
  // nor a (tenant, non-empty idempotency key). So the exchange accepts at most one order per intent
  // and at most one per key.
  lemma AtMostOneAcceptance(acts: seq<Action>, i: nat, j: nat)
    requires IsRun(acts) && i < j < |acts| && Accepts(acts[i]) && Accepts(acts[j])
    ensures acts[i].id in Final(acts).threads && acts[j].id in Final(acts).threads
    ensures var (a, b) := (Final(acts).threads[acts[i].id].order, Final(acts).threads[acts[j].id].order);
            a.intent != b.intent && (a.key != "" && a.tenant == b.tenant ==> a.key != b.key)
  {
    hide Inv, Enabled, Apply, Conflict;
    var si, afterI := RunAt(acts, i);
    var sj, afterJ := RunAt(acts, j);
    AcceptStep(si, acts[i]);
    AcceptStep(sj, acts[j]);
    var between := acts[i + 1..j];
    assert acts[..j] == acts[..i + 1] + between;
    ExecSplit(INIT, acts[..i + 1], between);
    StepKeepsInv(si, acts[i]);
    StepKeepsThread(si, acts[i], acts[i].id);
    ExecKeepsThread(afterI, between, acts[i].id);
    StepKeepsThread(sj, acts[j], acts[i].id);
    StepKeepsThread(sj, acts[j], acts[j].id);
    StepKeepsInv(sj, acts[j]);
    AcceptancesDoNotConflict(afterJ, acts[i].id, acts[j].id);
    Unlike(afterJ.threads[acts[i].id].order, afterJ.threads[acts[j].id].order);
    assert acts == acts[..j + 1] + acts[j + 1..];
    ExecSplit(INIT, acts[..j + 1], acts[j + 1..]);
    ExecKeepsThread(afterJ, acts[j + 1..], acts[i].id);
    ExecKeepsThread(afterJ, acts[j + 1..], acts[j].id);
  }

  // The states before and after the k-th step of a run
  lemma RunAt(acts: seq<Action>, k: nat) returns (before: State, after: State)
    requires IsRun(acts) && k < |acts|
    ensures Exec(INIT, acts[..k]) == Some(before) && Exec(INIT, acts[..k + 1]) == Some(after)
    ensures Inv(before) && Enabled(before, acts[k]) && after == Apply(before, acts[k])
  {
    hide Inv, Enabled, Apply;
    assert acts == acts[..k] + acts[k..];
    ExecSplit(INIT, acts[..k], acts[k..]);
    before := Final(acts[..k]);
    RunKeepsInv(acts[..k]);
    after := Apply(before, acts[k]);
    assert acts[..k + 1] == acts[..k] + [acts[k]];
    ExecSplit(INIT, acts[..k], [acts[k]]);
    assert Exec(after, []) == Some(after);
  }

  // ---------- ownership ----------

  // While a request owns its reservation, no step of anyone else (another request's confirm,
  // release or crash, a late statement, a fill) touches its row or its progress.
  lemma OwnershipStep(s: State, a: Action, id: Id)
    requires Inv(s) && Enabled(s, a) && id in s.threads && Owner(s.threads[id].pc)
    requires Actor(a) != Some(id)
    ensures var s' := Apply(s, a);
            && id in s'.threads && s'.threads[id] == s.threads[id]
            && PendingAt(s, id) && id in s'.rows && s'.rows[id] == s.rows[id]
  {
    hide Inv, Enabled, Apply;
    OwnerHoldsRow(s, id);
    if Actor(a) == None {
      OwnershipSystemStep(s, a, id);
    } else {
      OwnershipRequestStep(s, a, id);
    }
  }

  lemma OwnershipSystemStep(s: State, a: Action, id: Id)
    requires Inv(s) && Enabled(s, a) && id in s.threads && Owner(s.threads[id].pc) && PendingAt(s, id)
    requires s.rows[id].poid == None && Actor(a) == None
    ensures var s' := Apply(s, a);
            && id in s'.threads && s'.threads[id] == s.threads[id]
            && id in s'.rows && s'.rows[id] == s.rows[id]
  {
    hide UpdateFill, Reserved, Conflict, MapOrderStatus;
    if a.LateStatement? {
      assert OrphanOk(s, a.stmt);
    } else if a.LateAccept? {
      assert OrphanOk(s, PlaceStmt(a.id));
    } else {
      FillTouchesConfirmedRows(s.rows, a.provider, a.poid, a.status, a.filled, a.avg);
    }
  }

  lemma OwnershipRequestStep(s: State, a: Action, id: Id)
    requires Enabled(s, a) && id in s.threads && id in s.rows
    requires Actor(a) != None && Actor(a) != Some(id)
    ensures var s' := Apply(s, a);
            && id in s'.threads && s'.threads[id] == s.threads[id]
            && id in s'.rows && s'.rows[id] == s.rows[id]
  {
    hide UpdateFill, Reserved, Conflict, MapOrderStatus, Inspect, IntentLookup, KeyLookup, Quantity, Price;
  }

  lemma {:induction false} OwnershipRun(s: State, acts: seq<Action>, id: Id)
    requires Inv(s) && Exec(s, acts).Some? && id in s.threads && Owner(s.threads[id].pc)
    requires forall i :: 0 <= i < |acts| ==> Actor(acts[i]) != Some(id)
    ensures var s' := Exec(s, acts).value;
            && id in s'.threads && s'.threads[id] == s.threads[id]
            && PendingAt(s, id) && id in s'.rows && s'.rows[id] == s.rows[id]
    decreases |acts|
  {
    hide Inv, Enabled, Apply;
    if acts == [] {
      OwnerHoldsRow(s, id);
    } else {
      StepKeepsInv(s, acts[0]);
      OwnershipStep(s, acts[0], id);
      OwnershipRun(Apply(s, acts[0]), acts[1..], id);
    }
  }

  // The owned row is the request's own, PENDING, and the only one with its intent or key.
  lemma OwnerHoldsRow(s: State, id: Id)
    requires Inv(s) && id in s.threads && Owner(s.threads[id].pc)
    ensures PendingAt(s, id) && SameOrder(s.rows[id], s.threads[id].order) && s.rows[id].poid == None
    ensures forall other :: other in s.rows && Conflict(s.rows[other], s.threads[id].order) ==> other == id
  {
    assert ThreadOk(s, id) && RowOk(s, id);
  }

  // Once the exchange has accepted a request's order its row is never deleted, whatever happens.
  lemma {:induction false} AcceptedRowStays(s: State, acts: seq<Action>, id: Id)
    requires Inv(s) && Exec(s, acts).Some? && id in s.threads && s.threads[id].placed != []
    ensures var s' := Exec(s, acts).value;
            && id in s.rows && id in s'.rows && SameColumns(s.rows[id], s'.rows[id])
            && id in s'.threads && s'.threads[id].placed == s.threads[id].placed
  {
    ExecKeepsInv(s, acts);
    ExecKeepsThread(s, acts, id);
    var s' := Exec(s, acts).value;
    assert ThreadOk(s, id) && RowOk(s, id) && ThreadOk(s', id) && RowOk(s', id);
  }

  // ---------- row lifecycle ----------

  lemma RecordedRowStep(s: State, a: Action, id: Id)
    requires Inv(s) && Enabled(s, a) && id in s.rows && s.rows[id].status != Pending
    ensures var s' := Apply(s, a);
            id in s'.rows && s'.rows[id].status != Pending && s'.rows[id].poid == s.rows[id].poid
    ensures !a.FillRow? ==> Apply(s, a).rows[id] == s.rows[id]
  {
    hide UpdateFill, Reserved;
    assert RowOk(s, id);
    if a.FillRow? {
      FillTouchesConfirmedRows(s.rows, a.provider, a.poid, a.status, a.filled, a.avg);
    }
  }

  // A recorded row is never deleted, never PENDING again and never changes its provider order id.
  lemma {:induction false} RecordedRowRun(s: State, acts: seq<Action>, id: Id)
    requires Inv(s) && Exec(s, acts).Some? && id in s.rows && s.rows[id].status != Pending
    ensures var s' := Exec(s, acts).value;
            id in s'.rows && s'.rows[id].status != Pending && s'.rows[id].poid == s.rows[id].poid
    decreases |acts|
  {
    hide Inv, Enabled, Apply;
    if acts != [] {
      StepKeepsInv(s, acts[0]);
      RecordedRowStep(s, acts[0], id);
      RecordedRowRun(Apply(s, acts[0]), acts[1..], id);
    }
  }

  lemma ProviderIdIffRecorded(acts: seq<Action>, id: Id)
    requires IsRun(acts) && id in Final(acts).rows
    ensures Final(acts).rows[id].poid == None <==> Final(acts).rows[id].status == Pending
  {
    RunKeepsInv(acts);
    assert RowOk(Final(acts), id);
  }

  // In every run every row is its request's, field by field, whatever fills and confirmations did to it.
  lemma RowsHoldRequests(acts: seq<Action>, id: Id)
    requires IsRun(acts) && id in Final(acts).rows
    ensures id in Final(acts).threads && HoldsRequest(Final(acts).rows[id], Final(acts).threads[id].order)
  {
    RunKeepsInv(acts);
    SameOrderHolds(Final(acts), id);
  }

  lemma SameOrderHolds(s: State, id: Id)
    requires Inv(s) && id in s.rows
    ensures id in s.threads && HoldsRequest(s.rows[id], s.threads[id].order)
  {
    hide V, RoundTo;
    assert RowOk(s, id);
  }

  // ---------- answers ----------

  predicate Succeeded(s: State, id: Id) {
    id in s.threads && s.threads[id].pc.Done? && s.threads[id].pc.reply.Success?
  }

  function AnswerOf(s: State, id: Id): string
    requires Succeeded(s, id)
  {
    s.threads[id].pc.reply.poid
  }

  // Every success carries the provider order id the exchange issued for an order whose row is in
  // the table and has the request's intent or its (tenant, non-empty key).
  lemma ReplaySound(acts: seq<Action>, id: Id)
    requires IsRun(acts) && Succeeded(Final(acts), id)
    ensures Answered(Final(acts), Final(acts).threads[id].order, AnswerOf(Final(acts), id))
  {
    RunKeepsInv(acts);
    assert ThreadOk(Final(acts), id);
  }

  // An error answer means that the exchange has accepted nothing for this request, and never will.
  lemma FailureIsSafeToRetry(acts: seq<Action>, id: Id)
    requires IsRun(acts) && id in Final(acts).threads && Final(acts).threads[id].pc == Done(Failure)
    ensures Final(acts).threads[id].placed == [] && PlaceStmt(id) !in Final(acts).orphans
  {
    RunKeepsInv(acts);
    assert ThreadOk(Final(acts), id);
    assert PlaceStmt(id) in Final(acts).orphans ==> OrphanOk(Final(acts), PlaceStmt(id));
  }

  // Each (tenant, non-empty key) is used with one intent only.
  ghost predicate KeyDiscipline(s: State) {
    forall a, b :: a in s.threads && b in s.threads && Conflict(s.threads[a].order, s.threads[b].order)
      ==> s.threads[a].order.intent == s.threads[b].order.intent
  }

  lemma SameIntentSameAnswer(acts: seq<Action>, a: Id, b: Id)
    requires IsRun(acts) && KeyDiscipline(Final(acts))
    requires Succeeded(Final(acts), a) && Succeeded(Final(acts), b)
    requires Final(acts).threads[a].order.intent == Final(acts).threads[b].order.intent
    ensures AnswerOf(Final(acts), a) == AnswerOf(Final(acts), b)
  {
    var s := Final(acts);
    RunKeepsInv(acts);
    ReplaySound(acts, a);
    ReplaySound(acts, b);
    var x :| Answers(s, x, s.threads[a].order, AnswerOf(s, a));
    var y :| Answers(s, y, s.threads[b].order, AnswerOf(s, b));
    assert RowOk(s, x) && RowOk(s, y);
    assert Conflict(s.threads[x].order, s.threads[a].order);
    assert Conflict(s.threads[y].order, s.threads[b].order);
    assert x == y;
  }

  // ---------- quiescent states of clean runs ----------

  // No crash and no write that returned an error
  predicate Clean(a: Action) {
    !a.ReserveFails? && !a.ConfirmFails? && !a.ReleaseFails? && !a.Crash?
  }

  ghost predicate CleanInv(s: State) {
    && s.orphans == {}
    && forall id :: PendingAt(s, id) ==> id in s.threads && Owner(s.threads[id].pc)
  }

  lemma CleanStep(s: State, a: Action)
    requires Inv(s) && CleanInv(s) && Enabled(s, a) && Clean(a)
    ensures CleanInv(Apply(s, a))
  {
    hide UpdateFill, Reserved, Conflict, MapOrderStatus, Quantity, Price, Answered;
    var s' := Apply(s, a);
    forall id | PendingAt(s', id) ensures id in s'.threads && Owner(s'.threads[id].pc) {
      assert RowOk(s, id) && ThreadOk(s, id);
      if a.FillRow? {
        FillTouchesConfirmedRows(s.rows, a.provider, a.poid, a.status, a.filled, a.avg);
      }
    }
  }

  lemma {:induction false} CleanRun(s: State, acts: seq<Action>)
    requires Inv(s) && CleanInv(s) && Exec(s, acts).Some?
    requires forall i :: 0 <= i < |acts| ==> Clean(acts[i])
    ensures CleanInv(Exec(s, acts).value)
    decreases |acts|
  {
    hide Inv, CleanInv, Enabled, Apply;
    if acts != [] {
      StepKeepsInv(s, acts[0]);
      CleanStep(s, acts[0]);
      CleanRun(Apply(s, acts[0]), acts[1..]);
    }
  }

  ghost predicate Quiescent(s: State) {
    forall id :: id in s.threads ==> s.threads[id].pc.Done?
  }

  ghost function AcceptedRequests(s: State): set<Id> {
    set id | id in s.threads && s.threads[id].placed != []
  }

  // When every request has returned, after a run without crashes or failed writes (cancels, lookup
  // failures and broker failures allowed): no PENDING row is left, the rows are exactly those of the
  // requests whose order the exchange accepted, and each holds the id the exchange issued.
  lemma QuiescentRowsMatchAcceptances(acts: seq<Action>)
    requires IsRun(acts) && Quiescent(Final(acts))
    requires forall i :: 0 <= i < |acts| ==> Clean(acts[i])
    ensures var s := Final(acts);
            && s.rows.Keys == AcceptedRequests(s)
            && forall id :: id in s.rows ==>
                 && s.rows[id].status != Pending
                 && s.rows[id].poid.Some?
                 && s.threads[id].placed == [s.rows[id].poid.value]
  {
    InvInit();
    RunKeepsInv(acts);
    CleanRun(INIT, acts);
    var s := Final(acts);
    forall id ensures id in s.rows <==> id in AcceptedRequests(s)
      ensures id in s.rows ==> s.rows[id].poid.Some?
    {
      assert RowOk(s, id) && ThreadOk(s, id);
    }
    forall id | id in s.rows
      ensures s.rows[id].status != Pending && s.threads[id].placed == [s.rows[id].poid.value]
    {
      assert RowOk(s, id);
    }
  }

  // ---------- stranded reservations ----------

  // A PENDING row whose request is gone and whose fate no orphan statement can change
  ghost predicate Stranded(s: State, id: Id) {
    && PendingAt(s, id) && id in s.threads && Terminal(s.threads[id].pc)
    && forall stmt :: stmt in s.orphans && stmt.id == id ==> stmt.PlaceStmt?
  }

  // The exchange only ever accepts an order whose row is in the table, so no order that conflicts
  // with another row.
  lemma AcceptNeedsRow(s: State, a: Action, id: Id)
    requires Inv(s) && Enabled(s, a) && Accepts(a) && id in s.rows && a.id != id
    ensures a.id in s.threads && !Conflict(s.threads[a.id].order, s.rows[id])
  {
    if a.LateAccept? {
      assert OrphanOk(s, PlaceStmt(a.id));
    }
    assert ThreadOk(s, a.id) && RowOk(s, a.id);
    assert !Conflict(s.rows[a.id], s.rows[id]);
  }

  lemma StrandedStep(s: State, a: Action, id: Id)
    requires Inv(s) && Enabled(s, a) && Stranded(s, id)
    ensures Stranded(Apply(s, a), id) && Apply(s, a).rows[id] == s.rows[id]
  {
    hide Apply, Enabled, Inv;
    if a.FillRow? || a.LateStatement? || a.LateAccept? {
      StrandedSystemStep(s, a, id);
    } else {
      StrandedRequestStep(s, a, id);
    }
  }

  lemma StrandedSystemStep(s: State, a: Action, id: Id)
    requires Inv(s) && Enabled(s, a) && Stranded(s, id) && (a.FillRow? || a.LateStatement? || a.LateAccept?)
    ensures Stranded(Apply(s, a), id) && Apply(s, a).rows[id] == s.rows[id]
  {
    hide UpdateFill, Reserved, Conflict;
    assert RowOk(s, id);
    if a.FillRow? {
      FillTouchesConfirmedRows(s.rows, a.provider, a.poid, a.status, a.filled, a.avg);
    } else if a.LateStatement? {
      assert OrphanOk(s, a.stmt);
    } else {
      assert OrphanOk(s, PlaceStmt(a.id));
    }
  }

  lemma StrandedRequestStep(s: State, a: Action, id: Id)
    requires Enabled(s, a) && Stranded(s, id) && !a.FillRow? && !a.LateStatement? && !a.LateAccept?
    ensures Stranded(Apply(s, a), id) && Apply(s, a).rows[id] == s.rows[id]
  {
    hide UpdateFill, Reserved, Conflict, MapOrderStatus, Inspect, IntentLookup, KeyLookup, Quantity, Price;
    assert a.id != id;
  }

  // A stranded row blocks its intent and its key for good: it stays as it is, and the exchange
  // never accepts an order of another request with that intent or key.
  lemma {:induction false} StrandedBlocks(s: State, acts: seq<Action>, id: Id)
    requires Inv(s) && Exec(s, acts).Some? && Stranded(s, id)
    ensures id in s.rows
    ensures var s' := Exec(s, acts).value; Stranded(s', id) && s'.rows[id] == s.rows[id]
    ensures forall k :: 0 <= k < |acts| && Accepts(acts[k]) && acts[k].id != id ==>
      && acts[k].id in Exec(s, acts).value.threads
      && !Conflict(Exec(s, acts).value.threads[acts[k].id].order, s.rows[id])
    decreases |acts|
  {
    hide Inv, Enabled, Apply, Conflict;
    if acts != [] {
      var a := acts[0];
      StepKeepsInv(s, a);
      StrandedStep(s, a, id);
      var s1 := Apply(s, a);
      StrandedBlocks(s1, acts[1..], id);
      if Accepts(a) && a.id != id {
        AcceptNeedsRow(s, a, id);
        StepKeepsThread(s, a, a.id);
        ExecKeepsThread(s1, acts[1..], a.id);
      }
      forall k | 0 <= k < |acts| && Accepts(acts[k]) && acts[k].id != id
        ensures acts[k].id in Exec(s, acts).value.threads
        ensures !Conflict(Exec(s, acts).value.threads[acts[k].id].order, s.rows[id])
      {
        if k > 0 {
          assert acts[k] == acts[1..][k - 1];
        }
      }
    }
  }

  // ---------- what key reuse does ----------

  function Trade(id: Id, order: Order, answer: Acceptance): seq<Action> {
    [Start(id, order), TryReserve(id)] + [CredentialsLoaded(id), BrokerAccepts(id, answer)]
    + [ConfirmRow(id), Answer(id)]
  }

  function Traded(s: State, id: Id, order: Order, answer: Acceptance): State {
    var status := MapOrderStatus(answer.raw);
    s.(rows := Confirm(s.rows[id := Reserved(order)], id, answer.poid, status, answer.filled, answer.avg),
       threads := s.threads[id := Thread(order, Done(Success(answer.poid, status)), [answer.poid])])
  }

  lemma ExecCons(s: State, a: Action, acts: seq<Action>)
    requires Enabled(s, a)
    ensures Exec(s, [a] + acts) == Exec(Apply(s, a), acts)
  {
    assert ([a] + acts)[1..] == acts;
  }

  lemma ExecTwo(s: State, a: Action, b: Action)
    requires Enabled(s, a) && Enabled(Apply(s, a), b)
    ensures Exec(s, [a, b]) == Some(Apply(Apply(s, a), b))
  {
    hide Exec;
    ExecNil(Apply(Apply(s, a), b));
    ExecCons(Apply(s, a), b, []);
    ExecCons(s, a, [b]);
    assert [b] == [b] + [] && [a, b] == [a] + [b];
  }

  lemma ReserveRuns(s: State, id: Id, order: Order)
    requires id !in s.threads && CanInsert(s.rows, id, order)
    ensures Exec(s, [Start(id, order), TryReserve(id)])
         == Some(s.(rows := s.rows[id := Reserved(order)], threads := s.threads[id := Thread(order, Holding, [])]))
  {
    hide Exec, Confirm, Release, UpdateFill, Execute, Current, Inspect, IntentLookup, KeyLookup, Reserved, Conflict;
    ExecTwo(s, Start(id, order), TryReserve(id));
    assert Apply(Apply(s, Start(id, order)), TryReserve(id)).threads == s.threads[id := Thread(order, Holding, [])];
  }

  lemma CallRuns(s: State, id: Id, answer: Acceptance)
    requires id in s.threads && s.threads[id].pc.Holding? && s.threads[id].placed == []
    ensures Exec(s, [CredentialsLoaded(id), BrokerAccepts(id, answer)])
         == Some(s.(threads := s.threads[id :=
              Thread(s.threads[id].order,
                     Accepted(answer.poid, MapOrderStatus(answer.raw), answer.filled, answer.avg),
                     [answer.poid])]))
  {
    hide Exec, Confirm, Insert, Release, UpdateFill, Execute, Current, Inspect, IntentLookup, KeyLookup, Reserved,
         Conflict;
    ExecTwo(s, CredentialsLoaded(id), BrokerAccepts(id, answer));
    var pc := Accepted(answer.poid, MapOrderStatus(answer.raw), answer.filled, answer.avg);
    assert s.threads[id].placed + [answer.poid] == [answer.poid];
    assert Apply(Apply(s, CredentialsLoaded(id)), BrokerAccepts(id, answer)).threads
        == s.threads[id := Thread(s.threads[id].order, pc, [answer.poid])];
  }

  lemma ConfirmApplies(s: State, id: Id, t: Thread)
    requires id in s.threads && s.threads[id] == t && t.pc.Accepted?
    ensures Enabled(s, ConfirmRow(id))
    ensures Apply(s, ConfirmRow(id))
         == s.(rows := Confirm(s.rows, id, t.pc.poid, t.pc.status, t.pc.filled, t.pc.avg),
               threads := s.threads[id := t.(pc := Settling(t.pc.poid, t.pc.status))])
  {
    hide Confirm, UpdateFill, Insert, Release, Execute, Reserved, Conflict;
  }

  lemma AnswerApplies(s: State, id: Id, t: Thread)
    requires id in s.threads && s.threads[id] == t && t.pc.Settling?
    ensures Enabled(s, Answer(id))
    ensures Apply(s, Answer(id))
         == s.(threads := s.threads[id := t.(pc := Done(Success(t.pc.poid, t.pc.status)))])
  {
    hide Confirm, UpdateFill, Insert, Release, Execute, Reserved, Conflict;
  }

  lemma ConfirmRuns(s: State, id: Id, t: Thread)
    requires id in s.threads && s.threads[id] == t && t.pc.Accepted?
    ensures Exec(s, [ConfirmRow(id), Answer(id)])
         == Some(s.(rows := Confirm(s.rows, id, t.pc.poid, t.pc.status, t.pc.filled, t.pc.avg),
                    threads := s.threads[id := t.(pc := Done(Success(t.pc.poid, t.pc.status)))]))
  {
    hide Exec, Confirm, Apply, Enabled;
    var settling := t.(pc := Settling(t.pc.poid, t.pc.status));
    ConfirmApplies(s, id, t);
    AnswerApplies(Apply(s, ConfirmRow(id)), id, settling);
    ExecTwo(s, ConfirmRow(id), Answer(id));
    assert s.threads[id := settling][id := t.(pc := Done(Success(t.pc.poid, t.pc.status)))]
        == s.threads[id := t.(pc := Done(Success(t.pc.poid, t.pc.status)))];
  }

  // An undisturbed trade of a new request whose order conflicts with no row
  lemma TradeRuns(s: State, id: Id, order: Order, answer: Acceptance)
    requires id !in s.threads && CanInsert(s.rows, id, order)
    ensures Exec(s, Trade(id, order, answer)) == Some(Traded(s, id, order, answer))
  {
    hide Exec, Reserved, Confirm, MapOrderStatus, Enabled, Apply;
    var a := [Start(id, order), TryReserve(id)];
    var b := [CredentialsLoaded(id), BrokerAccepts(id, answer)];
    var c := [ConfirmRow(id), Answer(id)];
    ReserveRuns(s, id, order);
    var s1 := Exec(s, a).value;
    CallRuns(s1, id, answer);
    var s2 := Exec(s1, b).value;
    ConfirmRuns(s2, id, s2.threads[id]);
    ExecSplit(s, a, b);
    ExecSplit(s, a + b, c);
    assert Exec(s2, c).value.threads == Traded(s, id, order, answer).threads;
  }

  lemma ExecNil(s: State)
    ensures Exec(s, []) == Some(s)
  {
  }

  // The condition of SameIntentSameAnswer cannot be dropped: whenever two requests share a key but
  // not the intent, the second is answered with the first one's order, and a third request with the
  // second one's intent and no key gets an order of its own.
  lemma KeyReuseSplitsAnswers(x: Order, y: Order, z: Order, p: Acceptance, q: Acceptance)
    requires x.tenant == y.tenant && x.key == y.key && x.key != "" && x.intent != y.intent
    requires z.intent == y.intent && z.key == "" && p.poid != q.poid
    ensures exists acts ::
      && IsRun(acts)
      && var s := Final(acts);
         && Succeeded(s, 1) && Succeeded(s, 2)
         && s.threads[1].order.intent == s.threads[2].order.intent
         && AnswerOf(s, 1) != AnswerOf(s, 2)
  {
    hide Exec;
    var a, c := Trade(0, x, p), Trade(2, z, q);
    var b := [Start(1, y), TryReserve(1), LookupIntent(1, None), LookupKey(1, Some(0))];
    TradeRuns(INIT, 0, x, p);
    var s1 := Traded(INIT, 0, x, p);
    var s2 := DuplicateByKey(s1, y, b);
    TradeRuns(s2, 2, z, q);
    ExecSplit(INIT, a, b);
    ExecSplit(INIT, a + b, c);
    var s3 := Traded(s2, 2, z, q);
    assert Exec(INIT, a + b + c) == Some(s3);
    assert IsRun(a + b + c) && Final(a + b + c) == s3;
  }

  lemma DuplicateByKey(s: State, y: Order, b: seq<Action>) returns (s': State)
    requires b == [Start(1, y), TryReserve(1), LookupIntent(1, None), LookupKey(1, Some(0))]
    requires 1 !in s.threads && s.rows.Keys == {0} && s.rows[0].status != Pending
    requires KeyIs(s.rows, 0, y.tenant, y.key) && y.key != "" && s.rows[0].intent != y.intent
    ensures Exec(s, b) == Some(s')
    ensures s' == s.(threads := s.threads[1 := Thread(y, Inspect(s.rows[0]), [])])
  {
    hide Exec, Reserved;
    var s1 := Apply(s, b[0]);
    assert Conflict(s.rows[0], y);
    var s2 := Apply(s1, b[1]);
    var s3 := Apply(s2, b[2]);
    s' := Apply(s3, b[3]);
    ExecNil(s');
    ExecCons(s3, b[3], []);
    ExecCons(s2, b[2], [b[3]]);
    ExecCons(s1, b[1], b[2..]);
    ExecCons(s, b[0], b[1..]);
    assert b[2..] == [b[2]] + [b[3]] && b[1..] == [b[1]] + b[2..] && b == [b[0]] + b[1..] && [b[3]] == [b[3]] + [];
  }
}
