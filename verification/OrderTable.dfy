/** The reservation protocol and fill settlement on one table: what fills rely on,
    `Settlement.TableOk`, holds in every state the protocol reaches, and runs in which the two
    interleave are histories in the sense of `SettlementRuns`. */
module OrderTable {

  import opened Decimals
  import opened Orders
  import opened Reservation
  import opened ReservationRuns
  import opened FillArithmetic
  import opened Options
  import opened Settlement

  // Quantities that enter the system are not negative.
  ghost predicate SaneAction(a: Action) {
    match a
    case Start(_, order) => V(order.filled) >= 0.0
    case BrokerAccepts(_, answer) => V(answer.filled) >= 0.0
    case FillRow(_, _, _, filled, _) => V(filled) >= 0.0
    case _ => true
  }

  ghost predicate SaneStmt(stmt: Stmt) {
    stmt.ConfirmStmt? ==> V(stmt.filled) >= 0.0
  }

  ghost predicate SaneThread(t: Thread) {
    V(t.order.filled) >= 0.0 && (t.pc.Accepted? ==> V(t.pc.filled) >= 0.0)
  }

  ghost predicate Sane(s: State) {
    && (forall id :: id in s.rows ==> Stored(s.rows[id]))
    && (forall id :: id in s.threads ==> SaneThread(s.threads[id]))
    && (forall stmt :: stmt in s.orphans ==> SaneStmt(stmt))
  }

  lemma ReservedIsStored(o: Order)
    requires V(o.filled) >= 0.0
    ensures Stored(Reserved(o))
  {
    hide V, RoundTo, OnGrid;
    RoundNonNegative(V(o.filled), QUANTITY_SCALE);
    RoundFixed(V(o.filled), QUANTITY_SCALE);
    RoundFixed(V(o.target), QUANTITY_SCALE);
  }

  lemma QuantityIsStored(o: Order, d: Dec)
    requires Stored(o) && V(d) >= 0.0
    ensures forall status, poid, avg :: Stored(o.(status := status, poid := poid, filled := Quantity(d), avg := avg))
  {
    hide V, RoundTo, OnGrid;
    RoundNonNegative(V(d), QUANTITY_SCALE);
    RoundFixed(V(d), QUANTITY_SCALE);
  }

  // A confirmation, now or late
  lemma ConfirmKeepsStored(t: Table, id: Id, poid: string, status: Status, filled: Dec, avg: Dec)
    requires V(filled) >= 0.0 && forall o :: o in t ==> Stored(t[o])
    ensures var t' := Confirm(t, id, poid, status, filled, avg); forall o :: o in t' ==> Stored(t'[o])
  {
    hide Stored, V, Quantity, Price;
    if id in t {
      QuantityIsStored(t[id], filled);
    }
  }

  lemma FillKeepsStored(t: Table, provider: string, poid: string, status: Status, filled: Dec, avg: Dec)
    requires V(filled) >= 0.0 && forall o :: o in t ==> Stored(t[o])
    ensures var t' := UpdateFill(t, provider, poid, status, filled, avg); forall o :: o in t' ==> Stored(t'[o])
  {
    hide Stored, V, Quantity, Price;
    var t' := UpdateFill(t, provider, poid, status, filled, avg);
    forall o | o in t' ensures Stored(t'[o]) {
      QuantityIsStored(t[o], filled);
      assert t[o].(status := status, poid := t[o].poid, filled := Quantity(filled), avg := Price(avg))
          == t[o].(status := status, filled := Quantity(filled), avg := Price(avg));
    }
  }

  lemma StepKeepsSane(s: State, a: Action)
    requires Sane(s) && Enabled(s, a) && SaneAction(a)
    ensures Sane(Apply(s, a))
  {
    hide Apply, Enabled;
    RowsStaySane(s, a);
    ThreadsStaySane(s, a);
    OrphansStaySane(s, a);
  }

  lemma ThreadsStaySane(s: State, a: Action)
    requires Sane(s) && Enabled(s, a) && SaneAction(a)
    ensures forall id :: id in Apply(s, a).threads ==> SaneThread(Apply(s, a).threads[id])
  {
    hide Stored, V, Execute, Confirm, UpdateFill, Insert, Release, Reserved, Conflict, MapOrderStatus, IntentLookup,
         KeyLookup, CanInsert, Current, SaneStmt, PoidText;
    forall id | id in Apply(s, a).threads ensures SaneThread(Apply(s, a).threads[id]) {
      if id in s.threads {
        assert SaneThread(s.threads[id]);
      }
    }
  }

  lemma OrphansStaySane(s: State, a: Action)
    requires Sane(s) && Enabled(s, a) && SaneAction(a)
    ensures forall stmt :: stmt in Apply(s, a).orphans ==> SaneStmt(stmt)
  {
    hide Stored, V, Execute, Confirm, UpdateFill, Insert, Release, Reserved, Conflict, MapOrderStatus, IntentLookup,
         KeyLookup, CanInsert, Inspect;
  }

  lemma RowsStaySane(s: State, a: Action)
    requires Sane(s) && Enabled(s, a) && SaneAction(a)
    ensures forall id :: id in Apply(s, a).rows ==> Stored(Apply(s, a).rows[id])
  {
    hide Stored, V, Confirm, UpdateFill, Reserved, Conflict, MapOrderStatus, Inspect, IntentLookup, KeyLookup;
    match a
    case TryReserve(id) => ReservedIsStored(s.threads[id].order);
    case ConfirmRow(id) =>
      var pc := s.threads[id].pc;
      ConfirmKeepsStored(s.rows, id, pc.poid, pc.status, pc.filled, pc.avg);
    case FillRow(provider, poid, status, filled, avg) => FillKeepsStored(s.rows, provider, poid, status, filled, avg);
    case LateStatement(stmt) => LateKeepsSane(s, stmt);
    case _ =>
  }

  lemma LateKeepsSane(s: State, stmt: Stmt)
    requires Sane(s) && Enabled(s, LateStatement(stmt))
    ensures Sane(Apply(s, LateStatement(stmt)))
  {
    hide Stored, V, Confirm, Reserved, Conflict;
    assert SaneStmt(stmt);
    match stmt
    case InsertStmt(id) =>
      if id in s.threads {
        ReservedIsStored(s.threads[id].order);
      }
    case ConfirmStmt(id, poid, status, filled, avg) => ConfirmKeepsStored(s.rows, id, poid, status, filled, avg);
    case _ =>
  }

  lemma {:induction false} RunKeepsSane(s: State, acts: seq<Action>)
    requires Sane(s) && Exec(s, acts).Some?
    requires forall i :: 0 <= i < |acts| ==> SaneAction(acts[i])
    ensures Sane(Exec(s, acts).value)
    decreases |acts|
  {
    hide Sane, Enabled, Apply;
    if acts != [] {
      assert SaneAction(acts[0]);
      StepKeepsSane(s, acts[0]);
      RunKeepsSane(Apply(s, acts[0]), acts[1..]);
    }
  }

  // An exchange never issues one order id to two requests.
  ghost predicate DistinctIds(s: State) {
    forall a, b :: a in s.threads && b in s.threads && a != b && s.threads[a].placed != []
      && s.threads[a].order.provider == s.threads[b].order.provider
      ==> s.threads[a].placed != s.threads[b].placed
  }

  lemma TableOkInEveryRun(acts: seq<Action>)
    requires IsRun(acts) && DistinctIds(Final(acts))
    requires forall i :: 0 <= i < |acts| ==> SaneAction(acts[i])
    ensures TableOk(Final(acts).rows)
  {
    RunKeepsInv(acts);
    RunKeepsSane(INIT, acts);
    SystemTableOk(System(Final(acts), map[]));
  }

  // ---------- fills between the protocol's steps ----------

  // Any other step of the protocol is a change elsewhere.
  lemma ProtocolStepIsElsewhere(s: State, a: Action)
    requires Inv(s) && Enabled(s, a) && !a.FillRow? && TableOk(Apply(s, a).rows)
    ensures Allowed(s.rows, Apply(s, a).rows)
  {
    hide Inv, Enabled, Apply, TableOk;
    forall id | id in s.rows && s.rows[id].poid.Some?
      ensures id in Apply(s, a).rows && Apply(s, a).rows[id] == s.rows[id]
    {
      RowWithIdIsRecorded(s, id);
      RecordedRowStep(s, a, id);
    }
  }

  lemma RowWithIdIsRecorded(s: State, id: Id)
    requires Inv(s) && id in s.rows && s.rows[id].poid.Some?
    ensures s.rows[id].status != Pending
  {
    assert RowOk(s, id);
  }

  // An attempt at a fill is a fill step of the protocol, or leaves the table alone.
  lemma AttemptIsFillRow(s: State, mode: Mode, entries: map<string, Entry>, e: FillEvent, outcome: Outcome)
    returns (a: Action)
    requires TableOk(s.rows)
    ensures a.FillRow? && Enabled(s, a) && SaneAction(a)
    ensures var rows' := Step(mode, Books(s.rows, entries), Attempt(e, outcome)).rows;
            rows' == s.rows || rows' == Apply(s, a).rows
  {
    hide V, Stored, NextFill, OnGrid, KeyOf, EntryOf, AfterFill, UpdateFill;
    a := FillRow("", "", Filled, ZERO, ZERO);
    SignOf(ZERO);
    if ValidEvent(e) && Finds(s.rows, e) {
      var id :| ProviderOrderIs(s.rows, id, e.provider, e.poid);
      StepOfRow(mode, Books(s.rows, entries), e, outcome, id);
      var p := NextFill(s.rows[id], e);
      PlannedQuantity(s.rows[id], e);
      FilledIff(s.rows[id], e);
      a := FillRow(s.rows[id].provider, PoidText(s.rows[id]), p.status, p.filled, p.avg);
    }
  }

  // The protocol's state together with the ledger
  datatype System = System(s: State, entries: map<string, Entry>)

  datatype Move = Protocol(a: Action) | Fill(e: FillEvent, outcome: Outcome)

  ghost predicate SystemOk(sys: System) {
    Inv(sys.s) && Sane(sys.s) && DistinctIds(sys.s)
  }

  lemma SystemTableOk(sys: System)
    requires SystemOk(sys)
    ensures TableOk(sys.s.rows)
  {
    hide Stored, V;
    var s := sys.s;
    forall a, b, provider, poid | ProviderOrderIs(s.rows, a, provider, poid)
        && ProviderOrderIs(s.rows, b, provider, poid)
      ensures a == b
    {
      assert RowOk(s, a) && RowOk(s, b);
    }
  }

  // Fills enter as attempts only. The exchange never issues an id twice.
  ghost predicate Possible(sys: System, m: Move) {
    m.Protocol? ==> !m.a.FillRow? && Enabled(sys.s, m.a) && SaneAction(m.a) && DistinctIds(Apply(sys.s, m.a))
  }

  ghost function Moved(mode: Mode, sys: System, m: Move): System
    requires SystemOk(sys) && Possible(sys, m)
  {
    match m
    case Protocol(a) => sys.(s := Apply(sys.s, a))
    case Fill(e, outcome) =>
      SystemTableOk(sys);
      var b := Step(mode, Books(sys.s.rows, sys.entries), Attempt(e, outcome));
      System(sys.s.(rows := b.rows), b.entries)
  }

  ghost function EventOf(m: Move, rows: Table): Event {
    match m
    case Protocol(_) => Elsewhere(rows)
    case Fill(e, outcome) => Attempt(e, outcome)
  }

  // Every move of the whole system keeps the invariants of both halves, and is one event of a history.
  lemma MoveIsEvent(mode: Mode, sys: System, m: Move)
    requires SystemOk(sys) && Possible(sys, m)
    ensures var sys' := Moved(mode, sys, m);
            && SystemOk(sys') && TableOk(sys.s.rows)
            && Books(sys'.s.rows, sys'.entries) == Step(mode, Books(sys.s.rows, sys.entries), EventOf(m, sys'.s.rows))
  {
    hide Inv, Sane, Enabled, Apply, TableOk, Attempted, UpdateFill;
    SystemTableOk(sys);
    match m
    case Protocol(a) =>
      StepKeepsInv(sys.s, a);
      StepKeepsSane(sys.s, a);
      SystemTableOk(Moved(mode, sys, m));
      ProtocolStepIsElsewhere(sys.s, a);
    case Fill(e, outcome) =>
      var a := AttemptIsFillRow(sys.s, mode, sys.entries, e, outcome);
      StepKeepsInv(sys.s, a);
      StepKeepsSane(sys.s, a);
      FillRowKeepsRest(sys.s, a);
      var s' := Moved(mode, sys, m).s;
      assert s' == sys.s || s' == Apply(sys.s, a);
  }

  lemma FillRowKeepsRest(s: State, a: Action)
    requires a.FillRow? && Enabled(s, a)
    ensures Apply(s, a) == s.(rows := Apply(s, a).rows)
  {
  }

  ghost function MovedAll(mode: Mode, sys: System, ms: seq<Move>): Option<System>
    requires SystemOk(sys)
    decreases |ms|
  {
    if ms == [] then Some(sys)
    else
      match MovedAll(mode, sys, ms[..|ms| - 1])
      case None => None
      case Some(before) =>
        var m := ms[|ms| - 1];
        if SystemOk(before) && Possible(before, m) then Some(Moved(mode, before, m)) else None
  }

  // A run of the whole system, in which requests and fills interleave freely, is a history of the
  // books with the same attempts: what is proved of histories holds of it.
  lemma {:induction false} RunIsHistory(mode: Mode, sys: System, ms: seq<Move>) returns (history: seq<Event>)
    requires SystemOk(sys) && MovedAll(mode, sys, ms).Some?
    ensures TableOk(sys.s.rows) && SystemOk(MovedAll(mode, sys, ms).value)
    ensures |history| == |ms|
    ensures forall i :: 0 <= i < |ms| ==>
      if ms[i].Fill? then history[i] == Attempt(ms[i].e, ms[i].outcome) else history[i].Elsewhere?
    ensures var end := MovedAll(mode, sys, ms).value;
            Run(mode, Books(sys.s.rows, sys.entries), history) == Books(end.s.rows, end.entries)
    decreases |ms|
  {
    hide SystemOk, Possible, Moved, TableOk, Step;
    SystemTableOk(sys);
    if ms == [] {
      history := [];
    } else {
      var (init, m) := (ms[..|ms| - 1], ms[|ms| - 1]);
      var h := RunIsHistory(mode, sys, init);
      var before := MovedAll(mode, sys, init).value;
      MoveIsEvent(mode, before, m);
      history := h + [EventOf(m, Moved(mode, before, m).s.rows)];
      assert history[..|history| - 1] == h;
    }
  }
}
