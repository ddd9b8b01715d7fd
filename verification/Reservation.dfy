/** The ExecuteTrade reservation protocol as a state machine: any number of requests, on any number
    of replicas, over one broker_orders table and one exchange.

    Each repository statement and each answer of the exchange is one atomic step. A statement whose
    outcome the client does not learn (a failed or timed-out write, a crash in the middle of a call)
    becomes an orphan: it may execute at any later time, or never. */
module Reservation {

  import opened Decimals
  import opened Options
  import opened Orders

  // ---------- state ----------

  datatype Reply = Success(poid: string, status: Status) | Failure

  datatype Pc =
    | Trying                                                         // about to run ReserveOrder
    | ByIntent                                                       // lost the insert, about to look up by intent
    | ByKey                                                          // about to look up by idempotency key
    | Waiting                                                        // found a PENDING row or none; about to poll again
    | Holding                                                        // owns the reservation, loading credentials
    | Calling                                                        // PlaceMarketOrder is under way
    | Accepted(poid: string, status: Status, filled: Dec, avg: Dec)  // dispatched = true, about to confirm
    | Settling(poid: string, status: Status)                         // confirm was attempted
    | Releasing                                                      // dispatched = false, deferred release is due
    | Done(reply: Reply)
    | Crashed

  // order: the BrokerOrder value ExecuteTrade built. placed: every provider order id the exchange
  // issued for this request's PlaceMarketOrder calls.
  datatype Thread = Thread(order: Order, pc: Pc, placed: seq<string>)

  datatype Stmt =
    | InsertStmt(id: Id)
    | ConfirmStmt(id: Id, poid: string, status: Status, filled: Dec, avg: Dec)
    | DeleteStmt(id: Id)
    | PlaceStmt(id: Id)

  datatype State = State(rows: Table, threads: map<Id, Thread>, orphans: set<Stmt>)

  const INIT := State(map[], map[], {})

  // The exchange's answer to an accepted order, with the quantity and average price the service
  // will confirm on the row
  datatype Acceptance = Acceptance(poid: string, raw: string, filled: Dec, avg: Dec)

  // ---------- steps ----------

  datatype Action =
    | Start(id: Id, order: Order)
    | TryReserve(id: Id)
    | ReserveFails(id: Id)
    | LookupIntent(id: Id, found: Option<Id>)
    | LookupKey(id: Id, found: Option<Id>)
    | LookupFails(id: Id)
    | PollAgain(id: Id)
    | GiveUp(id: Id)                       // deadline reached or caller gone
    | CredentialsLoaded(id: Id)
    | CredentialsFail(id: Id)
    | BrokerAccepts(id: Id, answer: Acceptance)
    | BrokerFails(id: Id)
    | ConfirmRow(id: Id)
    | ConfirmFails(id: Id)
    | ReleaseRow(id: Id)
    | ReleaseFails(id: Id)
    | Answer(id: Id)
    | Crash(id: Id, inFlight: bool)
    | LateStatement(stmt: Stmt)
    | LateAccept(id: Id, answer: Acceptance)
    | FillRow(provider: string, poid: string, status: Status, filled: Dec, avg: Dec)

  function Actor(a: Action): Option<Id> {
    match a
    case LateStatement(_) => None
    case LateAccept(_, _) => None
    case FillRow(_, _, _, _, _) => None
    case _ => Some(a.id)
  }

  predicate At(s: State, id: Id, pc: Pc) {
    id in s.threads && s.threads[id].pc == pc
  }

  predicate IsAccepted(s: State, id: Id) {
    id in s.threads && s.threads[id].pc.Accepted?
  }

  predicate IsSettling(s: State, id: Id) {
    id in s.threads && s.threads[id].pc.Settling?
  }

  predicate Terminal(pc: Pc) {
    pc.Done? || pc.Crashed?
  }

  // Answers of the two lookups on a table
  predicate IntentLookup(t: Table, order: Order, found: Option<Id>) {
    match found
    case Some(o) => IntentIs(t, o, order.intent)
    case None => forall o :: o in t ==> t[o].intent != order.intent
  }

  predicate KeyLookup(t: Table, order: Order, found: Option<Id>) {
    match found
    case Some(o) => KeyIs(t, o, order.tenant, order.key)
    case None => forall o :: o in t ==> !KeyIs(t, o, order.tenant, order.key)
  }

  predicate Enabled(s: State, a: Action) {
    match a
    case Start(id, order) => id !in s.threads && id !in s.rows
    case TryReserve(id) => At(s, id, Trying)
    case ReserveFails(id) => At(s, id, Trying)
    case LookupIntent(id, found) => At(s, id, ByIntent) && IntentLookup(s.rows, s.threads[id].order, found)
    case LookupKey(id, found) => At(s, id, ByKey) && KeyLookup(s.rows, s.threads[id].order, found)
    case LookupFails(id) => At(s, id, ByIntent) || At(s, id, ByKey)
    case PollAgain(id) => At(s, id, Waiting)
    case GiveUp(id) => At(s, id, Waiting)
    case CredentialsLoaded(id) => At(s, id, Holding)
    case CredentialsFail(id) => At(s, id, Holding)
    case BrokerAccepts(id, answer) => At(s, id, Calling)
    case BrokerFails(id) => At(s, id, Calling)
    case ConfirmRow(id) => IsAccepted(s, id)
    case ConfirmFails(id) => IsAccepted(s, id)
    case ReleaseRow(id) => At(s, id, Releasing)
    case ReleaseFails(id) => At(s, id, Releasing)
    case Answer(id) => IsSettling(s, id)
    case Crash(id, inFlight) => id in s.threads && !Terminal(s.threads[id].pc)
    case LateStatement(stmt) => stmt in s.orphans && !stmt.PlaceStmt?
    case LateAccept(id, answer) => PlaceStmt(id) in s.orphans
    case FillRow(provider, poid, status, filled, avg) => status == Partial || status == Filled
  }

  function Goto(s: State, id: Id, pc: Pc): State
    requires id in s.threads
  {
    s.(threads := s.threads[id := s.threads[id].(pc := pc)])
  }

  function Orphan(s: State, stmt: Stmt): State {
    s.(orphans := s.orphans + {stmt})
  }

  // What reserveOrder does with an existing row
  function Inspect(o: Order): Pc {
    if o.status != Pending then Done(Success(PoidText(o), o.status)) else Waiting
  }

  // The statement a request is executing at this program counter
  function Current(id: Id, pc: Pc): Option<Stmt> {
    match pc
    case Trying => Some(InsertStmt(id))
    case Calling => Some(PlaceStmt(id))
    case Accepted(poid, status, filled, avg) => Some(ConfirmStmt(id, poid, status, filled, avg))
    case Releasing => Some(DeleteStmt(id))
    case _ => None
  }

  function Execute(s: State, stmt: Stmt): Table {
    match stmt
    case InsertStmt(id) => if id in s.threads then Insert(s.rows, id, s.threads[id].order) else s.rows
    case ConfirmStmt(id, poid, status, filled, avg) => Confirm(s.rows, id, poid, status, filled, avg)
    case DeleteStmt(id) => Release(s.rows, id)
    case PlaceStmt(_) => s.rows
  }

  function Place(s: State, id: Id, poid: string): State
    requires id in s.threads
  {
    s.(threads := s.threads[id := s.threads[id].(placed := s.threads[id].placed + [poid])])
  }

  function Apply(s: State, a: Action): State
    requires Enabled(s, a)
  {
    match a
    case Start(id, order) => s.(threads := s.threads[id := Thread(order, Trying, [])])
    case TryReserve(id) =>
      var order := s.threads[id].order;
      if CanInsert(s.rows, id, order)
      then Goto(s.(rows := Insert(s.rows, id, order)), id, Holding)
      else Goto(s, id, ByIntent)
    case ReserveFails(id) => Orphan(Goto(s, id, Done(Failure)), InsertStmt(id))
    case LookupIntent(id, found) =>
      if found.Some? then Goto(s, id, Inspect(s.rows[found.value]))
      else Goto(s, id, if s.threads[id].order.key != "" then ByKey else Waiting)
    case LookupKey(id, found) =>
      Goto(s, id, if found.Some? then Inspect(s.rows[found.value]) else Waiting)
    case LookupFails(id) => Goto(s, id, Done(Failure))
    case PollAgain(id) => Goto(s, id, Trying)
    case GiveUp(id) => Goto(s, id, Done(Failure))
    case CredentialsLoaded(id) => Goto(s, id, Calling)
    case CredentialsFail(id) => Goto(s, id, Releasing)
    case BrokerAccepts(id, answer) =>
      Goto(Place(s, id, answer.poid), id, Accepted(answer.poid, MapOrderStatus(answer.raw), answer.filled, answer.avg))
    case BrokerFails(id) => Goto(s, id, Releasing)
    case ConfirmRow(id) =>
      var pc := s.threads[id].pc;
      Goto(s.(rows := Confirm(s.rows, id, pc.poid, pc.status, pc.filled, pc.avg)), id, Settling(pc.poid, pc.status))
    case ConfirmFails(id) =>
      var pc := s.threads[id].pc;
      Orphan(Goto(s, id, Settling(pc.poid, pc.status)), ConfirmStmt(id, pc.poid, pc.status, pc.filled, pc.avg))
    case ReleaseRow(id) => Goto(s.(rows := Release(s.rows, id)), id, Done(Failure))
    case ReleaseFails(id) => Orphan(Goto(s, id, Done(Failure)), DeleteStmt(id))
    case Answer(id) =>
      var pc := s.threads[id].pc;
      Goto(s, id, Done(Success(pc.poid, pc.status)))
    case Crash(id, inFlight) =>
      var stmt := Current(id, s.threads[id].pc);
      var c := Goto(s, id, Crashed);
      if inFlight && stmt.Some? then Orphan(c, stmt.value) else c
    case LateStatement(stmt) => s.(rows := Execute(s, stmt), orphans := s.orphans - {stmt})
    case LateAccept(id, answer) =>
      if id in s.threads then Place(s, id, answer.poid).(orphans := s.orphans - {PlaceStmt(id)}) else s
    case FillRow(provider, poid, status, filled, avg) =>
      s.(rows := UpdateFill(s.rows, provider, poid, status, filled, avg))
  }

  // ---------- the invariant ----------

  // A request that owns its PENDING row and may still settle it.
  predicate Owner(pc: Pc) {
    pc.Holding? || pc.Calling? || pc.Accepted? || pc.Releasing?
  }

  predicate BeforeReservation(pc: Pc) {
    pc.Trying? || pc.ByIntent? || pc.ByKey? || pc.Waiting?
  }

  // The columns no statement ever changes
  predicate SameOrder(row: Order, order: Order) {
    row == Reserved(order).(status := row.status, poid := row.poid, filled := row.filled, avg := row.avg)
  }

  ghost predicate RowOk(s: State, id: Id) {
    id in s.rows ==>
      && id in s.threads
      && SameOrder(s.rows[id], s.threads[id].order)
      && (s.rows[id].status == Pending <==> s.rows[id].poid == None)
      && (s.rows[id].poid.Some? ==> s.threads[id].placed == [s.rows[id].poid.value])
  }

  predicate PendingAt(s: State, id: Id) {
    id in s.rows && s.rows[id].status == Pending
  }

  // The row of an accepted order that answers a request
  predicate Answers(s: State, owner: Id, order: Order, poid: string) {
    && owner in s.rows && owner in s.threads
    && s.threads[owner].placed == [poid]
    && Conflict(s.rows[owner], order)
  }

  ghost predicate Answered(s: State, order: Order, poid: string) {
    exists owner :: Answers(s, owner, order, poid)
  }

  ghost predicate ThreadOk(s: State, id: Id) {
    id in s.threads ==>
      var t := s.threads[id];
      && |t.placed| <= 1
      && (t.placed != [] ==> id in s.rows)
      && (BeforeReservation(t.pc) ==> id !in s.rows && t.placed == [])
      && (t.pc.ByKey? ==> t.order.key != "")
      && (Owner(t.pc) ==> PendingAt(s, id))
      && (Owner(t.pc) && !t.pc.Accepted? ==> t.placed == [])
      && (t.pc.Accepted? || t.pc.Settling? ==> t.placed == [t.pc.poid] && t.pc.status != Pending)
      && (t.pc.Done? && t.pc.reply.Failure? ==> t.placed == [])
      && (t.pc.Done? && t.pc.reply.Success? ==> t.pc.reply.status != Pending && Answered(s, t.order, t.pc.reply.poid))
  }

  ghost predicate OrphanOk(s: State, stmt: Stmt) {
    && stmt.id in s.threads
    && var t := s.threads[stmt.id];
       match stmt
       case InsertStmt(id) => Terminal(t.pc) && t.placed == [] && id !in s.rows
       case DeleteStmt(id) => Terminal(t.pc) && t.placed == []
       case ConfirmStmt(id, poid, status, _, _) =>
         (Terminal(t.pc) || t.pc.Settling?) && t.placed == [poid] && status != Pending
       case PlaceStmt(id) => t.pc.Crashed? && t.placed == [] && PendingAt(s, id) && DeleteStmt(id) !in s.orphans
  }

  ghost predicate Inv(s: State) {
    && Unique(s.rows)
    && (forall id :: RowOk(s, id))
    && (forall id :: ThreadOk(s, id))
    && (forall stmt :: stmt in s.orphans ==> OrphanOk(s, stmt))
  }

  // ---------- every step keeps it ----------

  lemma InvInit()
    ensures Inv(INIT)
  {
  }

  predicate SameColumns(a: Order, b: Order) {
    b == a.(status := b.status, poid := b.poid, filled := b.filled, avg := b.avg)
  }

  // From s to s' the rows of accepted orders keep their identifying columns, and their acceptance.
  ghost predicate KeepsAccepted(s: State, s': State) {
    forall o :: o in s.rows && o in s.threads && s.threads[o].placed != [] ==>
      && o in s'.rows && o in s'.threads
      && s'.threads[o].placed == s.threads[o].placed
      && SameColumns(s.rows[o], s'.rows[o])
  }

  lemma AnsweredStays(s: State, s': State)
    requires KeepsAccepted(s, s')
    ensures forall order, poid :: Answered(s, order, poid) ==> Answered(s', order, poid)
  {
    forall order, poid | Answered(s, order, poid)
      ensures Answered(s', order, poid)
    {
      var owner :| Answers(s, owner, order, poid);
      assert Answers(s', owner, order, poid);
    }
  }

  // A step of one request that touches neither the table nor the exchange.
  lemma GotoKeepsInv(s: State, id: Id, pc: Pc)
    requires Inv(s) && id in s.threads && !Terminal(s.threads[id].pc)
    requires ThreadOk(Goto(s, id, pc), id)
    requires s.threads[id].pc.Settling? ==> Terminal(pc)
    ensures Inv(Goto(s, id, pc))
  {
    var s' := Goto(s, id, pc);
    AnsweredStays(s, s');
    forall other ensures ThreadOk(s', other) {
      assert ThreadOk(s, other);
    }
    forall other ensures RowOk(s', other) {
      assert RowOk(s, other);
    }
    forall stmt | stmt in s'.orphans ensures OrphanOk(s', stmt) {
      assert OrphanOk(s, stmt);
    }
  }

  lemma OrphanKeepsInv(s: State, stmt: Stmt)
    requires Inv(s) && OrphanOk(s, stmt)
    requires stmt.DeleteStmt? ==> PlaceStmt(stmt.id) !in s.orphans
    ensures Inv(Orphan(s, stmt))
  {
    var s' := Orphan(s, stmt);
    AnsweredStays(s, s');
    forall other ensures ThreadOk(s', other) && RowOk(s', other) {
      assert ThreadOk(s, other) && RowOk(s, other);
    }
    forall o | o in s'.orphans ensures OrphanOk(s', o) {
      assert o in s.orphans ==> OrphanOk(s, o);
    }
  }

  lemma StartKeepsInv(s: State, id: Id, order: Order)
    requires Inv(s) && Enabled(s, Start(id, order))
    ensures Inv(Apply(s, Start(id, order)))
  {
    var s' := Apply(s, Start(id, order));
    AnsweredStays(s, s');
    forall other ensures ThreadOk(s', other) && RowOk(s', other) {
      assert ThreadOk(s, other) && RowOk(s, other);
    }
    forall stmt | stmt in s'.orphans ensures OrphanOk(s', stmt) {
      assert OrphanOk(s, stmt);
    }
  }

  lemma WinKeepsInv(s: State, id: Id)
    requires Inv(s) && At(s, id, Trying) && CanInsert(s.rows, id, s.threads[id].order)
    ensures Inv(Apply(s, TryReserve(id)))
  {
    var s' := Apply(s, TryReserve(id));
    AnsweredStays(s, s');
    forall other ensures ThreadOk(s', other) && RowOk(s', other) {
      assert ThreadOk(s, other) && RowOk(s, other);
    }
    forall stmt | stmt in s'.orphans ensures OrphanOk(s', stmt) {
      assert OrphanOk(s, stmt);
    }
  }

  lemma LateInsertKeepsInv(s: State, id: Id)
    requires Inv(s) && InsertStmt(id) in s.orphans
    ensures Inv(Apply(s, LateStatement(InsertStmt(id))))
  {
    var s' := Apply(s, LateStatement(InsertStmt(id)));
    assert OrphanOk(s, InsertStmt(id));
    AnsweredStays(s, s');
    forall other ensures ThreadOk(s', other) && RowOk(s', other) {
      assert ThreadOk(s, other) && RowOk(s, other);
    }
    forall stmt | stmt in s'.orphans ensures OrphanOk(s', stmt) {
      assert OrphanOk(s, stmt);
    }
  }

  // Confirming a PENDING row of an accepted order, now or late
  lemma ConfirmKeepsInv(s: State, id: Id, poid: string, status: Status, filled: Dec, avg: Dec)
    requires Inv(s) && id in s.threads && s.threads[id].placed == [poid] && status != Pending
    requires s.threads[id].pc.Settling? || Terminal(s.threads[id].pc)
    ensures Inv(s.(rows := Confirm(s.rows, id, poid, status, filled, avg)))
  {
    hide Quantity, Price, Answered;
    var s' := s.(rows := Confirm(s.rows, id, poid, status, filled, avg));
    AnsweredStays(s, s');
    forall other ensures ThreadOk(s', other) && RowOk(s', other) {
      assert ThreadOk(s, other) && RowOk(s, other);
    }
    forall stmt | stmt in s'.orphans ensures OrphanOk(s', stmt) {
      assert OrphanOk(s, stmt);
    }
  }

  // Deleting a PENDING row whose order the exchange never accepted, now or late
  lemma DeleteKeepsInv(s: State, id: Id)
    requires Inv(s) && id in s.threads && Terminal(s.threads[id].pc) && s.threads[id].placed == []
    requires PlaceStmt(id) !in s.orphans
    ensures Inv(s.(rows := Release(s.rows, id)))
  {
    var s' := s.(rows := Release(s.rows, id));
    AnsweredStays(s, s');
    forall other ensures ThreadOk(s', other) && RowOk(s', other) {
      assert ThreadOk(s, other) && RowOk(s, other);
    }
    forall stmt | stmt in s'.orphans ensures OrphanOk(s', stmt) {
      assert OrphanOk(s, stmt);
    }
  }

  // A fill leaves the table's ids alone, and every row's identifying columns and provider order id.
  // Only rows that have a provider order id change status.
  lemma FillTouchesConfirmedRows(t: Table, provider: string, poid: string, status: Status, filled: Dec, avg: Dec)
    ensures var t' := UpdateFill(t, provider, poid, status, filled, avg);
            && t'.Keys == t.Keys
            && forall id :: id in t ==>
                 && SameColumns(t[id], t'[id]) && t'[id].poid == t[id].poid
                 && (t[id].poid == None ==> t'[id] == t[id])
                 && (t'[id] == t[id] || t'[id].status == status)
  {
  }

  lemma FillKeepsInv(s: State, provider: string, poid: string, status: Status, filled: Dec, avg: Dec)
    requires Inv(s) && status != Pending
    ensures Inv(s.(rows := UpdateFill(s.rows, provider, poid, status, filled, avg)))
  {
    hide UpdateFill, Reserved;
    var s' := s.(rows := UpdateFill(s.rows, provider, poid, status, filled, avg));
    FillTouchesConfirmedRows(s.rows, provider, poid, status, filled, avg);
    AnsweredStays(s, s');
    forall a, b | a in s'.rows && b in s'.rows && a != b ensures !Conflict(s'.rows[a], s'.rows[b]) {
      assert !Conflict(s.rows[a], s.rows[b]);
    }
    forall other ensures RowOk(s', other) {
      assert RowOk(s, other);
    }
    forall other ensures ThreadOk(s', other) {
      assert RowOk(s, other) && ThreadOk(s, other);
    }
    forall stmt | stmt in s'.orphans ensures OrphanOk(s', stmt) {
      assert RowOk(s, stmt.id) && OrphanOk(s, stmt);
    }
  }

  // The exchange accepts an order, while the client waits or after it died.
  lemma AcceptKeepsInv(s: State, a: Action)
    requires Inv(s) && Enabled(s, a) && (a.BrokerAccepts? || a.LateAccept?)
    ensures Inv(Apply(s, a))
  {
    hide Reserved, Conflict;
    var s' := Apply(s, a);
    if a.LateAccept? {
      assert OrphanOk(s, PlaceStmt(a.id));
    }
    assert ThreadOk(s, a.id) && RowOk(s, a.id);
    AnsweredStays(s, s');
    forall other ensures RowOk(s', other) {
      assert RowOk(s, other);
    }
    forall other ensures ThreadOk(s', other) {
      assert ThreadOk(s, other);
    }
    forall stmt | stmt in s'.orphans ensures OrphanOk(s', stmt) {
      assert OrphanOk(s, stmt);
    }
  }

  // Forgetting an orphan is harmless.
  lemma DropOrphanKeepsInv(s: State, stmt: Stmt)
    requires Inv(s)
    ensures Inv(s.(orphans := s.orphans - {stmt}))
  {
    var s' := s.(orphans := s.orphans - {stmt});
    AnsweredStays(s, s');
    forall other ensures ThreadOk(s', other) && RowOk(s', other) {
      assert ThreadOk(s, other) && RowOk(s, other);
    }
    forall o | o in s'.orphans ensures OrphanOk(s', o) {
      assert OrphanOk(s, o);
    }
  }

  // A duplicate answers with a recorded order of the same intent or (tenant, key).
  lemma InspectOk(s: State, id: Id, found: Id)
    requires Inv(s) && id in s.threads && BeforeReservation(s.threads[id].pc)
    requires found in s.rows && Conflict(s.rows[found], s.threads[id].order)
    ensures ThreadOk(Goto(s, id, Inspect(s.rows[found])), id)
  {
    assert RowOk(s, found) && ThreadOk(s, id) && ThreadOk(s, found);
    var pc := Inspect(s.rows[found]);
    if pc.Done? {
      assert Answers(Goto(s, id, pc), found, s.threads[id].order, pc.reply.poid);
    }
  }

  lemma LateStatementKeepsInv(s: State, stmt: Stmt)
    requires Inv(s) && Enabled(s, LateStatement(stmt))
    ensures Inv(Apply(s, LateStatement(stmt)))
  {
    assert OrphanOk(s, stmt);
    match stmt
    case InsertStmt(id) =>
      LateInsertKeepsInv(s, id);
    case ConfirmStmt(id, poid, status, filled, avg) =>
      DropOrphanKeepsInv(s, stmt);
      ConfirmKeepsInv(s.(orphans := s.orphans - {stmt}), id, poid, status, filled, avg);
    case DeleteStmt(id) =>
      assert PlaceStmt(id) in s.orphans ==> OrphanOk(s, PlaceStmt(id));
      DropOrphanKeepsInv(s, stmt);
      DeleteKeepsInv(s.(orphans := s.orphans - {stmt}), id);
    case PlaceStmt(_) =>
  }

  lemma CrashKeepsInv(s: State, id: Id, inFlight: bool)
    requires Inv(s) && Enabled(s, Crash(id, inFlight))
    ensures Inv(Apply(s, Crash(id, inFlight)))
  {
    assert ThreadOk(s, id);
    GotoKeepsInv(s, id, Crashed);
    var stmt := Current(id, s.threads[id].pc);
    if inFlight && stmt.Some? {
      assert PlaceStmt(id) in s.orphans ==> OrphanOk(s, PlaceStmt(id));
      assert DeleteStmt(id) in s.orphans ==> OrphanOk(s, DeleteStmt(id));
      var c := Goto(s, id, Crashed);
      assert PendingAt(s, id) ==> PendingAt(c, id);
      OrphanKeepsInv(c, stmt.value);
    }
  }

  // Own writes and failures of a request that is past reserveOrder
  lemma SettleKeepsInv(s: State, a: Action)
    requires Inv(s) && Enabled(s, a)
    requires a.ConfirmRow? || a.ConfirmFails? || a.ReleaseRow? || a.ReleaseFails? || a.ReserveFails?
    ensures Inv(Apply(s, a))
  {
    var id := a.id;
    var pc := s.threads[id].pc;
    assert ThreadOk(s, id);
    assert PlaceStmt(id) in s.orphans ==> OrphanOk(s, PlaceStmt(id));
    match a
    case ConfirmRow(_) =>
      GotoKeepsInv(s, id, Settling(pc.poid, pc.status));
      ConfirmKeepsInv(Goto(s, id, Settling(pc.poid, pc.status)), id, pc.poid, pc.status, pc.filled, pc.avg);
    case ConfirmFails(_) =>
      GotoKeepsInv(s, id, Settling(pc.poid, pc.status));
      OrphanKeepsInv(Goto(s, id, Settling(pc.poid, pc.status)), ConfirmStmt(id, pc.poid, pc.status, pc.filled, pc.avg));
    case ReleaseRow(_) =>
      GotoKeepsInv(s, id, Done(Failure));
      DeleteKeepsInv(Goto(s, id, Done(Failure)), id);
    case ReleaseFails(_) =>
      GotoKeepsInv(s, id, Done(Failure));
      OrphanKeepsInv(Goto(s, id, Done(Failure)), DeleteStmt(id));
    case ReserveFails(_) =>
      GotoKeepsInv(s, id, Done(Failure));
      OrphanKeepsInv(Goto(s, id, Done(Failure)), InsertStmt(id));
  }

  lemma LookupKeepsInv(s: State, a: Action)
    requires Inv(s) && Enabled(s, a) && (a.LookupIntent? || a.LookupKey?)
    ensures Inv(Apply(s, a))
  {
    var id := a.id;
    assert ThreadOk(s, id);
    if a.found.Some? {
      InspectOk(s, id, a.found.value);
      GotoKeepsInv(s, id, Inspect(s.rows[a.found.value]));
    } else {
      GotoKeepsInv(s, id, if a.LookupIntent? && s.threads[id].order.key != "" then ByKey else Waiting);
    }
  }

  lemma AnswerKeepsInv(s: State, id: Id)
    requires Inv(s) && Enabled(s, Answer(id))
    ensures Inv(Apply(s, Answer(id)))
  {
    hide Quantity, Price, Unique;
    var t := s.threads[id];
    var pc := Done(Success(t.pc.poid, t.pc.status));
    assert ThreadOk(s, id) && RowOk(s, id);
    assert Answers(Goto(s, id, pc), id, t.order, t.pc.poid);
    GotoKeepsInv(s, id, pc);
  }

  // Steps that only move one request's program counter, to a point that claims nothing new
  lemma MoveKeepsInv(s: State, a: Action)
    requires Inv(s) && Enabled(s, a)
    requires a.LookupFails? || a.PollAgain? || a.GiveUp? || a.CredentialsLoaded? || a.CredentialsFail? || a.BrokerFails?
    ensures Inv(Apply(s, a))
  {
    assert ThreadOk(s, a.id);
    GotoKeepsInv(s, a.id, Apply(s, a).threads[a.id].pc);
  }

  lemma StepKeepsInv(s: State, a: Action)
    requires Inv(s) && Enabled(s, a)
    ensures Inv(Apply(s, a))
  {
    hide Inv, Apply;
    match a
    case Start(id, order) => StartKeepsInv(s, id, order);
    case TryReserve(id) => TryReserveKeepsInv(s, id);
    case BrokerAccepts(_, _) => AcceptKeepsInv(s, a);
    case LateAccept(_, _) => AcceptKeepsInv(s, a);
    case Crash(id, inFlight) => CrashKeepsInv(s, id, inFlight);
    case LateStatement(stmt) => LateStatementKeepsInv(s, stmt);
    case FillRow(provider, poid, status, filled, avg) => FillRowKeepsInv(s, a);
    case ConfirmRow(_) => SettleKeepsInv(s, a);
    case ConfirmFails(_) => SettleKeepsInv(s, a);
    case ReleaseRow(_) => SettleKeepsInv(s, a);
    case ReleaseFails(_) => SettleKeepsInv(s, a);
    case ReserveFails(_) => SettleKeepsInv(s, a);
    case LookupIntent(_, _) => LookupKeepsInv(s, a);
    case LookupKey(_, _) => LookupKeepsInv(s, a);
    case Answer(id) => AnswerKeepsInv(s, id);
    case _ => MoveKeepsInv(s, a);
  }

  lemma TryReserveKeepsInv(s: State, id: Id)
    requires Inv(s) && At(s, id, Trying)
    ensures Inv(Apply(s, TryReserve(id)))
  {
    assert ThreadOk(s, id);
    if CanInsert(s.rows, id, s.threads[id].order) {
      WinKeepsInv(s, id);
    } else {
      GotoKeepsInv(s, id, ByIntent);
    }
  }

  lemma FillRowKeepsInv(s: State, a: Action)
    requires Inv(s) && Enabled(s, a) && a.FillRow?
    ensures Inv(Apply(s, a))
  {
    FillKeepsInv(s, a.provider, a.poid, a.status, a.filled, a.avg);
  }
}
