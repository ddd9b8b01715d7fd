/** ExecuteTrade, reserveOrder and releaseReservation as the code of one request among arbitrary
    others. Between any two of its statements the rest of the system may take any number of steps
    (`Interfere`); every statement of its own is one step of the reservation protocol, so the whole
    history stays a run of that protocol and its theorems apply to the answer returned here. */
module ExecuteTrade {

  import opened Decimals
  import opened Options
  import opened Orders
  import opened Reservation
  import opened ReservationRuns
  import opened FillArithmetic
  import Settlement
  import OrderTable
  import Strings

  // How reserveOrder ends
  datatype Reserve = Held | Existing(row: Order) | Refused

  // broker.OrderResult
  datatype OrderResult = OrderResult(poid: string, raw: string, executed: Dec, avgPrice: Dec)

  function StatusText(s: Status): string {
    match s
    case Pending => "PENDING"
    case Submitted => "SUBMITTED"
    case Partial => "PARTIAL"
    case Filled => "FILLED"
    case Canceled => "CANCELED"
    case Rejected => "REJECTED"
  }

  lemma StatusTextIsFilled(s: Status)
    ensures Strings.EqualFold(StatusText(s), "FILLED") <==> s == Filled
  {
    assert |StatusText(s)| == |Strings.ToUpper(StatusText(s))|;
    assert s == Rejected ==> Strings.ToUpper(StatusText(s))[0] == 'R';
  }

  // What the outside does to one request: whether its statements may fail, whether its caller may
  // leave, whether its credentials load, the exchange's answer (None: an error), and whether its own
  // execution settles downstream
  datatype Calls = Calls(dbMayFail: bool, callerMayLeave: bool, credentialsLoad: bool, answer: Option<OrderResult>,
                         fillSettles: bool)

  // What is confirmed on the row. With a fill processor the row starts unfilled, so that ProcessFill
  // does not count the execution twice.
  function AcceptanceOf(result: OrderResult, wired: bool): Acceptance {
    if wired then Acceptance(result.poid, result.raw, ZERO, ZERO)
    else Acceptance(result.poid, result.raw, result.executed, result.avgPrice)
  }

  function Confirmed(o: Order, a: Acceptance): Order {
    o.(poid := Some(a.poid), status := MapOrderStatus(a.raw), filled := Quantity(a.filled), avg := Price(a.avg))
  }

  lemma ConfirmedUnfilled(o: Order, result: OrderResult)
    ensures V(Confirmed(o, AcceptanceOf(result, true)).filled) == 0.0
  {
    hide V, RoundTo, OnGrid, MapOrderStatus;
    SignOf(ZERO);
    ZeroOnGrid(QUANTITY_SCALE);
    RoundFixed(0.0, QUANTITY_SCALE);
  }

  lemma FillOfUnfilled(o: Order, result: OrderResult, row: Order, e: FillEvent)
    requires row == Confirmed(o, AcceptanceOf(result, true)) && V(row.filled) == 0.0
    requires V(e.qty) > 0.0 && e.qty == result.executed && e.price == result.avgPrice
    ensures var direct := Confirmed(o, AcceptanceOf(result, false));
            && V(AfterFill(row, e).filled) == V(direct.filled) == RoundTo(V(result.executed), QUANTITY_SCALE)
            && AfterFill(row, e).avg == direct.avg
  {
    hide V, RoundTo, OnGrid, Add, Cmp, MapOrderStatus;
    PlannedQuantity(row, e);
  }

  // Either way the execution is counted once: confirming an unfilled row and then processing the
  // fill leaves the figures that confirming the executed quantity would have left.
  lemma ExecutionCountsOnce(o: Order, result: OrderResult, row: Order, e: FillEvent)
    requires row == Confirmed(o, AcceptanceOf(result, true))
    requires V(e.qty) > 0.0 && e.qty == result.executed && e.price == result.avgPrice
    ensures V(row.filled) == 0.0
    ensures var direct := Confirmed(o, AcceptanceOf(result, false));
            && V(AfterFill(row, e).filled) == V(direct.filled) == RoundTo(V(result.executed), QUANTITY_SCALE)
            && AfterFill(row, e).avg == direct.avg
  {
    hide V, RoundTo, AfterFill, Confirmed, AcceptanceOf;
    ConfirmedUnfilled(o, result);
    FillOfUnfilled(o, result, row, e);
  }

  // Steps taken between two statements of request id
  ghost predicate ByOthers(before: seq<Action>, after: seq<Action>, id: Id) {
    before <= after && forall i :: |before| <= i < |after| ==> Actor(after[i]) != Some(id)
  }

  lemma OthersKeepThread(s: State, a: Action, id: Id)
    requires Inv(s) && Enabled(s, a) && Actor(a) != Some(id)
    requires id in s.threads && !s.threads[id].pc.Crashed?
    ensures id in Apply(s, a).threads && Apply(s, a).threads[id] == s.threads[id]
  {
    if a.LateAccept? {
      assert OrphanOk(s, PlaceStmt(a.id));
    }
  }

  lemma {:induction false} OthersKeepThreadRun(s: State, acts: seq<Action>, id: Id)
    requires Inv(s) && Exec(s, acts).Some?
    requires forall i :: 0 <= i < |acts| ==> Actor(acts[i]) != Some(id)
    requires id in s.threads && !s.threads[id].pc.Crashed?
    ensures id in Exec(s, acts).value.threads && Exec(s, acts).value.threads[id] == s.threads[id]
    decreases |acts|
  {
    hide Inv, Enabled, Apply;
    if acts != [] {
      StepKeepsInv(s, acts[0]);
      OthersKeepThread(s, acts[0], id);
      OthersKeepThreadRun(Apply(s, acts[0]), acts[1..], id);
    }
  }

  lemma InterferenceKeepsThread(before: seq<Action>, after: seq<Action>, id: Id)
    requires IsRun(before) && IsRun(after) && ByOthers(before, after, id)
    requires id in Final(before).threads && !Final(before).threads[id].pc.Crashed?
    ensures id in Final(after).threads && Final(after).threads[id] == Final(before).threads[id]
  {
    var rest := after[|before|..];
    assert after == before + rest;
    ExecSplit(INIT, before, rest);
    RunKeepsInv(before);
    OthersKeepThreadRun(Final(before), rest, id);
  }

  lemma FreshIdHasNoRow(acts: seq<Action>, id: Id)
    requires IsRun(acts) && id !in Final(acts).threads
    ensures id !in Final(acts).rows
  {
    RunKeepsInv(acts);
    assert RowOk(Final(acts), id);
  }

  lemma ExtendRun(acts: seq<Action>, a: Action)
    requires IsRun(acts) && Enabled(Final(acts), a)
    ensures IsRun(acts + [a]) && Final(acts + [a]) == Apply(Final(acts), a)
  {
    hide Enabled, Apply;
    ExecSplit(INIT, acts, [a]);
    assert Exec(Apply(Final(acts), a), []) == Some(Apply(Final(acts), a));
  }

  // A request that has no statement under way leaves no orphans, and before its reservation no row.
  lemma NoOrphans(s: State, id: Id)
    requires Inv(s) && id in s.threads && (BeforeReservation(s.threads[id].pc) || Owner(s.threads[id].pc))
    ensures forall stmt :: stmt in s.orphans ==> stmt.id != id
    ensures BeforeReservation(s.threads[id].pc) ==> id !in s.rows
  {
    assert ThreadOk(s, id);
    forall stmt | stmt in s.orphans ensures stmt.id != id {
      assert OrphanOk(s, stmt);
    }
  }

  function SyncEvent(order: Order, poid: string, status: Status, result: OrderResult): FillEvent {
    FillEvent(order.provider, poid, StatusText(status), result.executed, result.avgPrice)
  }

  // The amount the synchronous fill sends to Livro is the broker's cumulative quote quantity, up to
  // the division's error on every executed unit and one rounding to four decimals.
  lemma SyncFillSettles(row: Order, order: Order, poid: string, status: Status, result: OrderResult,
                        cumulativeQuote: Dec)
    requires V(row.filled) >= 0.0 && V(result.executed) > 0.0
    requires result.avgPrice == Settlement.AveragePrice(cumulativeQuote, result.executed)
    ensures var e := SyncEvent(order, poid, status, result);
            var entry := Settlement.EntryOf(Settlement.DirectLivro, row, NextFill(row, e), e);
            var bound := HalfUnit(DIVISION_PRECISION) * V(result.executed) + HalfUnit(4);
            -bound <= Settlement.Denoted(Settlement.FigureText(entry)) - V(cumulativeQuote) <= bound
  {
    hide V, HalfUnit, NextFill, StatusText;
    hide Settlement.Denoted, Settlement.EntryOf, Settlement.FigureText, Settlement.AveragePrice;
    Settlement.SyncFillAmount(row, SyncEvent(order, poid, status, result), cumulativeQuote);
  }

  // The history ends with the fill e of the row read from the table t.
  ghost predicate FillWritten(t: Table, acts: seq<Action>, provider: string, poid: string, row: Order, e: FillEvent) {
    && (exists id :: ProviderOrderIs(t, id, provider, poid) && t[id] == row)
    && V(row.filled) >= 0.0 && V(e.qty) > 0.0
    && var p := NextFill(row, e);
       acts != [] && acts[|acts| - 1] == FillRow(provider, poid, p.status, p.filled, p.avg)
  }

  lemma OwnRowIsFound(acts: seq<Action>, id: Id, poid: string)
    requires IsRun(acts)
    ensures id in Final(acts).rows && Final(acts).rows[id].poid == Some(poid) ==>
      id in Final(acts).threads && ProviderOrderIs(Final(acts).rows, id, Final(acts).threads[id].order.provider, poid)
  {
    RunKeepsInv(acts);
    assert RowOk(Final(acts), id);
  }

  lemma FillKeepsRecorded(t: Table, id: Id, provider: string, poid: string, p: Plan)
    requires p.status != Pending
    ensures var t' := UpdateFill(t, provider, poid, p.status, p.filled, p.avg);
            id in t && t[id].status != Pending ==> id in t' && t'[id].status != Pending && t'[id].poid == t[id].poid
  {
    hide Quantity, Price;
  }

  lemma RecordedStays(before: seq<Action>, after: seq<Action>, id: Id)
    requires IsRun(before) && IsRun(after) && before <= after
    requires id in Final(before).rows && Final(before).rows[id].status != Pending
    ensures id in Final(after).rows && Final(after).rows[id].status != Pending
    ensures Final(after).rows[id].poid == Final(before).rows[id].poid
  {
    var rest := after[|before|..];
    assert after == before + rest;
    ExecSplit(INIT, before, rest);
    RunKeepsInv(before);
    RecordedRowRun(Final(before), rest, id);
  }

  // A recorded row keeps its intent and its id of the exchange.
  lemma RecordedOrderStays(before: seq<Action>, after: seq<Action>, id: Id)
    requires IsRun(before) && IsRun(after) && before <= after
    requires id in Final(before).rows && Final(before).rows[id].status != Pending
    ensures id in Final(after).rows && Final(after).rows[id].status != Pending
    ensures Final(after).rows[id].poid == Final(before).rows[id].poid
    ensures Final(after).rows[id].intent == Final(before).rows[id].intent
    ensures Final(after).rows[id].provider == Final(before).rows[id].provider
  {
    hide HoldsRequest;
    RecordedStays(before, after, id);
    var rest := after[|before|..];
    assert after == before + rest;
    ExecSplit(INIT, before, rest);
    RunKeepsInv(before);
    RowsHoldRequests(before, id);
    RowsHoldRequests(after, id);
    ExecKeepsThread(Final(before), rest, id);
    SameRequest(Final(before).rows[id], Final(after).rows[id], Final(before).threads[id].order);
  }

  lemma SameRequest(a: Order, b: Order, order: Order)
    requires HoldsRequest(a, order) && HoldsRequest(b, order)
    ensures a.intent == b.intent && a.provider == b.provider
  {
  }

  // The row is recorded for the intent, under this id of the exchange.
  ghost predicate RecordedFor(t: Table, id: Id, intent: Uuid, poid: string) {
    id in t && t[id].status != Pending && t[id].intent == intent && t[id].poid == Some(poid)
  }

  lemma OneRowPerIntent(acts: seq<Action>)
    requires IsRun(acts)
    ensures var t := Final(acts).rows;
            forall a, b :: a in t && b in t && t[a].intent == t[b].intent ==> a == b
  {
    RunKeepsInv(acts);
    var t := Final(acts).rows;
    forall a, b | a in t && b in t && t[a].intent == t[b].intent ensures a == b {
      assert a != b ==> !Conflict(t[a], t[b]);
    }
  }

  lemma SameIntentBlocks(t: Table, id: Id, order: Order)
    ensures (exists o :: o in t && t[o].intent == order.intent) ==> !CanInsert(t, id, order)
    ensures id !in t && NothingInTheWay(t, order) ==> CanInsert(t, id, order)
  {
  }

  lemma InsertRefused(t: Table, id: Id, order: Order)
    requires !CanInsert(t, id, order)
    ensures Insert(t, id, order) == t
  {
  }

  // ---------- what becomes of the execution reported with the answer ----------

  predicate IsFillOf(a: Action, provider: string, poid: string) {
    a.FillRow? && a.provider == provider && a.poid == poid
  }

  // The fill's figures: the quantity of the row and what was executed, and the status they give
  ghost predicate FillAdds(a: Action, row: Order, status: Status, executed: Dec, price: Dec) {
    && a.FillRow?
    && V(a.filled) == V(row.filled) + V(executed)
    && (V(row.filled) == 0.0 ==> V(a.avg) == V(price))
    && (a.status == Filled <==> status == Filled || V(row.filled) + V(executed) >= V(row.target))
    && (a.status == Filled || a.status == Partial)
  }

  // From there on the history contains a fill of this provider order, which adds what was executed to
  // a row of this order read from there on.
  ghost predicate FillFollows(acts: seq<Action>, from: nat, provider: string, poid: string, status: Status,
                              executed: Dec, price: Dec)
  {
    exists j: nat, k: nat, id ::
      && from <= j <= k < |acts| && IsFillOf(acts[k], provider, poid)
      && IsRun(acts[..j]) && ProviderOrderIs(Final(acts[..j]).rows, id, provider, poid)
      && FillAdds(acts[k], Final(acts[..j]).rows[id], status, executed, price)
  }

  // No fill of this provider order from there on, or one if a fill processor counts the execution
  ghost predicate OwnFillsOnly(acts: seq<Action>, from: nat, provider: string, poid: string, wired: bool) {
    forall j: nat, k: nat ::
      from <= j < |acts| && from <= k < |acts| && IsFillOf(acts[j], provider, poid) && IsFillOf(acts[k], provider, poid)
      ==> wired && j == k
  }

  // No negative quantity ever entered the system.
  ghost predicate AllSane(acts: seq<Action>) {
    forall i :: 0 <= i < |acts| ==> OrderTable.SaneAction(acts[i])
  }

  // The i-th step is the acceptance of this request's order. With a fill processor its execution is
  // filled in afterwards; and if nobody else fills the order, the row holds just what was executed,
  // with a fill processor or without.
  ghost predicate Counted(acts: seq<Action>, i: nat, rows: Table, id: Id, order: Order, result: OrderResult,
                          wired: bool)
  {
    && IsRun(acts) && i < |acts|
    && acts[i].BrokerAccepts? && acts[i].id == id && acts[i].answer.poid == result.poid
    && (wired ==> FillFollows(acts, i, order.provider, result.poid, MapOrderStatus(result.raw), result.executed,
                              result.avgPrice))
    && (OwnFillsOnly(acts, i, order.provider, result.poid, wired) && OrderTable.DistinctIds(Final(acts)) ==>
          id in rows && V(rows[id].filled) == RoundTo(V(result.executed), QUANTITY_SCALE))
  }

  // The exchange reports an execution, and everything it takes to count it works.
  ghost predicate ExecutionSettles(w: Calls, result: OrderResult, wired: bool) {
    !w.dbMayFail && V(result.executed) > 0.0 && (wired ==> w.fillSettles && V(result.avgPrice) > 0.0)
  }

  lemma SaneTable(acts: seq<Action>, id: Id)
    requires IsRun(acts) && AllSane(acts) && id in Final(acts).rows
    ensures V(Final(acts).rows[id].filled) >= 0.0
  {
    hide V, OnGrid, OrderTable.SaneAction;
    OrderTable.RunKeepsSane(INIT, acts);
    Settlement.StoredFacts(Final(acts).rows[id]);
  }

  // A row that nobody fills stays as it is.
  lemma {:induction false} UnfilledExec(s: State, acts: seq<Action>, id: Id, provider: string, poid: string)
    requires Inv(s) && Exec(s, acts).Some?
    requires ProviderOrderIs(s.rows, id, provider, poid) && s.rows[id].status != Pending
    requires forall i :: 0 <= i < |acts| ==> !IsFillOf(acts[i], provider, poid)
    ensures var s' := Exec(s, acts).value; id in s'.rows && s'.rows[id] == s.rows[id]
    decreases |acts|
  {
    hide Inv, Enabled, Apply;
    if acts != [] {
      StepKeepsInv(s, acts[0]);
      UnfilledStep(s, acts[0], id, provider, poid);
      UnfilledExec(Apply(s, acts[0]), acts[1..], id, provider, poid);
    }
  }

  lemma UnfilledStep(s: State, a: Action, id: Id, provider: string, poid: string)
    requires Inv(s) && Enabled(s, a) && ProviderOrderIs(s.rows, id, provider, poid) && s.rows[id].status != Pending
    requires !IsFillOf(a, provider, poid)
    ensures id in Apply(s, a).rows && Apply(s, a).rows[id] == s.rows[id]
  {
    hide Inv, UpdateFill;
    RecordedRowStep(s, a, id);
    if a.FillRow? {
      FillWrites(s.rows, a.provider, a.poid, a.status, a.filled, a.avg);
    }
  }

  lemma UnfilledStays(before: seq<Action>, after: seq<Action>, id: Id, provider: string, poid: string)
    requires IsRun(before) && IsRun(after) && before <= after
    requires ProviderOrderIs(Final(before).rows, id, provider, poid) && Final(before).rows[id].status != Pending
    requires forall i :: |before| <= i < |after| ==> !IsFillOf(after[i], provider, poid)
    ensures id in Final(after).rows && Final(after).rows[id] == Final(before).rows[id]
  {
    hide ProviderOrderIs, IsFillOf;
    var rest := after[|before|..];
    assert after == before + rest;
    ExecSplit(INIT, before, rest);
    RunKeepsInv(before);
    forall i | 0 <= i < |rest| ensures !IsFillOf(rest[i], provider, poid) {
      assert rest[i] == after[|before| + i];
    }
    UnfilledExec(Final(before), rest, id, provider, poid);
  }

  // Only one row has the provider order id, if exchanges never issue an id twice.
  lemma OnlyOneRow(before: seq<Action>, after: seq<Action>, a: Id, b: Id, provider: string, poid: string)
    requires IsRun(before) && IsRun(after) && before <= after && OrderTable.DistinctIds(Final(after))
    requires ProviderOrderIs(Final(before).rows, a, provider, poid)
    requires ProviderOrderIs(Final(before).rows, b, provider, poid)
    ensures a == b
  {
    RunKeepsInv(before);
    IssuedTo(Final(before), a, provider, poid);
    IssuedTo(Final(before), b, provider, poid);
    IssuedStays(before, after, a, poid);
    IssuedStays(before, after, b, poid);
  }

  lemma IssuedTo(s: State, id: Id, provider: string, poid: string)
    requires Inv(s) && ProviderOrderIs(s.rows, id, provider, poid)
    ensures id in s.threads && s.threads[id].order.provider == provider && s.threads[id].placed == [poid]
  {
    assert RowOk(s, id);
  }

  lemma IssuedStays(before: seq<Action>, after: seq<Action>, id: Id, poid: string)
    requires IsRun(before) && IsRun(after) && before <= after
    requires id in Final(before).threads && Final(before).threads[id].placed == [poid]
    ensures id in Final(after).threads && Final(after).threads[id].placed == [poid]
    ensures Final(after).threads[id].order == Final(before).threads[id].order
  {
    var rest := after[|before|..];
    assert after == before + rest;
    ExecSplit(INIT, before, rest);
    RunKeepsInv(before);
    ExecKeepsThread(Final(before), rest, id);
    AcceptedRowStays(Final(before), rest, id);
  }

  // The last step is a fill of the row.
  lemma LastFill(acts: seq<Action>, id: Id, provider: string, poid: string)
    requires IsRun(acts) && acts != [] && IsFillOf(acts[|acts| - 1], provider, poid)
    requires IsRun(acts[..|acts| - 1]) && ProviderOrderIs(Final(acts[..|acts| - 1]).rows, id, provider, poid)
    ensures id in Final(acts).rows
    ensures V(Final(acts).rows[id].filled) == RoundTo(V(acts[|acts| - 1].filled), QUANTITY_SCALE)
  {
    hide V, RoundTo, UpdateFill;
    var (init, a) := (acts[..|acts| - 1], acts[|acts| - 1]);
    assert acts == init + [a];
    ExecSplit(INIT, init, [a]);
    assert Exec(Final(init), [a]).Some? && Enabled(Final(init), a);
    ExtendRun(init, a);
    FillWrites(Final(init).rows, provider, poid, a.status, a.filled, a.avg);
  }

  lemma WrittenAdds(row: Order, e: FillEvent, status: Status)
    requires V(row.filled) >= 0.0 && V(e.qty) > 0.0 && e.status == StatusText(status)
    ensures var p := NextFill(row, e);
            FillAdds(FillRow(e.provider, e.poid, p.status, p.filled, p.avg), row, status, e.qty, e.price)
  {
    hide V, Div, Mul, Strings.EqualFold, StatusText;
    PlannedQuantity(row, e);
    FilledIff(row, e);
    StatusTextIsFilled(status);
    if V(row.filled) == 0.0 {
      assert IsZero(row.filled);
    }
  }

  // What the synchronous fill wrote after reading at the end of r
  lemma WrittenFollows(r: seq<Action>, s: seq<Action>, from: nat, order: Order, poid: string, status: Status,
                       result: OrderResult, row: Order)
    requires IsRun(r) && from <= |r| < |s| && r <= s
    requires FillWritten(Final(r).rows, s, order.provider, poid, row, SyncEvent(order, poid, status, result))
    ensures FillFollows(s, from, order.provider, poid, status, result.executed, result.avgPrice)
  {
    hide V, NextFill, FillAdds, StatusText;
    var e := SyncEvent(order, poid, status, result);
    WrittenAdds(row, e, status);
    var id :| ProviderOrderIs(Final(r).rows, id, order.provider, poid) && Final(r).rows[id] == row;
    assert s[..|r|] == r;
  }

  lemma FollowsStays(s: seq<Action>, acts: seq<Action>, from: nat, provider: string, poid: string, status: Status,
                     executed: Dec, price: Dec)
    requires s <= acts && FillFollows(s, from, provider, poid, status, executed, price)
    ensures FillFollows(acts, from, provider, poid, status, executed, price)
  {
    hide IsRun, Final, FillAdds;
    var j: nat, k: nat, id :|
      && from <= j <= k < |s| && IsFillOf(s[k], provider, poid)
      && IsRun(s[..j]) && ProviderOrderIs(Final(s[..j]).rows, id, provider, poid)
      && FillAdds(s[k], Final(s[..j]).rows[id], status, executed, price);
    assert acts[..j] == s[..j] && acts[k] == s[k];
  }

  // The row as confirmed at the end of c, in a history that goes on to acts without other fills
  ghost predicate ConfirmedRow(c: seq<Action>, id: Id, provider: string, poid: string, filled: Dec) {
    && IsRun(c) && ProviderOrderIs(Final(c).rows, id, provider, poid) && Final(c).rows[id].status != Pending
    && V(Final(c).rows[id].filled) == RoundTo(V(filled), QUANTITY_SCALE)
  }

  // Without a fill processor the confirmed quantity stays.
  lemma DirectCounts(from: nat, c: seq<Action>, acts: seq<Action>, id: Id, provider: string, poid: string,
                     executed: Dec)
    requires ConfirmedRow(c, id, provider, poid, executed) && IsRun(acts) && c <= acts && from <= |c|
    requires OwnFillsOnly(acts, from, provider, poid, false)
    ensures id in Final(acts).rows && V(Final(acts).rows[id].filled) == RoundTo(V(executed), QUANTITY_SCALE)
  {
    hide V, RoundTo, IsRun, Final, ProviderOrderIs, IsFillOf;
    forall i | |c| <= i < |acts| ensures !IsFillOf(acts[i], provider, poid) {
    }
    UnfilledStays(c, acts, id, provider, poid);
  }

  // With one, the row is unfilled until the synchronous fill, read at the end of r and written at the
  // end of s, brings it to what was executed.
  lemma FilledCounts(from: nat, c: seq<Action>, r: seq<Action>, s: seq<Action>, acts: seq<Action>, id: Id,
                     order: Order, poid: string, status: Status, result: OrderResult, row: Order)
    requires ConfirmedRow(c, id, order.provider, poid, ZERO) && IsRun(r) && IsRun(s) && IsRun(acts)
    requires from <= |c| && c <= r <= s <= acts && |r| < |s|
    requires FillWritten(Final(r).rows, s, order.provider, poid, row, SyncEvent(order, poid, status, result))
    requires OwnFillsOnly(acts, from, order.provider, poid, true) && OrderTable.DistinctIds(Final(acts))
    ensures id in Final(acts).rows && V(Final(acts).rows[id].filled) == RoundTo(V(result.executed), QUANTITY_SCALE)
  {
    hide V, RoundTo, NextFill, StatusText, OrderTable.DistinctIds;
    var provider := order.provider;
    var last := |s| - 1;
    assert IsFillOf(acts[last], provider, poid);
    forall i | |c| <= i < |acts| && i != last ensures !IsFillOf(acts[i], provider, poid) {
    }
    UnfilledStays(c, r, id, provider, poid);
    var o :| ProviderOrderIs(Final(r).rows, o, provider, poid) && Final(r).rows[o] == row;
    OnlyOneRow(r, acts, o, id, provider, poid);
    ZeroRounds();
    PlannedQuantity(row, SyncEvent(order, poid, status, result));
    FillThenStays(c, s, acts, id, provider, poid);
  }

  lemma ZeroRounds()
    ensures RoundTo(V(ZERO), QUANTITY_SCALE) == 0.0
  {
    hide V, RoundTo, OnGrid;
    SignOf(ZERO);
    ZeroOnGrid(QUANTITY_SCALE);
    RoundFixed(0.0, QUANTITY_SCALE);
  }

  lemma FillThenStays(c: seq<Action>, s: seq<Action>, acts: seq<Action>, id: Id, provider: string, poid: string)
    requires IsRun(c) && IsRun(s) && IsRun(acts) && c <= s <= acts && |c| < |s|
    requires ProviderOrderIs(Final(c).rows, id, provider, poid) && Final(c).rows[id].status != Pending
    requires IsFillOf(s[|s| - 1], provider, poid)
    requires forall i :: |s| <= i < |acts| ==> !IsFillOf(acts[i], provider, poid)
    ensures id in Final(acts).rows
    ensures V(Final(acts).rows[id].filled) == RoundTo(V(s[|s| - 1].filled), QUANTITY_SCALE)
  {
    hide V, RoundTo, IsFillOf;
    var init := s[..|s| - 1];
    assert s == init + [s[|s| - 1]];
    ExecSplit(INIT, init, [s[|s| - 1]]);
    assert IsRun(init) && c <= init;
    RecordedOrderStays(c, init, id);
    LastFill(s, id, provider, poid);
    RecordedOrderStays(c, s, id);
    UnfilledStays(s, acts, id, provider, poid);
  }

  // The history of Settle: accepted at from, confirmed by the end of c, read at the end of r and filled
  // by the end of s.
  lemma SettleCounts(from: nat, c: seq<Action>, r: seq<Action>, s: seq<Action>, acts: seq<Action>, id: Id, order: Order,
                     result: OrderResult, wired: bool, written: bool, row: Order)
    requires IsRun(r) && IsRun(s) && IsRun(acts) && c <= r <= s <= acts && AllSane(acts)
    requires from < |c| && c[from] == BrokerAccepts(id, AcceptanceOf(result, wired))
    requires ConfirmedRow(c, id, order.provider, result.poid, if wired then ZERO else result.executed)
    requires var status := MapOrderStatus(result.raw);
             if wired then
               if written then
                 && |r| < |s|
                 && FillWritten(Final(r).rows, s, order.provider, result.poid, row,
                                SyncEvent(order, result.poid, status, result))
               else exists o :: o in Final(r).rows && V(Final(r).rows[o].filled) < 0.0
             else s == r
    ensures Counted(acts, from, Final(acts).rows, id, order, result, wired)
  {
    hide V, RoundTo, IsRun, Final, ConfirmedRow, FillWritten, FillFollows, OwnFillsOnly, OrderTable.DistinctIds,
         MapOrderStatus, SyncEvent;
    var status := MapOrderStatus(result.raw);
    if wired {
      if !written {
        NoNegativeRow(r, acts);
      }
      WrittenFollows(r, s, from, order, result.poid, status, result, row);
      FollowsStays(s, acts, from, order.provider, result.poid, status, result.executed, result.avgPrice);
      if OwnFillsOnly(acts, from, order.provider, result.poid, true) && OrderTable.DistinctIds(Final(acts)) {
        FilledCounts(from, c, r, s, acts, id, order, result.poid, status, result, row);
      }
    } else if OwnFillsOnly(acts, from, order.provider, result.poid, false) {
      DirectCounts(from, c, acts, id, order.provider, result.poid, result.executed);
    }
  }

  lemma NoNegativeRow(r: seq<Action>, acts: seq<Action>)
    requires IsRun(r) && r <= acts && AllSane(acts)
    ensures forall id :: id in Final(r).rows ==> V(Final(r).rows[id].filled) >= 0.0
  {
    hide V, IsRun, Final, OrderTable.SaneAction;
    assert AllSane(r);
    forall id | id in Final(r).rows ensures V(Final(r).rows[id].filled) >= 0.0 {
      SaneTable(r, id);
    }
  }

  // ---------- arithmetic of the poll loop ----------

  function CeilDiv(a: int, b: int): (q: int)
    requires b > 0
    ensures a <= 0 ==> q == 0
    ensures a > 0 ==> (q - 1) * b < a <= q * b
  {
    if a <= 0 then 0
    else
      assert a + b - 1 == (a + b - 1) / b * b + (a + b - 1) % b;
      (a + b - 1) / b
  }

  // n rounds of polling fit strictly below the wait, so at most one more attempt is to come.
  lemma PollBound(n: nat, poll: int, wait: int)
    requires poll > 0 && n * poll < wait
    ensures n + 1 <= CeilDiv(wait, poll)
  {
    var q := (wait + poll - 1) / poll;
    assert wait + poll - 1 == q * poll + (wait + poll - 1) % poll;
    assert wait <= q * poll;
    assert n >= q ==> n * poll >= q * poll;
  }

  class TradeServer {
    const repo: OrdersRepo
    const wait: int // reservationWait
    const poll: int // reservationPoll
    const fillProcessorWired: bool

    var now: int          // a monotone clock
    ghost var acts: seq<Action> // every step of the whole system so far

    constructor (repo: OrdersRepo, wait: int, poll: int, wired: bool)
      requires repo.rows == map[] && poll > 0
      ensures this.repo == repo && this.wait == wait && this.poll == poll && fillProcessorWired == wired
      ensures Valid() && acts == []
    {
      this.repo, this.wait, this.poll, this.fillProcessorWired := repo, wait, poll, wired;
      now, acts := 0, [];
    }

    ghost predicate Valid()
      reads this, repo
    {
      poll > 0 && IsRun(acts) && repo.rows == Final(acts).rows
    }

    ghost function System(): State
      reads this, repo
      requires Valid()
    {
      Final(acts)
    }

    // Request id is at pc, having built this order and got these ids from the exchange.
    ghost predicate Here(id: Id, order: Order, pc: Pc, placed: seq<string>)
      reads this, repo
      ensures Here(id, order, pc, placed) ==> poll > 0
    {
      Valid() && id in System().threads && System().threads[id] == Thread(order, pc, placed)
    }

    lemma HereIsRun(id: Id, order: Order, pc: Pc, placed: seq<string>)
      requires Here(id, order, pc, placed)
      ensures IsRun(acts) && repo.rows == Final(acts).rows
    {
    }

    // The request has no row, and no statement of it will still execute.
    ghost predicate NoTrace(id: Id)
      reads this, repo
      requires Valid()
    {
      id !in repo.rows && forall stmt :: stmt in System().orphans ==> stmt.id != id
    }

    // The request's row is recorded under this id of the exchange.
    ghost predicate Recorded(id: Id, poid: string)
      reads repo
    {
      id in repo.rows && repo.rows[id].status != Pending && repo.rows[id].poid == Some(poid)
    }

    // The rest of the system runs: any steps of other requests, late statements and fills. The
    // caller learns nothing but the postcondition.
    method Interfere(ghost id: Id)
      requires Valid()
      modifies this`acts, this`now, repo
      ensures Valid() && ByOthers(old(acts), acts, id) && now >= old(now)
    {
    }

    method Yield(ghost id: Id, ghost order: Order, ghost pc: Pc, ghost placed: seq<string>)
      requires Here(id, order, pc, placed) && !pc.Crashed?
      modifies this`acts, this`now, repo
      ensures Here(id, order, pc, placed) && old(acts) <= acts && now >= old(now)
      ensures forall poid :: old(Recorded(id, poid)) ==> Recorded(id, poid)
      ensures forall o, intent, poid ::
        RecordedFor(old(repo.rows), o, intent, poid) ==> RecordedFor(repo.rows, o, intent, poid)
    {
      Interfere(id);
      InterferenceKeepsThread(old(acts), acts, id);
      forall o | o in old(repo.rows) && old(repo.rows)[o].status != Pending
        ensures o in repo.rows && repo.rows[o].status != Pending
        ensures repo.rows[o].poid == old(repo.rows)[o].poid && repo.rows[o].intent == old(repo.rows)[o].intent
      {
        RecordedOrderStays(old(acts), acts, o);
      }
    }

    // The select on the caller's context and time.After(poll), with the system running meanwhile: a
    // caller who leaves may do so at any time during the sleep.
    method Sleep(ghost id: Id, ghost order: Order, w: Calls) returns (gone: bool)
      requires Here(id, order, Waiting, [])
      modifies this`acts, this`now, repo
      ensures Here(id, order, Waiting, []) && old(acts) <= acts && now >= old(now)
      ensures !gone ==> now >= old(now) + poll
      ensures gone ==> w.callerMayLeave
    {
      gone := CallerGone(w);
      var slept: int := *;
      slept := if gone && 0 <= slept < poll then slept else poll;
      assert poll > 0;
      now := now + slept;
      Yield(id, order, Waiting, []);
    }

    method StatementFate(w: Calls) returns (up: bool)
      ensures up || w.dbMayFail
    {
      up := *;
      up := up || !w.dbMayFail;
    }

    method CallerGone(w: Calls) returns (gone: bool)
      ensures gone ==> w.callerMayLeave
    {
      gone := *;
      gone := gone && w.callerMayLeave;
    }

    // One statement of request id, already executed on the table, enters the history.
    ghost method Record(a: Action)
      requires poll > 0 && IsRun(acts) && Enabled(Final(acts), a) && repo.rows == Apply(Final(acts), a).rows
      modifies this`acts
      ensures acts == old(acts) + [a] && Valid() && System() == Apply(Final(old(acts)), a)
    {
      ExtendRun(acts, a);
      acts := acts + [a];
    }

    method TryInsert(id: Id, order: Order, up: bool) returns (reserved: DbResult<bool>)
      requires Here(id, order, Trying, [])
      modifies this`acts, repo
      ensures old(acts) <= acts && !reserved.NotFound? && (reserved.Failed? <==> !up)
      ensures reserved.Ok? ==> reserved.value == CanInsert(old(repo.rows), id, order)
      ensures repo.rows == if up then Insert(old(repo.rows), id, order) else old(repo.rows)
      ensures var pc := if reserved.Failed? then Done(Failure) else if reserved.value then Holding else ByIntent;
              Here(id, order, pc, [])
    {
      reserved := repo.ReserveOrder(id, order, up);
      Record(if reserved.Failed? then ReserveFails(id) else TryReserve(id));
    }

    // GetOrderByIntentID as one step; the row, if any, is read in the same step.
    method FindByIntent(id: Id, order: Order, up: bool) returns (existing: DbResult<Order>)
      requires Here(id, order, ByIntent, [])
      modifies this`acts
      ensures old(acts) <= acts && (existing.Failed? <==> !up)
      ensures existing.Failed? ==> Here(id, order, Done(Failure), [])
      ensures existing.Ok? ==> Here(id, order, Inspect(existing.value), []) && Conflict(existing.value, order)
      ensures existing.NotFound? ==> Here(id, order, if order.key != "" then ByKey else Waiting, [])
      ensures existing.Ok? ==> exists o :: IntentIs(repo.rows, o, order.intent) && repo.rows[o] == existing.value
      ensures existing.NotFound? ==> forall o :: !IntentIs(repo.rows, o, order.intent)
    {
      var found := repo.GetOrderByIntentID(order.intent, up);
      match found {
        case Failed => Record(LookupFails(id)); existing := Failed;
        case Ok(o) => Record(LookupIntent(id, Some(o))); existing := Ok(repo.rows[o]);
        case NotFound =>
          assert forall o :: o in repo.rows ==> !IntentIs(repo.rows, o, order.intent);
          Record(LookupIntent(id, None)); existing := NotFound;
      }
    }

    method FindByKey(id: Id, order: Order, up: bool) returns (existing: DbResult<Order>)
      requires Here(id, order, ByKey, []) && order.key != ""
      modifies this`acts
      ensures old(acts) <= acts && (existing.Failed? <==> !up)
      ensures existing.Failed? ==> Here(id, order, Done(Failure), [])
      ensures existing.Ok? ==> Here(id, order, Inspect(existing.value), []) && Conflict(existing.value, order)
      ensures existing.NotFound? ==> Here(id, order, Waiting, [])
    {
      var found := repo.GetOrderByIdempotencyKey(order.tenant, order.key, up);
      match found {
        case Failed => Record(LookupFails(id)); existing := Failed;
        case Ok(o) => Record(LookupKey(id, Some(o))); existing := Ok(repo.rows[o]);
        case NotFound => Record(LookupKey(id, None)); existing := NotFound;
      }
    }

    // The existing order of this intent or, failing that, of this key
    method FindExisting(id: Id, order: Order, w: Calls) returns (existing: DbResult<Order>)
      requires Here(id, order, ByIntent, [])
      modifies this`acts, this`now, repo
      ensures old(acts) <= acts && now >= old(now) && (existing.Failed? ==> w.dbMayFail)
      ensures existing.Failed? ==> Here(id, order, Done(Failure), [])
      ensures existing.Ok? ==> Here(id, order, Inspect(existing.value), []) && Conflict(existing.value, order)
      ensures existing.NotFound? ==> Here(id, order, Waiting, [])
      ensures !w.dbMayFail ==> forall o, poid :: RecordedFor(old(repo.rows), o, order.intent, poid) ==>
        existing.Ok? && existing.value.status != Pending && existing.value.poid == Some(poid)
    {
      hide Here, Valid, Conflict, Inspect, IsRun;
      HereIsRun(id, order, ByIntent, []);
      OneRowPerIntent(acts);
      ghost var t := repo.rows;
      assert forall o, poid :: RecordedFor(t, o, order.intent, poid) ==> IntentIs(t, o, order.intent);
      var up := StatementFate(w);
      existing := FindByIntent(id, order, up);
      if existing.Ok? {
        ghost var x :| IntentIs(t, x, order.intent) && t[x] == existing.value;
        assert forall o, poid :: RecordedFor(t, o, order.intent, poid) ==> o == x;
      }
      if existing.NotFound? && order.key != "" {
        Yield(id, order, ByKey, []);
        up := StatementFate(w);
        existing := FindByKey(id, order, up);
      }
    }

    // The deadline check and the select on the caller's context and the poll timer
    method PollOrGiveUp(id: Id, order: Order, deadline: int, w: Calls) returns (again: bool)
      requires Here(id, order, Waiting, [])
      modifies this`acts, this`now, repo
      ensures old(acts) <= acts
      ensures again ==> Here(id, order, Trying, []) && old(now) < deadline && now >= old(now) + poll
      ensures !again ==> Here(id, order, Done(Failure), []) && NoTrace(id)
      ensures !again ==> now >= old(now) && (old(now) >= deadline || w.callerMayLeave)
    {
      var gone := !(now < deadline);
      if !gone {
        gone := Sleep(id, order, w);
      }
      if gone {
        RunKeepsInv(acts);
        NoOrphans(System(), id);
        Record(GiveUp(id));
        return false;
      }
      Record(PollAgain(id));
      return true;
    }

    // One round of reserveOrder: the insert and, if that loses, the lookups. None: poll again.
    method ReserveOnce(id: Id, order: Order, w: Calls) returns (r: Option<Reserve>)
      requires Here(id, order, Trying, [])
      modifies this`acts, this`now, repo
      ensures old(acts) <= acts && now >= old(now)
      ensures r == None ==> Here(id, order, Waiting, [])
      ensures r == Some(Held) ==> Here(id, order, Holding, [])
      ensures r == Some(Refused) ==> Here(id, order, Done(Failure), []) && w.dbMayFail
      ensures r.Some? && r.value.Existing? ==>
        && r.value.row.status != Pending && Conflict(r.value.row, order)
        && Here(id, order, Done(Success(PoidText(r.value.row), r.value.row.status)), [])
      ensures !w.dbMayFail && NothingInTheWay(old(repo.rows), order) ==> r == Some(Held)
      ensures !w.dbMayFail ==> forall o, poid :: RecordedFor(old(repo.rows), o, order.intent, poid) ==>
        r.Some? && r.value.Existing? && r.value.row.poid == Some(poid)
    {
      hide Here, Valid, Conflict, PoidText, CanInsert, Insert, NothingInTheWay;
      SameIntentBlocks(repo.rows, id, order);
      NoRowYet(id, order);
      var up := StatementFate(w);
      var reserved := TryInsert(id, order, up);
      if reserved.Failed? {
        return Some(Refused);
      }
      if reserved.value {
        return Some(Held);
      }
      InsertRefused(old(repo.rows), id, order);
      Yield(id, order, ByIntent, []);
      var existing := FindExisting(id, order, w);
      if existing.Failed? {
        return Some(Refused);
      }
      if existing.Ok? && existing.value.status != Pending {
        return Some(Existing(existing.value));
      }
      Yield(id, order, Waiting, []);
      return None;
    }

    lemma NoRowYet(id: Id, order: Order)
      requires Here(id, order, Trying, [])
      ensures id !in repo.rows
    {
      RunKeepsInv(acts);
      NoOrphans(System(), id);
    }

    // reserveOrder: at most ceil(wait/poll) + 1 insert attempts. On exit the request holds its own
    // PENDING row, or has the recorded order of a conflicting request, or has failed for a reason:
    // a failed statement, a caller who left, or the whole wait gone by. With a working database the
    // first attempt gets the reservation if nothing is in its way, and the intent's recorded order if
    // there is one.
    method ReserveOrder(id: Id, order: Order, w: Calls) returns (r: Reserve, attempts: nat)
      requires Here(id, order, Trying, [])
      modifies this`acts, this`now, repo
      ensures old(acts) <= acts
      ensures 1 <= attempts <= CeilDiv(wait, poll) + 1
      ensures r.Held? ==> Here(id, order, Holding, [])
      ensures r.Refused? ==> Here(id, order, Done(Failure), []) && (!w.dbMayFail ==> NoTrace(id))
      ensures r.Refused? ==> w.dbMayFail || w.callerMayLeave || now >= old(now) + wait
      ensures r.Existing? ==>
        && r.row.status != Pending && Conflict(r.row, order)
        && Here(id, order, Done(Success(PoidText(r.row), r.row.status)), [])
      ensures !w.dbMayFail && NothingInTheWay(old(repo.rows), order) ==> r.Held? && attempts == 1
      ensures !w.dbMayFail ==> forall o, poid :: RecordedFor(old(repo.rows), o, order.intent, poid) ==>
        r.Existing? && r.row.poid == Some(poid) && attempts == 1
    {
      hide Here, Valid, Conflict, CeilDiv, PoidText, NoTrace, NothingInTheWay;
      var start := now;
      var deadline := now + wait;
      attempts := 0;
      while true
        invariant Here(id, order, Trying, []) && old(acts) <= acts
        invariant now >= start + attempts * poll
        invariant attempts <= CeilDiv(wait, poll)
        invariant attempts == 0 ==> repo.rows == old(repo.rows)
        invariant attempts > 0 && !w.dbMayFail ==>
          && !NothingInTheWay(old(repo.rows), order)
          && forall o, poid :: !RecordedFor(old(repo.rows), o, order.intent, poid)
        decreases deadline - now
      {
        ghost var rounds := attempts;
        var once := ReserveOnce(id, order, w);
        attempts := attempts + 1;
        if once.Some? {
          return once.value, attempts;
        }
        var again := PollOrGiveUp(id, order, deadline, w);
        if !again {
          return Refused, attempts;
        }
        PollBound(rounds, poll, wait);
        assert attempts * poll == rounds * poll + poll;
        Yield(id, order, Trying, []);
      }
    }

    // releaseReservation
    method ReleaseReservation(id: Id, order: Order, up: bool)
      requires Here(id, order, Releasing, [])
      modifies this`acts, repo
      ensures old(acts) <= acts && Here(id, order, Done(Failure), [])
      ensures repo.rows == if up then old(repo.rows) - {id} else old(repo.rows)
      ensures up ==> NoTrace(id)
    {
      RunKeepsInv(acts);
      NoOrphans(System(), id);
      OwnerHoldsRow(System(), id);
      var released := repo.ReleaseOrder(id, up);
      Record(if released.Failed? then ReleaseFails(id) else ReleaseRow(id));
    }

    method ConfirmReservation(id: Id, order: Order, poid: string, status: Status, filled: Dec, avg: Dec, up: bool)
      requires Here(id, order, Accepted(poid, status, filled, avg), [poid])
      modifies this`acts, repo
      ensures old(acts) <= acts && Here(id, order, Settling(poid, status), [poid])
      ensures repo.rows == if up then Confirm(old(repo.rows), id, poid, status, filled, avg) else old(repo.rows)
      ensures up && status != Pending ==> Recorded(id, poid) && ConfirmedRow(acts, id, order.provider, poid, filled)
    {
      hide V, RoundTo;
      RunKeepsInv(acts);
      OwnerHoldsRow(System(), id);
      SameOrderHolds(System(), id);
      var confirmed := repo.ConfirmOrder(id, poid, status, filled, avg, up);
      Record(if confirmed.Failed? then ConfirmFails(id) else ConfirmRow(id));
    }

    // The synchronous ProcessFill call, as far as broker_orders is concerned: a row is read, may
    // change while the fill is settled, and is updated from what was read. No table of this service
    // holds a negative quantity (OrderTable.TableOkInEveryRun).
    method SyncFill(id: Id, order: Order, poid: string, status: Status, result: OrderResult, w: Calls)
      returns (written: bool, ghost row: Order)
      requires Here(id, order, Settling(poid, status), [poid])
      modifies this`acts, this`now, repo
      ensures old(acts) <= acts && Here(id, order, Settling(poid, status), [poid]) && now >= old(now)
      ensures old(Recorded(id, poid)) ==> Recorded(id, poid)
      ensures var e := SyncEvent(order, poid, status, result);
              && (written ==>
                    FillWritten(old(repo.rows), acts, order.provider, poid, row, e) && |old(acts)| < |acts|)
              && (!w.dbMayFail && w.fillSettles && old(Recorded(id, poid)) && ValidEvent(e) ==>
                    written || exists o :: o in old(repo.rows) && V(old(repo.rows)[o].filled) < 0.0)
    {
      hide V, NextFill, StatusText;
      row := order;
      var event := SyncEvent(order, poid, status, result);
      if !IsPositive(event.qty) || !IsPositive(event.price) {
        return false, row;
      }
      SignOf(ZERO);
      OwnRowIsFound(acts, id, poid);
      var up := StatementFate(w);
      var found := repo.GetOrderByProviderOrderID(order.provider, poid, up);
      if !found.Ok? {
        return false, row;
      }
      var read := repo.rows[found.value];
      row := read;
      if Cmp(read.filled, ZERO) < 0 {
        return false, row;
      }
      Yield(id, order, Settling(poid, status), [poid]);
      if !w.fillSettles {
        return false, row;
      }
      up := StatementFate(w);
      var executes: bool := *;
      var fate := if up then Acknowledged else if executes then Unacknowledged else Lost;
      WriteFill(id, order, poid, status, read, event, fate);
      return !fate.Lost?, row;
    }

    // The update of the row with the next fill after what was read
    method WriteFill(id: Id, order: Order, poid: string, status: Status, read: Order, e: FillEvent, fate: Fate)
      requires Here(id, order, Settling(poid, status), [poid])
      requires V(read.filled) >= 0.0 && V(e.qty) > 0.0
      modifies this`acts, repo
      ensures Here(id, order, Settling(poid, status), [poid])
      ensures old(Recorded(id, poid)) ==> Recorded(id, poid)
      ensures var p := NextFill(read, e);
              acts == old(acts) + if fate.Lost? then [] else [FillRow(read.provider, poid, p.status, p.filled, p.avg)]
    {
      hide V, NextFill, UpdateFill;
      var p := NextFill(read, e);
      FilledIff(read, e);
      FillKeepsRecorded(repo.rows, id, read.provider, poid, p);
      var updated := repo.UpdateOrderFill(read.provider, poid, p.status, p.filled, p.avg, fate);
      if !fate.Lost? {
        Record(FillRow(read.provider, poid, p.status, p.filled, p.avg));
      }
    }

    ghost method Move(a: Action, id: Id, order: Order, from: Pc, to: Pc)
      requires Here(id, order, from, [])
      requires
        || (a == CredentialsFail(id) && from == Holding && to == Releasing)
        || (a == CredentialsLoaded(id) && from == Holding && to == Calling)
        || (a == BrokerFails(id) && from == Calling && to == Releasing)
      modifies this`acts
      ensures acts == old(acts) + [a] && Here(id, order, to, [])
    {
      Record(a);
    }

    // Steps 2 to 6 of ExecuteTrade, and the deferred release.
    method Dispatch(id: Id, order: Order, w: Calls) returns (reply: Reply)
      requires Here(id, order, Holding, [])
      modifies this`acts, this`now, repo
      ensures old(acts) <= acts && now >= old(now)
      ensures Here(id, order, Done(reply), if reply.Success? then [reply.poid] else [])
      ensures reply == (if w.credentialsLoad && w.answer.Some?
                        then Success(w.answer.value.poid, MapOrderStatus(w.answer.value.raw))
                        else Failure)
      ensures !w.dbMayFail ==> if reply.Success? then Recorded(id, reply.poid) else NoTrace(id)
      ensures reply.Success? && AllSane(acts) && ExecutionSettles(w, w.answer.value, fillProcessorWired) ==>
        exists i: nat :: |old(acts)| <= i && Counted(acts, i, repo.rows, id, order, w.answer.value, fillProcessorWired)
    {
      hide Here, Valid, Recorded, NoTrace, MapOrderStatus, Counted, AllSane, ExecutionSettles;
      var dispatched := false;
      reply := Failure;
      if !w.credentialsLoad {
        Move(CredentialsFail(id), id, order, Holding, Releasing);
      } else {
        Move(CredentialsLoaded(id), id, order, Holding, Calling);
        Yield(id, order, Calling, []);
        if w.answer == None {
          Move(BrokerFails(id), id, order, Calling, Releasing);
        } else {
          dispatched := true;
          reply := Settle(id, order, w.answer.value, w);
        }
      }
      if !dispatched {
        Yield(id, order, Releasing, []);
        var up := StatementFate(w);
        ReleaseReservation(id, order, up);
      }
    }

    method RecordAcceptance(ghost id: Id, ghost order: Order, ghost answer: Acceptance)
      requires Here(id, order, Calling, [])
      modifies this`acts
      ensures acts == old(acts) + [BrokerAccepts(id, answer)]
      ensures var pc := Accepted(answer.poid, MapOrderStatus(answer.raw), answer.filled, answer.avg);
              Here(id, order, pc, [answer.poid])
    {
      Record(BrokerAccepts(id, answer));
      assert [] + [answer.poid] == [answer.poid];
    }

    method Respond(ghost id: Id, ghost order: Order, poid: string, status: Status) returns (reply: Reply)
      requires Here(id, order, Settling(poid, status), [poid])
      modifies this`acts
      ensures old(acts) <= acts && reply == Success(poid, status) && Here(id, order, Done(reply), [poid])
    {
      reply := Success(poid, status);
      Record(Answer(id));
    }

    method Settle(id: Id, order: Order, result: OrderResult, w: Calls) returns (reply: Reply)
      requires Here(id, order, Calling, [])
      modifies this`acts, this`now, repo
      ensures old(acts) <= acts && now >= old(now)
      ensures reply == Success(result.poid, MapOrderStatus(result.raw))
      ensures Here(id, order, Done(reply), [result.poid])
      ensures old(acts) + [BrokerAccepts(id, AcceptanceOf(result, fillProcessorWired))] <= acts
      ensures !w.dbMayFail ==> Recorded(id, result.poid)
      ensures ExecutionSettles(w, result, fillProcessorWired) && AllSane(acts) ==>
        Counted(acts, |old(acts)|, repo.rows, id, order, result, fillProcessorWired)
    {
      hide Here, Recorded, MapOrderStatus, Confirm, V, ConfirmedRow, AllSane, FillWritten, Counted, RoundTo, IsRun;
      ghost var from := |acts|;
      var poid, status := result.poid, MapOrderStatus(result.raw);
      var filled := if fillProcessorWired then ZERO else result.executed;
      var avg := if fillProcessorWired then ZERO else result.avgPrice;
      RecordAcceptance(id, order, Acceptance(poid, result.raw, filled, avg));
      Yield(id, order, Accepted(poid, status, filled, avg), [poid]);
      var up := StatementFate(w);
      ConfirmReservation(id, order, poid, status, filled, avg, up);
      ghost var confirmed := acts;
      Yield(id, order, Settling(poid, status), [poid]);
      ghost var read, row, written := acts, order, false;
      HereIsRun(id, order, Settling(poid, status), [poid]);
      if fillProcessorWired && IsPositive(result.executed) {
        written, row := SyncFill(id, order, poid, status, result, w);
      }
      ghost var filledAt := acts;
      HereIsRun(id, order, Settling(poid, status), [poid]);
      reply := Respond(id, order, poid, status);
      HereIsRun(id, order, Done(reply), [poid]);
      if ExecutionSettles(w, result, fillProcessorWired) && AllSane(acts) {
        SettleCounts(from, confirmed, read, filledAt, acts, id, order, result, fillProcessorWired, written, row);
      }
    }

    // ExecuteTrade for a validated request. Whatever the rest of the system does, the history stays
    // a run of the protocol in which this request ends with the returned reply; a success carries
    // the exchange's id of an accepted order for the same intent or key. An error has a reason, and
    // means that the exchange accepted nothing for this request; if its statements went through, the
    // reservation is gone on an error, and recorded after its own order was accepted. An execution
    // reported with the acceptance is counted, and an intent whose order is already recorded is
    // answered with that order, without a new one.
    method ExecuteTrade(id: Id, order: Order, w: Calls) returns (reply: Reply)
      requires Valid() && id !in System().threads
      modifies this`acts, this`now, repo
      ensures Valid() && old(acts) <= acts
      ensures id in System().threads && System().threads[id].order == order
      ensures System().threads[id].pc == Done(reply)
      ensures reply.Success? ==> reply.status != Pending && Answered(System(), order, reply.poid)
      ensures reply.Failure? ==> System().threads[id].placed == []
      ensures reply.Failure? ==>
        w.dbMayFail || w.callerMayLeave || now >= old(now) + wait || !w.credentialsLoad || w.answer.None?
      ensures System().threads[id].placed != [] ==>
        w.answer.Some? && reply == Success(w.answer.value.poid, MapOrderStatus(w.answer.value.raw))
      ensures !w.dbMayFail ==>
        && (reply.Failure? ==> NoTrace(id))
        && (System().threads[id].placed != [] ==> Recorded(id, reply.poid))
      ensures !w.dbMayFail ==> forall o, poid :: RecordedFor(old(repo.rows), o, order.intent, poid) ==>
        reply.Success? && reply.poid == poid && System().threads[id].placed == []
      ensures System().threads[id].placed != [] && AllSane(acts) &&
              ExecutionSettles(w, w.answer.value, fillProcessorWired) ==>
        exists i: nat :: |old(acts)| <= i && Counted(acts, i, repo.rows, id, order, w.answer.value, fillProcessorWired)
    {
      hide MapOrderStatus, NoTrace, Recorded, CeilDiv, Counted, AllSane, ExecutionSettles;
      FreshIdHasNoRow(acts, id);
      Record(Start(id, order));
      Yield(id, order, Trying, []);
      var reserve, attempts := ReserveOrder(id, order, w);
      match reserve {
        case Refused => reply := Failure;
        case Existing(row) => reply := Success(PoidText(row), row.status);
        case Held =>
          Yield(id, order, Holding, []);
          reply := Dispatch(id, order, w);
      }
      RunKeepsInv(acts);
      assert ThreadOk(System(), id);
    }
  }
}
