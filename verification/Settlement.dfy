/** ProcessFill: settlement against a ledger that applies each idempotency key once, then the update
    of the order row. One attempt, failed or not, as one step of the books. */
module Settlement {

  import opened Decimals
  import opened DecimalText
  import opened Orders
  import opened FillArithmetic
  import Strings

  // Which downstream client settles: Ativos when connected, else Livro, else nobody.
  datatype Mode = ViaAtivos | DirectLivro | Detached

  // What a settlement call tells: an execution to Ativos; to Livro the capture of the buyer's hold or
  // the credit of the seller's account, in the tenant's scope
  datatype Entry =
    | Sync(tenant: string, portfolio: string, intent: Uuid, ticker: string, action: Side, shares: string, price: string)
    | Capture(hold: string, amount: string, release: bool)
    | Credit(tenant: string, account: string, amount: string, reference: Uuid)

  // ---------- what one fill settles ----------

  function KeyKind(mode: Mode, side: Side): string {
    if mode.ViaAtivos? then "sync-ativos" else if side.Buy? then "cap" else "credit"
  }

  function KeyPrefix(mode: Mode, o: Order): string {
    KeyKind(mode, o.side) + "-" + o.intent + "-" + PoidText(o) + "-"
  }

  function KeyOf(mode: Mode, o: Order, p: Plan): string {
    KeyPrefix(mode, o) + ToString(p.filled)
  }

  // Livro takes amounts as StringFixed(4).
  function EntryOf(mode: Mode, o: Order, p: Plan, e: FillEvent): Entry {
    if mode.ViaAtivos? then Sync(o.tenant, o.portfolio, o.intent, o.symbol, o.side, ToString(e.qty), ToString(e.price))
    else if o.side.Buy? then
      Capture(if o.hold == "" then o.intent else o.hold, StringFixed(p.fiat, 4), p.status == Filled)
    else Credit(o.tenant, o.user, StringFixed(p.fiat, 4), o.intent)
  }

  // Apply once per key
  function Posted(entries: map<string, Entry>, key: string, entry: Entry): map<string, Entry> {
    if key in entries then entries else entries[key := entry]
  }

  // ---------- the books and one attempt ----------

  datatype Books = Books(rows: Table, entries: map<string, Entry>)

  // How an attempt ends: with nil, or with an error after nothing happened, after the settlement
  // call failed (applied or not), or after the row update failed (executed or not).
  datatype Outcome =
    | Settled | LookupFailed | SettleLost | SettleUnacknowledged | UpdateLost | UpdateUnacknowledged

  // What becomes of each foreign call of an attempt: lookup, resolving the clearing account, the
  // settlement call and the row update, of which the whole call or its answer alone may get lost
  datatype Calls = Calls(lookupUp: bool, accountUp: bool, post: Fate, update: Fate)

  // The outcome once the order has been found; only a direct BUY capture resolves an account.
  function OutcomeOf(mode: Mode, side: Side, c: Calls): Outcome {
    var settles := !mode.Detached?;
    if settles && ((mode.DirectLivro? && side.Buy? && !c.accountUp) || c.post.Lost?) then SettleLost
    else if settles && c.post.Unacknowledged? then SettleUnacknowledged
    else if c.update.Lost? then UpdateLost
    else if c.update.Unacknowledged? then UpdateUnacknowledged
    else Settled
  }

  ghost predicate ProviderIdsUnique(t: Table) {
    forall a, b, provider, poid ::
      ProviderOrderIs(t, a, provider, poid) && ProviderOrderIs(t, b, provider, poid) ==> a == b
  }

  ghost predicate TableOk(t: Table) {
    Unique(t) && ProviderIdsUnique(t) && forall id :: id in t ==> Stored(t[id])
  }

  function Posts(outcome: Outcome): bool {
    !outcome.LookupFailed? && !outcome.SettleLost?
  }

  function Writes(outcome: Outcome): bool {
    outcome.Settled? || outcome.UpdateUnacknowledged?
  }

  // The effect of one ProcessFill attempt on the order row id
  function Attempted(mode: Mode, b: Books, id: Id, e: FillEvent, outcome: Outcome): Books
    requires id in b.rows && V(b.rows[id].filled) >= 0.0 && V(e.qty) > 0.0
  {
    var o := b.rows[id];
    var p := NextFill(o, e);
    var posted := Posted(b.entries, KeyOf(mode, o, p), EntryOf(mode, o, p, e));
    var updated := UpdateFill(b.rows, o.provider, PoidText(o), p.status, p.filled, p.avg);
    Books(if Writes(outcome) then updated else b.rows,
          if Posts(outcome) && !mode.Detached? then posted else b.entries)
  }

  // With unique provider order ids the update touches exactly the row that was read.
  lemma UpdateHitsOneRow(t: Table, id: Id, provider: string, poid: string, e: FillEvent)
    requires TableOk(t) && ProviderOrderIs(t, id, provider, poid) && V(e.qty) > 0.0
    ensures var p := NextFill(t[id], e);
            UpdateFill(t, t[id].provider, PoidText(t[id]), p.status, p.filled, p.avg) == t[id := AfterFill(t[id], e)]
  {
    hide V, NextFill, OnGrid, Quantity, Price;
    var p := NextFill(t[id], e);
    var t' := UpdateFill(t, t[id].provider, PoidText(t[id]), p.status, p.filled, p.avg);
    forall other | other in t ensures t'[other] == t[id := AfterFill(t[id], e)][other] {
      assert ProviderOrderIs(t, other, provider, poid) ==> other == id;
    }
  }

  lemma TableStaysOk(t: Table, id: Id, e: FillEvent)
    requires TableOk(t) && id in t && V(e.qty) > 0.0
    ensures TableOk(t[id := AfterFill(t[id], e)])
  {
    hide V, NextFill, OnGrid, Quantity, Price, Stored;
    StoredFacts(t[id]);
    StoredStays(t[id], e);
    var t' := t[id := AfterFill(t[id], e)];
    forall a, b | a in t' && b in t' && a != b ensures !Conflict(t'[a], t'[b]) {
      assert !Conflict(t[a], t[b]);
    }
    forall a, b, provider, poid | ProviderOrderIs(t', a, provider, poid) && ProviderOrderIs(t', b, provider, poid)
      ensures a == b
    {
      assert ProviderOrderIs(t, a, provider, poid) && ProviderOrderIs(t, b, provider, poid);
    }
  }

  // Only a direct BUY capture needs the tenant's clearing account.
  predicate AccountResolves(mode: Mode, side: Side, c: Calls) {
    mode.DirectLivro? && side.Buy? ==> c.accountUp
  }

  // The row, the key and the entry of the next fill e of a stored order
  ghost function RowAfter(t: Table, id: Id, e: FillEvent): Order
    requires TableOk(t) && id in t && ValidEvent(e)
  {
    StoredFacts(t[id]);
    AfterFill(t[id], e)
  }

  ghost function KeyFor(mode: Mode, t: Table, id: Id, e: FillEvent): string
    requires TableOk(t) && id in t && ValidEvent(e)
  {
    StoredFacts(t[id]);
    KeyOf(mode, t[id], NextFill(t[id], e))
  }

  ghost function EntryFor(mode: Mode, t: Table, id: Id, e: FillEvent): Entry
    requires TableOk(t) && id in t && ValidEvent(e)
  {
    StoredFacts(t[id]);
    EntryOf(mode, t[id], NextFill(t[id], e), e)
  }

  class Ledger {
    var entries: map<string, Entry>

    constructor ()
      ensures entries == map[]
    {
      entries := map[];
    }

    // An error answer leaves open whether the entry was applied.
    method Post(key: string, entry: Entry, fate: Fate) returns (ok: bool)
      modifies this
      ensures ok <==> fate.Acknowledged?
      ensures entries == if fate.Lost? then old(entries) else Posted(old(entries), key, entry)
    {
      if fate.Lost? {
        return false;
      }
      if key !in entries {
        entries := entries[key := entry];
      }
      ok := fate.Acknowledged?;
    }
  }

  class FillProcessor {
    const repo: OrdersRepo
    const ledger: Ledger
    const mode: Mode

    constructor (repo: OrdersRepo, ledger: Ledger, mode: Mode)
      ensures this.repo == repo && this.ledger == ledger && this.mode == mode
    {
      this.repo, this.ledger, this.mode := repo, ledger, mode;
    }

    ghost function State(): Books
      reads repo, ledger
    {
      Books(repo.rows, ledger.entries)
    }

    // One attempt is one step of the books. It returns nil exactly when the event is valid, its order
    // is found, the settlement call, if there is one, is answered and the row update is answered. The
    // row gets the fill unless the update is lost, once the settlement call, if any, was answered. The
    // ledger has the fill's key afterwards if it had it before or the settlement call arrived.
    method ProcessFill(e: FillEvent, c: Calls) returns (ok: bool, ghost outcome: Outcome)
      requires TableOk(repo.rows)
      modifies repo, ledger
      ensures TableOk(repo.rows)
      ensures State() == Step(mode, old(State()), Attempt(e, outcome))
      ensures outcome.LookupFailed? <==> !(ValidEvent(e) && c.lookupUp && Finds(old(repo.rows), e))
      ensures forall id :: ProviderOrderIs(old(repo.rows), id, e.provider, e.poid) && !outcome.LookupFailed? ==>
        outcome == OutcomeOf(mode, old(repo.rows)[id].side, c)
      ensures ok <==> outcome.Settled?
      ensures ok <==>
        && ValidEvent(e) && c.lookupUp && c.update.Acknowledged?
        && exists id :: ProviderOrderIs(old(repo.rows), id, e.provider, e.poid) &&
             (mode.Detached? || (c.post.Acknowledged? && AccountResolves(mode, old(repo.rows)[id].side, c)))
      ensures !(ValidEvent(e) && c.lookupUp && Finds(old(repo.rows), e)) ==> State() == old(State())
      ensures forall id :: ValidEvent(e) && c.lookupUp && ProviderOrderIs(old(repo.rows), id, e.provider, e.poid) ==>
        var resolves := AccountResolves(mode, old(repo.rows)[id].side, c);
        && repo.rows == (if (mode.Detached? || (c.post.Acknowledged? && resolves)) && !c.update.Lost?
                         then old(repo.rows)[id := RowAfter(old(repo.rows), id, e)]
                         else old(repo.rows))
        && var (key, posts) := (KeyFor(mode, old(repo.rows), id, e), !mode.Detached? && resolves && !c.post.Lost?);
           && (key in ledger.entries <==> key in old(ledger.entries) || posts)
           && (forall k :: k != key ==> (k in ledger.entries <==> k in old(ledger.entries)))
           && (forall k :: k in old(ledger.entries) ==> ledger.entries[k] == old(ledger.entries)[k])
           && (key !in old(ledger.entries) && posts ==>
                 ledger.entries[key] == EntryFor(mode, old(repo.rows), id, e))
    {
      hide V, NextFill, OnGrid, Stored, Quantity, Price, KeyOf, EntryOf, Step;
      ghost var before := State();
      if !IsPositive(e.qty) || !IsPositive(e.price) {
        NoStep(mode, before, e);
        return false, LookupFailed;
      }
      var found := repo.GetOrderByProviderOrderID(e.provider, e.poid, c.lookupUp);
      if !found.Ok? {
        NoStep(mode, before, e);
        return false, LookupFailed;
      }
      var order := repo.rows[found.value];
      StoredFacts(order);
      outcome := OutcomeOf(mode, order.side, c);
      StepOfRow(mode, before, e, outcome, found.value);
      var p := NextFill(order, e);
      if !mode.Detached? {
        if mode.DirectLivro? && order.side.Buy? && !c.accountUp {
          return false, outcome;
        }
        var settled := ledger.Post(KeyOf(mode, order, p), EntryOf(mode, order, p, e), c.post);
        if !settled {
          return false, outcome;
        }
      }
      var updated := repo.UpdateOrderFill(order.provider, PoidText(order), p.status, p.filled, p.avg, c.update);
      assert ProviderOrderIs(before.rows, found.value, order.provider, PoidText(order));
      return updated.Ok?, outcome;
    }
  }

  // An attempt that finds no order changes nothing.
  lemma NoStep(mode: Mode, b: Books, e: FillEvent)
    requires TableOk(b.rows)
    ensures Step(mode, b, Attempt(e, LookupFailed)) == b
  {
    hide V, NextFill, Stored;
  }

  lemma StoredFacts(o: Order)
    requires Stored(o)
    ensures V(o.filled) >= 0.0
  {
  }

  // ---------- keys ----------

  lemma KeyLayout(mode: Mode, o: Order, suffix: string)
    ensures var (key, n) := (KeyPrefix(mode, o) + suffix, |KeyKind(mode, o.side)| + 1);
            |key| >= n + 36 && key[..n] == KeyKind(mode, o.side) + "-" && key[n..n + 36] == o.intent
  {
    var head, tail := KeyKind(mode, o.side) + "-", "-" + PoidText(o) + "-" + suffix;
    assert KeyPrefix(mode, o) + suffix == head + (o.intent + tail);
    assert (head + (o.intent + tail))[|head|..|head| + 36] == (o.intent + tail)[..36] == o.intent;
  }

  // What a key says: the kind of settlement, the intent, the exchange's order id and the cumulative
  // quantity this fill reaches
  lemma KeyReads(mode: Mode, o: Order, e: FillEvent)
    requires V(o.filled) >= 0.0 && V(e.qty) > 0.0 && o.poid.Some?
    ensures exists text ::
      && KeyOf(mode, o, NextFill(o, e)) ==
           (if mode.ViaAtivos? then "sync-ativos-" else if o.side.Buy? then "cap-" else "credit-")
           + o.intent + "-" + o.poid.value + "-" + text
      && Parse(text).Some? && V(Parse(text).value) == V(o.filled) + V(e.qty)
  {
    hide V, NextFill, ToString, Parse;
    PlannedQuantity(o, e);
    var text := ToString(NextFill(o, e).filled);
    StringParses(NextFill(o, e).filled);
    assert KeyOf(mode, o, NextFill(o, e)) ==
      (if mode.ViaAtivos? then "sync-ativos-" else if o.side.Buy? then "cap-" else "credit-")
      + o.intent + "-" + o.poid.value + "-" + text;
  }

  // A key tells which intent it belongs to: orders of different intents never share one.
  lemma KeyTellsIntent(mode: Mode, o: Order, other: Order, suffix: string)
    ensures KeyPrefix(mode, o) <= KeyPrefix(mode, other) + suffix ==> o.intent == other.intent
  {
    hide KeyPrefix;
    KeyLayout(mode, o, "");
    KeyLayout(mode, other, suffix);
    var own, key := KeyPrefix(mode, o) + "", KeyPrefix(mode, other) + suffix;
    assert own == KeyPrefix(mode, o);
    if own <= key {
      var n := |KeyKind(mode, o.side)| + 1;
      assert key[..n] == own[..n] && key[n..n + 36] == own[n..n + 36];
      assert key[1] == own[..n][1] && key[1] == key[..|KeyKind(mode, other.side)| + 1][1];
    }
  }

  // Keys of one order are equal exactly for equal cumulative quantities.
  lemma SameKeyIffSameQuantity(mode: Mode, o: Order, p: Plan, o': Order, p': Plan)
    requires KeyPrefix(mode, o) == KeyPrefix(mode, o')
    ensures KeyOf(mode, o, p) == KeyOf(mode, o', p') <==> V(p.filled) == V(p'.filled)
  {
    hide V, KeyPrefix, ToString;
    var n := |KeyPrefix(mode, o)|;
    assert ToString(p.filled) == KeyOf(mode, o, p)[n..];
    assert ToString(p'.filled) == KeyOf(mode, o', p')[n..];
    ToStringIffSameNumber(p.filled, p'.filled);
  }

  // Two fills in a row get the same key if and only if the column swallows exactly what makes their
  // cumulative quantities differ.
  lemma NextKeyCollidesIff(mode: Mode, o: Order, e: FillEvent, e': FillEvent)
    requires Stored(o) && V(e.qty) > 0.0 && V(e'.qty) > 0.0
    ensures var o' := AfterFill(o, e);
            && V(o'.filled) >= 0.0
            && (KeyOf(mode, o', NextFill(o', e')) == KeyOf(mode, o, NextFill(o, e)) <==>
                  V(o'.filled) + V(e'.qty) == V(o.filled) + V(e.qty))
  {
    hide V, Stored, NextFill, KeyOf, ToString;
    StoredStays(o, e);
    StoredFacts(o);
    StoredFacts(AfterFill(o, e));
    PlannedQuantity(o, e);
    PlannedQuantity(AfterFill(o, e), e');
    SameKeyIffSameQuantity(mode, AfterFill(o, e), NextFill(AfterFill(o, e), e'), o, NextFill(o, e));
  }

  // A second fill of the same size reuses the key, and the ledger drops it, if and only if the size
  // is below half a unit of the column.
  lemma RepeatedKeyIffTiny(mode: Mode, o: Order, e: FillEvent)
    requires Stored(o) && V(e.qty) > 0.0
    ensures var o' := AfterFill(o, e);
            && V(o'.filled) >= 0.0
            && (KeyOf(mode, o', NextFill(o', e)) == KeyOf(mode, o, NextFill(o, e)) <==>
                  V(e.qty) < HalfUnit(QUANTITY_SCALE))
  {
    hide V, HalfUnit, OnGrid, RoundTo, Div, Mul, Cmp, KeyOf, ToString;
    NextKeyCollidesIff(mode, o, e, e);
    PlannedQuantity(o, e);
    RoundExcess(V(o.filled), V(e.qty), QUANTITY_SCALE);
  }

  // ---------- histories of the books ----------

  // An attempt, or anything else that happens to the table: requests reserve, confirm and release
  // rows, which leaves every row that has its provider order id as it is.
  datatype Event =
    | Attempt(e: FillEvent, outcome: Outcome)
    | Elsewhere(rows: Table)

  ghost predicate Allowed(t: Table, t': Table) {
    TableOk(t') && forall id :: id in t && t[id].poid.Some? ==> id in t' && t'[id] == t[id]
  }

  ghost predicate Finds(t: Table, e: FillEvent) {
    exists id :: ProviderOrderIs(t, id, e.provider, e.poid)
  }

  ghost function Step(mode: Mode, b: Books, a: Event): Books
    requires TableOk(b.rows)
  {
    match a
    case Attempt(e, outcome) =>
      if ValidEvent(e) && Finds(b.rows, e) then
        var id :| ProviderOrderIs(b.rows, id, e.provider, e.poid);
        StoredFacts(b.rows[id]);
        Attempted(mode, b, id, e, outcome)
      else b
    case Elsewhere(rows) => if Allowed(b.rows, rows) then b.(rows := rows) else b
  }

  lemma StepOfRow(mode: Mode, b: Books, e: FillEvent, outcome: Outcome, id: Id)
    requires TableOk(b.rows) && ValidEvent(e) && ProviderOrderIs(b.rows, id, e.provider, e.poid)
    ensures V(b.rows[id].filled) >= 0.0
    ensures Step(mode, b, Attempt(e, outcome)) == Attempted(mode, b, id, e, outcome)
    ensures Step(mode, b, Attempt(e, outcome)).rows ==
              if Writes(outcome) then b.rows[id := AfterFill(b.rows[id], e)] else b.rows
    ensures TableOk(Step(mode, b, Attempt(e, outcome)).rows)
  {
    hide V, OnGrid, NextFill, AfterFill, UpdateFill, KeyOf, EntryOf;
    StoredFacts(b.rows[id]);
    UpdateHitsOneRow(b.rows, id, e.provider, e.poid, e);
    TableStaysOk(b.rows, id, e);
  }

  lemma StepStaysOk(mode: Mode, b: Books, a: Event)
    requires TableOk(b.rows)
    ensures TableOk(Step(mode, b, a).rows)
  {
    hide TableOk, UpdateFill, NextFill;
    if a.Attempt? && ValidEvent(a.e) && Finds(b.rows, a.e) {
      var id :| ProviderOrderIs(b.rows, id, a.e.provider, a.e.poid);
      StepOfRow(mode, b, a.e, a.outcome, id);
    }
  }

  ghost function Run(mode: Mode, b: Books, history: seq<Event>): (r: Books)
    requires TableOk(b.rows)
    ensures TableOk(r.rows)
    decreases |history|
  {
    if history == [] then b
    else
      var before := Run(mode, b, history[..|history| - 1]);
      StepStaysOk(mode, before, history[|history| - 1]);
      Step(mode, before, history[|history| - 1])
  }

  // ---------- amounts ----------

  // The figure an entry carries: the amount Livro is sent, the shares Ativos is
  function FigureText(entry: Entry): string {
    match entry
    case Capture(_, amount, _) => amount
    case Credit(_, _, amount, _) => amount
    case Sync(_, _, _, _, _, shares, _) => shares
  }

  // The number a text denotes; 0 if it is no number
  function Denoted(text: string): real {
    match Parse(text)
    case None => 0.0
    case Some(d) => V(d)
  }

  // An amount sent to Livro denotes the fiat value rounded to four decimals.
  lemma AmountDenotes(x: Dec)
    ensures Denoted(StringFixed(x, 4)) == RoundTo(V(x), 4)
    ensures -HalfUnit(4) <= Denoted(StringFixed(x, 4)) - V(x) <= HalfUnit(4)
  {
    hide V, RoundTo, HalfUnit, Parse;
    StringFixedParses(x, 4);
    RoundNear(V(x), 4);
  }

  // What each downstream service is told about a fill.
  lemma EntryTells(mode: Mode, o: Order, e: FillEvent)
    requires V(o.filled) >= 0.0 && V(e.qty) > 0.0
    ensures var p := NextFill(o, e);
            match EntryOf(mode, o, p, e)
            case Sync(tenant, portfolio, intent, ticker, action, shares, price) =>
              && mode.ViaAtivos? && Denoted(shares) == V(e.qty) && Denoted(price) == V(e.price)
              && tenant == o.tenant && portfolio == o.portfolio && intent == o.intent
              && ticker == o.symbol && action == o.side
            case Capture(hold, amount, release) =>
              && !mode.ViaAtivos? && o.side.Buy?
              && hold == (if o.hold != "" then o.hold else o.intent)
              && Denoted(amount) == RoundTo(Turnover(e), 4)
              && (release <==> Strings.EqualFold(e.status, "FILLED") || V(o.filled) + V(e.qty) >= V(o.target))
            case Credit(tenant, account, amount, reference) =>
              && !mode.ViaAtivos? && o.side.Sell?
              && tenant == o.tenant && reference == o.intent && account == o.user
              && Denoted(amount) == RoundTo(Turnover(e), 4)
  {
    hide V, RoundTo, NextFill, StringFixed, ToString, Parse;
    PlannedQuantity(o, e);
    FilledIff(o, e);
    StringParses(e.qty);
    StringParses(e.price);
    AmountDenotes(NextFill(o, e).fiat);
  }

  // ---------- the fill reported with the order itself ----------

  // OrderResult.AveragePrice
  function AveragePrice(cumulativeQuote: Dec, executed: Dec): Dec {
    if IsPositive(executed) then Div(cumulativeQuote, executed) else ZERO
  }

  // The amount sent to Livro is the fill's turnover rounded to four decimals.
  lemma SettledAmount(o: Order, e: FillEvent)
    requires V(o.filled) >= 0.0 && V(e.qty) > 0.0
    ensures var amount := Denoted(FigureText(EntryOf(DirectLivro, o, NextFill(o, e), e)));
            amount == RoundTo(Turnover(e), 4) && -HalfUnit(4) <= amount - Turnover(e) <= HalfUnit(4)
  {
    hide V, HalfUnit, RoundTo, NextFill, StringFixed, Denoted, Turnover;
    PlannedQuantity(o, e);
    AmountDenotes(NextFill(o, e).fiat);
  }

  // For an order filled at once, the amount sent to Livro differs from the broker's cumulative quote
  // quantity by at most the division's error on every executed unit, and one rounding to four
  // decimals.
  lemma SyncFillAmount(o: Order, e: FillEvent, cumulativeQuote: Dec)
    requires V(o.filled) >= 0.0 && V(e.qty) > 0.0 && e.price == AveragePrice(cumulativeQuote, e.qty)
    ensures var amount := Denoted(FigureText(EntryOf(DirectLivro, o, NextFill(o, e), e)));
            var bound := HalfUnit(DIVISION_PRECISION) * V(e.qty) + HalfUnit(4);
            -bound <= amount - V(cumulativeQuote) <= bound
  {
    hide V, HalfUnit, RoundTo, EntryOf, NextFill, Denoted, Near;
    assert IsPositive(e.qty);
    var x := V(cumulativeQuote) / V(e.qty);
    RoundNear(x, DIVISION_PRECISION);
    ScaleError(V(e.price), x, HalfUnit(DIVISION_PRECISION), V(e.qty), V(cumulativeQuote));
    SettledAmount(o, e);
    NearTurnover(e, V(cumulativeQuote), HalfUnit(DIVISION_PRECISION));
  }

  lemma NearTurnover(e: FillEvent, exact: real, err: real)
    requires Near(V(e.price), V(e.qty), exact, err)
    ensures -(err * V(e.qty)) <= Turnover(e) - exact <= err * V(e.qty)
  {
    hide V;
    Commute(V(e.qty), V(e.price));
  }

  lemma Commute(x: real, y: real)
    ensures x * y == y * x
  {
  }
}
