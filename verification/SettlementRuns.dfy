/** What any history of fill attempts leaves in the order row and in the ledger: attempts at any orders
    interleave, fail and get retried while requests reserve, confirm and release other rows. */
module SettlementRuns {

  import opened Decimals
  import opened DecimalText
  import opened Options
  import opened Orders
  import opened FillArithmetic
  import opened Settlement

  // ---------- one order in a history ----------

  predicate Targets(o: Order, a: Event) {
    a.Attempt? && ValidEvent(a.e) && IsProviderOrder(o, a.e.provider, a.e.poid)
  }

  // The order's events whose row update executed, in order and once per execution
  function Applied(o: Order, history: seq<Event>): seq<FillEvent> {
    if history == [] then []
    else
      var (init, a) := (history[..|history| - 1], history[|history| - 1]);
      if Targets(o, a) && Writes(a.outcome) then Applied(o, init) + [a.e] else Applied(o, init)
  }

  // The order's events whose attempt returned nil, in order
  function Completed(o: Order, history: seq<Event>): seq<FillEvent> {
    if history == [] then []
    else
      var (init, a) := (history[..|history| - 1], history[|history| - 1]);
      if Targets(o, a) && a.outcome.Settled? then Completed(o, init) + [a.e] else Completed(o, init)
  }

  // The order's event whose last attempt did not write the row
  function Pending(o: Order, history: seq<Event>): Option<FillEvent> {
    if history == [] then None
    else
      var (init, a) := (history[..|history| - 1], history[|history| - 1]);
      if !Targets(o, a) then Pending(o, init)
      else if Writes(a.outcome) then None else Some(a.e)
  }

  // The order's event whose last attempt returned an error
  function Unfinished(o: Order, history: seq<Event>): Option<FillEvent> {
    if history == [] then None
    else
      var (init, a) := (history[..|history| - 1], history[|history| - 1]);
      if !Targets(o, a) then Unfinished(o, init)
      else if a.outcome.Settled? then None else Some(a.e)
  }

  ghost predicate OnlyExecutions(o: Order, history: seq<Event>) {
    forall i :: 0 <= i < |history| && Targets(o, history[i]) ==> Execution(history[i].e)
  }

  ghost predicate OnlySizable(o: Order, history: seq<Event>) {
    forall i :: 0 <= i < |history| && Targets(o, history[i]) ==> Sizable(history[i].e)
  }

  // Each failed attempt of the order is retried before its next event.
  ghost predicate RetriedInOrder(o: Order, history: seq<Event>) {
    forall i :: 0 <= i < |history| && Targets(o, history[i]) && Unfinished(o, history[..i]).Some?
      ==> history[i].e == Unfinished(o, history[..i]).value
  }

  // No row update of the order executed while its caller got an error.
  ghost predicate UpdatesAnswered(o: Order, history: seq<Event>) {
    forall i :: 0 <= i < |history| && Targets(o, history[i]) ==> !history[i].outcome.UpdateUnacknowledged?
  }

  lemma {:induction false} EventsAreValid(o: Order, history: seq<Event>)
    ensures ValidEvents(Applied(o, history)) && ValidEvents(Completed(o, history))
    ensures OnlyExecutions(o, history) ==> Executions(Applied(o, history)) && Executions(Completed(o, history))
    ensures OnlySizable(o, history) ==> AllSizable(Applied(o, history)) && AllSizable(Completed(o, history))
    ensures Pending(o, history).Some? ==>
      && Unfinished(o, history) == Pending(o, history) && ValidEvent(Pending(o, history).value)
      && (OnlySizable(o, history) ==> Sizable(Pending(o, history).value))
    decreases |history|
  {
    hide ValidEvent, Execution, Sizable, IsProviderOrder;
    if history != [] {
      EventsAreValid(o, history[..|history| - 1]);
    }
  }

  lemma {:induction false} MoreAppliedThanCompleted(o: Order, history: seq<Event>)
    ensures UpdatesAnswered(o, history) ==> Applied(o, history) == Completed(o, history)
    ensures |Applied(o, history)| >= |Completed(o, history)|
    ensures TotalQty(Applied(o, history)) >= TotalQty(Completed(o, history))
    ensures !UpdatesAnswered(o, history) ==>
      |Applied(o, history)| > |Completed(o, history)| && TotalQty(Applied(o, history)) > TotalQty(Completed(o, history))
    decreases |history|
  {
    hide V, RoundTo, Targets, TotalQty;
    if history != [] {
      var (init, a) := (history[..|history| - 1], history[|history| - 1]);
      MoreAppliedThanCompleted(o, init);
      if Targets(o, a) {
        TargetIsPositive(o, a);
        TotalsAppend(Applied(o, init), a.e);
        TotalsAppend(Completed(o, init), a.e);
      }
      LastUpdate(o, history);
    }
  }

  lemma {:induction false} MoreRoundedThanCompleted(o: Order, history: seq<Event>)
    requires OnlySizable(o, history)
    ensures TotalRounded(Applied(o, history)) >= TotalRounded(Completed(o, history))
    ensures !UpdatesAnswered(o, history) ==> TotalRounded(Applied(o, history)) > TotalRounded(Completed(o, history))
    decreases |history|
  {
    hide V, RoundTo, Targets, TotalRounded, OnlySizable, Sizable, UpdatesAnswered;
    if history == [] {
      NothingToAnswer(o);
    } else {
      var (init, a) := (history[..|history| - 1], history[|history| - 1]);
      LastSizable(o, history);
      MoreRoundedThanCompleted(o, init);
      LastUpdate(o, history);
      if Targets(o, a) {
        TargetIsPositive(o, a);
        SizableCounts(a.e);
        TotalsAppend(Applied(o, init), a.e);
        TotalsAppend(Completed(o, init), a.e);
      }
    }
  }

  lemma NothingToAnswer(o: Order)
    ensures UpdatesAnswered(o, [])
  {
  }

  lemma LastSizable(o: Order, history: seq<Event>)
    requires OnlySizable(o, history) && history != []
    ensures OnlySizable(o, history[..|history| - 1])
    ensures Targets(o, history[|history| - 1]) ==> Sizable(history[|history| - 1].e)
  {
    hide Sizable, IsProviderOrder, ValidEvent;
  }

  lemma SizableCounts(e: FillEvent)
    requires Sizable(e)
    ensures RoundTo(V(e.qty), QUANTITY_SCALE) > 0.0
  {
    hide V, OnGrid, RoundTo, HalfUnit;
    ZeroOnGrid(QUANTITY_SCALE);
    RoundExcess(0.0, V(e.qty), QUANTITY_SCALE);
    RoundNonNegative(V(e.qty), QUANTITY_SCALE);
  }

  lemma LastUpdate(o: Order, history: seq<Event>)
    requires history != []
    ensures var (init, a) := (history[..|history| - 1], history[|history| - 1]);
            UpdatesAnswered(o, history) <==>
              UpdatesAnswered(o, init) && (Targets(o, a) ==> !a.outcome.UpdateUnacknowledged?)
  {
    hide IsProviderOrder, ValidEvent;
  }

  lemma TargetIsPositive(o: Order, a: Event)
    requires Targets(o, a)
    ensures a.Attempt? && V(a.e.qty) > 0.0
  {
    hide V;
  }

  lemma TotalsAppend(es: seq<FillEvent>, e: FillEvent)
    ensures TotalQty(es + [e]) == TotalQty(es) + V(e.qty)
    ensures TotalRounded(es + [e]) == TotalRounded(es) + RoundTo(V(e.qty), QUANTITY_SCALE)
    ensures TotalFiat(es + [e]) == TotalFiat(es) + Turnover(e)
  {
    hide V, RoundTo;
    assert (es + [e])[..|es|] == es;
  }

  // ---------- the order row ----------

  // Whatever happens to other orders and however attempts fail, the row of an order is what the
  // executed updates make of it.
  lemma {:induction false} RowFollowsUpdates(mode: Mode, b: Books, history: seq<Event>, id: Id)
    requires TableOk(b.rows) && id in b.rows && b.rows[id].poid.Some?
    ensures Stored(b.rows[id]) && ValidEvents(Applied(b.rows[id], history))
    ensures id in Run(mode, b, history).rows
    ensures Run(mode, b, history).rows[id] == AfterFills(b.rows[id], Applied(b.rows[id], history))
    decreases |history|
  {
    hide Stored, ValidEvent, ValidEvents, AfterFills, Step, TableOk, IsProviderOrder;
    var o := b.rows[id];
    EventsAreValid(o, history);
    StoredRow(b.rows, id);
    if history == [] {
      NoFills(o);
    } else {
      var (init, a) := (history[..|history| - 1], history[|history| - 1]);
      RowFollowsUpdates(mode, b, init, id);
      var before := Run(mode, b, init);
      TargetsStay(o, Applied(o, init), a);
      if Targets(o, a) {
        TargetedStepRow(mode, before, o, Applied(o, init), a, id);
      } else {
        ForeignStep(mode, before, a, id);
      }
    }
  }

  lemma TargetsStay(o: Order, es: seq<FillEvent>, a: Event)
    requires Stored(o) && ValidEvents(es)
    ensures Targets(AfterFills(o, es), a) == Targets(o, a)
    ensures AfterFills(o, es).poid == o.poid
  {
    TargetStays(o, es);
  }

  lemma TargetedStepRow(mode: Mode, b: Books, o: Order, es: seq<FillEvent>, a: Event, id: Id)
    requires TableOk(b.rows) && id in b.rows && Stored(o) && ValidEvents(es) && b.rows[id] == AfterFills(o, es)
    requires Targets(b.rows[id], a) && ValidEvent(a.e)
    ensures ValidEvents(es + [a.e])
    ensures id in Step(mode, b, a).rows
    ensures Step(mode, b, a).rows[id] == AfterFills(o, if Writes(a.outcome) then es + [a.e] else es)
  {
    hide V, OnGrid, AfterFill, AfterFills, Step, TableOk;
    ExecutionIsValid(a.e);
    StepOfRow(mode, b, a.e, a.outcome, id);
    AppendFill(o, es, a.e);
  }

  lemma StoredRow(t: Table, id: Id)
    requires TableOk(t) && id in t
    ensures Stored(t[id])
  {
  }

  lemma ExecutionIsValid(e: FillEvent)
    requires ValidEvent(e)
    ensures ValidEvent(e)
  {
  }

  lemma AppendFill(o: Order, es: seq<FillEvent>, e: FillEvent)
    requires Stored(o) && ValidEvents(es) && ValidEvent(e)
    ensures ValidEvents(es + [e])
    ensures V(AfterFills(o, es).filled) >= 0.0 && V(e.qty) > 0.0
    ensures AfterFills(o, es + [e]) == AfterFill(AfterFills(o, es), e)
  {
    hide V, OnGrid, AfterFill;
    assert (es + [e])[..|es|] == es;
  }

  // A step for another order, or for none, leaves this row and its entries alone.
  lemma ForeignStep(mode: Mode, b: Books, a: Event, id: Id)
    requires TableOk(b.rows) && id in b.rows && b.rows[id].poid.Some? && !Targets(b.rows[id], a)
    ensures var b' := Step(mode, b, a); id in b'.rows && b'.rows[id] == b.rows[id]
    ensures forall key :: KeyPrefix(mode, b.rows[id]) <= key ==>
              && (key in Step(mode, b, a).entries <==> key in b.entries)
              && (key in b.entries ==> Step(mode, b, a).entries[key] == b.entries[key])
  {
    hide V, OnGrid, AfterFill, NextFill, EntryOf, KeyOf, KeyPrefix, TableOk, UpdateFill, ToString;
    if a.Attempt? && ValidEvent(a.e) && Finds(b.rows, a.e) {
      var other :| ProviderOrderIs(b.rows, other, a.e.provider, a.e.poid);
      assert other != id;
      StepOfRow(mode, b, a.e, a.outcome, other);
      DifferentIntents(b.rows, id, other);
      ForeignKey(mode, b.rows[id], b.rows[other], NextFill(b.rows[other], a.e));
    }
  }

  lemma ForeignKey(mode: Mode, o: Order, other: Order, p: Plan)
    requires o.intent != other.intent
    ensures !(KeyPrefix(mode, o) <= KeyOf(mode, other, p))
  {
    hide KeyPrefix, ToString;
    KeyTellsIntent(mode, o, other, ToString(p.filled));
  }

  lemma DifferentIntents(t: Table, a: Id, b: Id)
    requires TableOk(t) && a in t && b in t && a != b
    ensures t[a].intent != t[b].intent
  {
    assert !Conflict(t[a], t[b]);
  }

  // For sizable fills the row is what the attempts that returned nil make of it if and only if no
  // update executed behind an error.
  lemma RowFollowsCompletedFills(mode: Mode, b: Books, history: seq<Event>, id: Id)
    requires TableOk(b.rows) && id in b.rows && b.rows[id].poid.Some?
    requires OnlySizable(b.rows[id], history)
    ensures Stored(b.rows[id]) && ValidEvents(Completed(b.rows[id], history))
    ensures id in Run(mode, b, history).rows
    ensures Run(mode, b, history).rows[id] == AfterFills(b.rows[id], Completed(b.rows[id], history))
            <==> UpdatesAnswered(b.rows[id], history)
  {
    hide V, Stored, ValidEvents, OnGrid, Run, TableOk, AfterFills, TotalRounded, OnlySizable, Completed, Applied,
         UpdatesAnswered;
    var o := b.rows[id];
    RowFollowsUpdates(mode, b, history, id);
    EventsAreValid(o, history);
    MoreAppliedThanCompleted(o, history);
    MoreRoundedThanCompleted(o, history);
    RoundedConservation(o, Applied(o, history));
    RoundedConservation(o, Completed(o, history));
  }

  // ---------- the ledger entries of one order ----------

  // The plan, key and entry of the next fill e after the fills es
  ghost function PlanAfter(o: Order, es: seq<FillEvent>, e: FillEvent): Plan
    requires Stored(o) && ValidEvents(es) && ValidEvent(e)
  {
    StoredFacts(AfterFills(o, es));
    NextFill(AfterFills(o, es), e)
  }

  ghost function KeyAfter(mode: Mode, o: Order, es: seq<FillEvent>, e: FillEvent): string
    requires Stored(o) && ValidEvents(es) && ValidEvent(e)
  {
    KeyOf(mode, AfterFills(o, es), PlanAfter(o, es, e))
  }

  ghost function EntryAfter(mode: Mode, o: Order, es: seq<FillEvent>, e: FillEvent): Entry
    requires Stored(o) && ValidEvents(es) && ValidEvent(e)
  {
    EntryOf(mode, AfterFills(o, es), PlanAfter(o, es, e), e)
  }

  ghost function KeyAt(mode: Mode, o: Order, es: seq<FillEvent>, i: nat): string
    requires Stored(o) && ValidEvents(es) && i < |es|
  {
    assert ValidEvent(es[i]);
    KeyAfter(mode, o, es[..i], es[i])
  }

  ghost function EntryAt(mode: Mode, o: Order, es: seq<FillEvent>, i: nat): Entry
    requires Stored(o) && ValidEvents(es) && i < |es|
  {
    assert ValidEvent(es[i]);
    EntryAfter(mode, o, es[..i], es[i])
  }

  lemma KeyHasPrefix(mode: Mode, o: Order, es: seq<FillEvent>, e: FillEvent)
    requires Stored(o) && ValidEvents(es) && ValidEvent(e)
    ensures KeyPrefix(mode, AfterFills(o, es)) == KeyPrefix(mode, o)
    ensures KeyPrefix(mode, o) <= KeyAfter(mode, o, es, e)
  {
    hide V, OnGrid, Stored, ValidEvent, NextFill, ToString;
    TargetStays(o, es);
  }

  // The key of a fill that the column does not round away never equals an earlier one: the
  // cumulative quantity in it has strictly grown.
  lemma KeysDiffer(mode: Mode, o: Order, es: seq<FillEvent>, i: nat, e: FillEvent)
    requires Stored(o) && ValidEvents(es) && i < |es| && Sizable(e)
    ensures KeyAt(mode, o, es, i) != KeyAfter(mode, o, es, e)
  {
    hide V, OnGrid, RoundTo, HalfUnit, NextFill, AfterFill, KeyOf, KeyPrefix;
    var x := es[i];
    assert ValidEvent(x);
    KeyHasPrefix(mode, o, es[..i], x);
    KeyHasPrefix(mode, o, es, e);
    var (before, after) := (AfterFills(o, es[..i]), AfterFills(o, es));
    StoredFacts(before);
    StoredFacts(after);
    PlannedQuantity(before, x);
    PlannedQuantity(after, e);
    FilledAtLeast(o, es, i);
    RoundAbove(V(x.qty), QUANTITY_SCALE);
    SameKeyIffSameQuantity(mode, before, PlanAfter(o, es[..i], x), after, PlanAfter(o, es, e));
  }

  // What is stored after es includes the i-th fill as the column took it.
  lemma FilledAtLeast(o: Order, es: seq<FillEvent>, i: nat)
    requires Stored(o) && ValidEvents(es) && i < |es|
    ensures V(AfterFills(o, es).filled) >= V(AfterFills(o, es[..i]).filled) + RoundTo(V(es[i].qty), QUANTITY_SCALE)
  {
    hide V, OnGrid, RoundTo, HalfUnit, AfterFill;
    assert ValidEvent(es[i]);
    assert es[..i + 1][..i] == es[..i] && es[..|es|] == es;
    FillAddsRounded(AfterFills(o, es[..i]), es[i]);
    if i + 1 < |es| {
      FilledIncreases(o, es, i + 1, |es|);
    }
  }

  lemma SamePrefix(mode: Mode, o: Order, r: Order)
    requires r == o.(status := r.status, filled := r.filled, avg := r.avg)
    ensures KeyPrefix(mode, r) == KeyPrefix(mode, o)
  {
  }

  lemma KeyIsNew(mode: Mode, o: Order, es: seq<FillEvent>, e: FillEvent)
    requires Stored(o) && ValidEvents(es) && Sizable(e)
    ensures forall i :: 0 <= i < |es| ==> KeyAt(mode, o, es, i) != KeyAfter(mode, o, es, e)
  {
    hide Stored, ValidEvents, ValidEvent, KeyAt, KeyAfter;
    forall i | 0 <= i < |es| ensures KeyAt(mode, o, es, i) != KeyAfter(mode, o, es, e) {
      KeysDiffer(mode, o, es, i, e);
    }
  }

  lemma KeysAreDistinct(mode: Mode, o: Order, es: seq<FillEvent>)
    requires Stored(o) && AllSizable(es)
    ensures forall i, j :: 0 <= i < j < |es| ==> KeyAt(mode, o, es, i) != KeyAt(mode, o, es, j)
  {
    hide V, OnGrid, NextFill, AfterFills, KeyOf, ValidEvent, KeyAfter;
    forall i, j | 0 <= i < j < |es| ensures KeyAt(mode, o, es, i) != KeyAt(mode, o, es, j) {
      assert Sizable(es[j]);
      KeysDiffer(mode, o, es[..j], i, es[j]);
      assert es[..j][..i] == es[..i];
    }
  }

  // ---------- where an entry comes from ----------

  // The i-th event is an attempt at the order that posts.
  ghost predicate Posting(o: Order, history: seq<Event>, i: nat) {
    i < |history| && Targets(o, history[i]) && Posts(history[i].outcome)
  }

  // The updates executed before it, and what it posts
  ghost function Before(o: Order, history: seq<Event>, i: nat): (es: seq<FillEvent>)
    requires i <= |history|
    ensures ValidEvents(es)
  {
    EventsAreValid(o, history[..i]);
    Applied(o, history[..i])
  }

  ghost function PostKey(mode: Mode, o: Order, history: seq<Event>, i: nat): string
    requires Stored(o) && Posting(o, history, i)
  {
    KeyAfter(mode, o, Before(o, history, i), history[i].e)
  }

  ghost function PostEntry(mode: Mode, o: Order, history: seq<Event>, i: nat): Entry
    requires Stored(o) && Posting(o, history, i)
  {
    EntryAfter(mode, o, Before(o, history, i), history[i].e)
  }

  // The i-th event is the first to post the key.
  ghost predicate FirstPost(mode: Mode, o: Order, history: seq<Event>, i: nat, key: string)
    requires Stored(o)
  {
    && Posting(o, history, i) && PostKey(mode, o, history, i) == key
    && forall j: nat :: j < i && Posting(o, history, j) ==> PostKey(mode, o, history, j) != key
  }

  // A history of an order that starts without entries, with fills the quantity column counts
  ghost predicate Tracked(mode: Mode, b: Books, history: seq<Event>, id: Id) {
    && TableOk(b.rows) && id in b.rows && Stored(b.rows[id]) && b.rows[id].poid.Some? && !mode.Detached?
    && OnlySizable(b.rows[id], history)
    && (forall key :: key in b.entries ==> !(KeyPrefix(mode, b.rows[id]) <= key))
  }

  lemma TrackedPrefix(mode: Mode, b: Books, history: seq<Event>, id: Id)
    requires Tracked(mode, b, history, id) && history != []
    ensures Tracked(mode, b, history[..|history| - 1], id)
  {
    hide TableOk, Stored, Sizable, IsProviderOrder, KeyPrefix;
  }

  lemma PostOfPrefix(mode: Mode, o: Order, history: seq<Event>, i: nat)
    requires Stored(o) && i + 1 < |history|
    ensures var init := history[..|history| - 1];
            && Posting(o, history, i) == Posting(o, init, i)
            && (Posting(o, history, i) ==>
                  && PostKey(mode, o, history, i) == PostKey(mode, o, init, i)
                  && PostEntry(mode, o, history, i) == PostEntry(mode, o, init, i))
  {
    hide Stored, IsProviderOrder, KeyAfter, EntryAfter, Applied;
    assert history[..|history| - 1][..i] == history[..i];
  }

  lemma FirstPostOfPrefix(mode: Mode, o: Order, history: seq<Event>, i: nat, key: string)
    requires Stored(o) && i + 1 < |history|
    ensures FirstPost(mode, o, history, i, key) == FirstPost(mode, o, history[..|history| - 1], i, key)
  {
    hide Stored, Posting, PostKey, PostEntry;
    var init := history[..|history| - 1];
    PostOfPrefix(mode, o, history, i);
    if FirstPost(mode, o, init, i, key) {
      forall j: nat | j < i && Posting(o, history, j) ensures PostKey(mode, o, history, j) != key {
        PostOfPrefix(mode, o, history, j);
      }
    }
    if FirstPost(mode, o, history, i, key) {
      forall j: nat | j < i && Posting(o, init, j) ensures PostKey(mode, o, init, j) != key {
        PostOfPrefix(mode, o, history, j);
      }
    }
  }

  // What the last attempt of a history does to the ledger
  lemma LastPost(mode: Mode, b: Books, history: seq<Event>, id: Id)
    requires Tracked(mode, b, history, id) && history != [] && Targets(b.rows[id], history[|history| - 1])
    ensures var (o, n) := (b.rows[id], |history| - 1);
            var before := Run(mode, b, history[..n]).entries;
            Run(mode, b, history).entries ==
              if Posting(o, history, n)
              then Posted(before, PostKey(mode, o, history, n), PostEntry(mode, o, history, n))
              else before
  {
    hide V, Stored, OnGrid, HalfUnit, NextFill, AfterFills, AfterFill, UpdateFill, TableOk, Step, KeyOf, EntryOf,
         Applied, KeyPrefix, IsProviderOrder, OnlySizable;
    var (o, n) := (b.rows[id], |history| - 1);
    var (init, a) := (history[..n], history[n]);
    RowFollowsUpdates(mode, b, init, id);
    var before := Run(mode, b, init);
    TargetsStay(o, Applied(o, init), a);
    TargetIsRow(before.rows, id, a);
    StepOfRow(mode, before, a.e, a.outcome, id);
  }

  lemma TargetIsRow(t: Table, id: Id, a: Event)
    requires id in t && Targets(t[id], a)
    ensures ProviderOrderIs(t, id, a.e.provider, a.e.poid) && ValidEvent(a.e)
  {
  }

  // The ledger holds a key of the order exactly when some attempt posted it, with the content of the
  // first that did.
  lemma {:induction false} EntriesAreFirstPosts(mode: Mode, b: Books, history: seq<Event>, id: Id, key: string)
    requires Tracked(mode, b, history, id) && KeyPrefix(mode, b.rows[id]) <= key
    ensures var (o, entries) := (b.rows[id], Run(mode, b, history).entries);
            && (key in entries <==> exists i: nat :: FirstPost(mode, o, history, i, key))
            && (forall i: nat :: FirstPost(mode, o, history, i, key) ==> entries[key] == PostEntry(mode, o, history, i))
    decreases |history|
  {
    hide TableOk, KeyPrefix, Stored, Targets, PostKey, PostEntry, Run, OnlySizable, FirstPost;
    var o := b.rows[id];
    if history == [] {
      NoPosts(mode, b, id, key);
    } else {
      var n := |history| - 1;
      TrackedPrefix(mode, b, history, id);
      EntriesAreFirstPosts(mode, b, history[..n], id, key);
      forall i: nat | FirstPost(mode, o, history, i, key) || FirstPost(mode, o, history[..n], i, key)
        ensures i <= n && Posting(o, history, i) && PostKey(mode, o, history, i) == key
        ensures i < n ==>
          && FirstPost(mode, o, history, i, key) && FirstPost(mode, o, history[..n], i, key)
          && PostEntry(mode, o, history, i) == PostEntry(mode, o, history[..n], i)
        ensures i == n ==> FirstPost(mode, o, history, n, key)
      {
        FirstPostBound(mode, o, history, i, key);
      }
      LastEvent(mode, b, history, id, key);
    }
  }

  lemma FirstPostBound(mode: Mode, o: Order, history: seq<Event>, i: nat, key: string)
    requires Stored(o) && history != []
    requires FirstPost(mode, o, history, i, key) || FirstPost(mode, o, history[..|history| - 1], i, key)
    ensures var n := |history| - 1;
            && i <= n && Posting(o, history, i) && PostKey(mode, o, history, i) == key
            && (i < n ==>
                  && FirstPost(mode, o, history, i, key) && FirstPost(mode, o, history[..n], i, key)
                  && PostEntry(mode, o, history, i) == PostEntry(mode, o, history[..n], i))
            && (i == n ==> FirstPost(mode, o, history, n, key))
            && (FirstPost(mode, o, history[..n], i, key) ==> i < n)
  {
    hide Stored, Targets, PostKey, PostEntry;
    if i + 1 < |history| {
      FirstPostOfPrefix(mode, o, history, i, key);
      PostOfPrefix(mode, o, history, i);
    }
  }

  lemma NoPosts(mode: Mode, b: Books, id: Id, key: string)
    requires Tracked(mode, b, [], id) && KeyPrefix(mode, b.rows[id]) <= key
    ensures key !in Run(mode, b, []).entries
    ensures forall i: nat :: !Posting(b.rows[id], [], i) && !FirstPost(mode, b.rows[id], [], i, key)
  {
    hide TableOk, Stored, KeyPrefix;
  }

  // The induction step: the last event posts the key for the first time, or changes nothing about it.
  lemma LastEvent(mode: Mode, b: Books, history: seq<Event>, id: Id, key: string)
    requires Tracked(mode, b, history, id) && KeyPrefix(mode, b.rows[id]) <= key && history != []
    requires var init := history[..|history| - 1];
             key in Run(mode, b, init).entries <==> exists i: nat :: FirstPost(mode, b.rows[id], init, i, key)
    ensures var (o, n) := (b.rows[id], |history| - 1);
            var (before, after) := (Run(mode, b, history[..n]).entries, Run(mode, b, history).entries);
            if FirstPost(mode, o, history, n, key)
            then key !in before && key in after && after[key] == PostEntry(mode, o, history, n)
            else (key in after <==> key in before) && (key in before ==> after[key] == before[key])
  {
    hide V, Stored, KeyPrefix, PostKey, PostEntry, Run, TableOk, Targets, OnlySizable, FirstPost;
    var (o, n) := (b.rows[id], |history| - 1);
    if Targets(o, history[n]) {
      LastPost(mode, b, history, id);
    } else {
      LastForeign(mode, b, history, id);
    }
    if Posting(o, history, n) && PostKey(mode, o, history, n) == key && !FirstPost(mode, o, history, n, key) {
      EarliestPost(mode, o, history, n, key);
      var i: nat :| i <= n && FirstPost(mode, o, history, i, key);
      FirstPostOfPrefix(mode, o, history, i, key);
    }
    if FirstPost(mode, o, history, n, key) {
      FirstPostHasKey(mode, o, history, n, key);
      if i: nat :| FirstPost(mode, o, history[..n], i, key) {
        FirstPostBound(mode, o, history, i, key);
        OnlyOneFirst(mode, o, history, i, n, key);
      }
    }
  }

  lemma OnlyOneFirst(mode: Mode, o: Order, history: seq<Event>, i: nat, j: nat, key: string)
    requires Stored(o) && FirstPost(mode, o, history, i, key) && FirstPost(mode, o, history, j, key)
    ensures i == j
  {
    hide Stored, Posting, PostKey;
  }

  lemma LastForeign(mode: Mode, b: Books, history: seq<Event>, id: Id)
    requires Tracked(mode, b, history, id) && history != [] && !Targets(b.rows[id], history[|history| - 1])
    ensures var (before, after) := (Run(mode, b, history[..|history| - 1]).entries, Run(mode, b, history).entries);
            forall key :: KeyPrefix(mode, b.rows[id]) <= key ==>
              (key in after <==> key in before) && (key in before ==> after[key] == before[key])
  {
    hide V, Stored, ValidEvents, AfterFills, Step, TableOk, IsProviderOrder, KeyPrefix, OnlySizable;
    var (o, init, a) := (b.rows[id], history[..|history| - 1], history[|history| - 1]);
    RowFollowsUpdates(mode, b, init, id);
    EventsAreValid(o, init);
    TargetsStay(o, Applied(o, init), a);
    TargetStays(o, Applied(o, init));
    var before := Run(mode, b, init);
    SamePrefix(mode, o, before.rows[id]);
    ForeignStep(mode, before, a, id);
  }

  lemma {:induction false} EarliestPost(mode: Mode, o: Order, history: seq<Event>, n: nat, key: string)
    requires Stored(o) && Posting(o, history, n) && PostKey(mode, o, history, n) == key
    ensures exists i: nat :: i <= n && FirstPost(mode, o, history, i, key)
    decreases n
  {
    hide Stored, Posting, PostKey;
    if j: nat :| j < n && Posting(o, history, j) && PostKey(mode, o, history, j) == key {
      EarliestPost(mode, o, history, j, key);
    } else {
      assert FirstPost(mode, o, history, n, key);
    }
  }

  // ---------- posts and executed updates ----------

  lemma {:induction false} AppliedGrows(o: Order, history: seq<Event>, i: nat)
    requires i <= |history|
    ensures Applied(o, history[..i]) <= Applied(o, history)
    ensures i < |history| && Targets(o, history[i]) && Writes(history[i].outcome) ==>
      var m := |Applied(o, history[..i])|;
      m < |Applied(o, history)| && Applied(o, history)[m] == history[i].e
    decreases |history|
  {
    hide IsProviderOrder, ValidEvent;
    if i < |history| {
      var init := history[..|history| - 1];
      assert init[..i] == history[..i];
      AppliedGrows(o, init, i);
    } else {
      assert history[..i] == history;
    }
  }

  lemma {:induction false} WriterOf(o: Order, history: seq<Event>, j: nat) returns (i: nat)
    requires j < |Applied(o, history)|
    ensures i < |history| && Targets(o, history[i]) && Writes(history[i].outcome)
    ensures Applied(o, history[..i]) == Applied(o, history)[..j] && history[i].e == Applied(o, history)[j]
    decreases |history|
  {
    hide IsProviderOrder, ValidEvent;
    var init := history[..|history| - 1];
    if j < |Applied(o, init)| {
      i := WriterOf(o, init, j);
      assert init[..i] == history[..i];
      assert Applied(o, init)[..j] == Applied(o, history)[..j];
    } else {
      i := |history| - 1;
      assert history[..i] == init && Applied(o, init) == Applied(o, history)[..j];
    }
  }

  // A post before the m-th executed update of the same event has that update's key and entry.
  lemma PostOfUpdate(mode: Mode, o: Order, history: seq<Event>, i: nat)
    requires Stored(o) && Posting(o, history, i)
    ensures ValidEvents(Applied(o, history))
    ensures var (es, m) := (Applied(o, history), |Before(o, history, i)|);
            m < |es| && es[m] == history[i].e ==>
              KeyAt(mode, o, es, m) == PostKey(mode, o, history, i)
                  && EntryAt(mode, o, es, m) == PostEntry(mode, o, history, i)
  {
    hide Stored, IsProviderOrder, ValidEvent, KeyAfter, EntryAfter, Applied;
    EventsAreValid(o, history);
    AppliedGrows(o, history, i);
    var (es, m) := (Applied(o, history), |Before(o, history, i)|);
    assert m < |es| ==> es[..m] == Before(o, history, i);
  }

  // The post has the key and the entry of an executed update.
  ghost predicate Matched(mode: Mode, o: Order, history: seq<Event>, i: nat)
    requires Stored(o) && Posting(o, history, i) && ValidEvents(Applied(o, history))
  {
    exists j ::
      && 0 <= j < |Applied(o, history)|
      && KeyAt(mode, o, Applied(o, history), j) == PostKey(mode, o, history, i)
      && EntryAt(mode, o, Applied(o, history), j) == PostEntry(mode, o, history, i)
  }

  // Every attempt that posts a key for the first time without writing the row posts what an executed
  // update posts as well.
  ghost predicate NoStrayPost(mode: Mode, o: Order, history: seq<Event>)
    requires Stored(o) && ValidEvents(Applied(o, history))
  {
    forall i: nat ::
      Posting(o, history, i) && !Writes(history[i].outcome)
          && FirstPost(mode, o, history, i, PostKey(mode, o, history, i))
      ==> Matched(mode, o, history, i)
  }

  lemma FirstPostMatched(mode: Mode, o: Order, history: seq<Event>, i: nat, key: string)
    requires Stored(o) && ValidEvents(Applied(o, history)) && NoStrayPost(mode, o, history)
    requires FirstPost(mode, o, history, i, key)
    ensures Matched(mode, o, history, i)
  {
    hide Stored, ValidEvents, IsProviderOrder, KeyAt, EntryAt, PostKey, PostEntry, Applied, ValidEvent;
    if Writes(history[i].outcome) {
      AppliedGrows(o, history, i);
      PostOfUpdate(mode, o, history, i);
    }
  }

  lemma UpdatePosted(mode: Mode, o: Order, history: seq<Event>, j: nat) returns (i: nat)
    requires Stored(o) && j < |Applied(o, history)|
    ensures ValidEvents(Applied(o, history)) && Posting(o, history, i)
    ensures PostKey(mode, o, history, i) == KeyAt(mode, o, Applied(o, history), j)
  {
    hide Stored, ValidEvents, ValidEvent, IsProviderOrder, KeyAt, EntryAt, PostKey, PostEntry, Applied;
    EventsAreValid(o, history);
    i := WriterOf(o, history, j);
    PostOfUpdate(mode, o, history, i);
  }

  lemma WriterPosts(mode: Mode, b: Books, history: seq<Event>, id: Id, j: nat)
    requires Tracked(mode, b, history, id) && j < |Applied(b.rows[id], history)|
    ensures ValidEvents(Applied(b.rows[id], history))
    ensures KeyPrefix(mode, b.rows[id]) <= KeyAt(mode, b.rows[id], Applied(b.rows[id], history), j)
    ensures KeyAt(mode, b.rows[id], Applied(b.rows[id], history), j) in Run(mode, b, history).entries
  {
    hide TableOk, Stored, ValidEvents, Posting, KeyAt, PostKey, Run, KeyPrefix, Applied, FirstPost, OnlySizable;
    var o := b.rows[id];
    var i := UpdatePosted(mode, o, history, j);
    var key := KeyAt(mode, o, Applied(o, history), j);
    KeyAtHasPrefix(mode, o, Applied(o, history), j);
    EarliestPost(mode, o, history, i, key);
    EntriesAreFirstPosts(mode, b, history, id, key);
  }

  // Exactly one entry for each of the fills es, with that fill's content and under a key of its own,
  // and no other entry of the order
  ghost predicate OneEntryEach(mode: Mode, o: Order, es: seq<FillEvent>, entries: map<string, Entry>)
    requires Stored(o) && ValidEvents(es)
  {
    && (forall i :: 0 <= i < |es| ==>
          KeyAt(mode, o, es, i) in entries && entries[KeyAt(mode, o, es, i)] == EntryAt(mode, o, es, i))
    && (forall key :: key in entries && KeyPrefix(mode, o) <= key ==>
          exists i :: 0 <= i < |es| && KeyAt(mode, o, es, i) == key)
    && (forall i, j :: 0 <= i < j < |es| ==> KeyAt(mode, o, es, i) != KeyAt(mode, o, es, j))
  }

  // Whatever fails and whatever is retried or not: the ledger holds exactly one entry per executed
  // update, with its content, and no other of the order, if and only if no post strays.
  lemma OneEntryPerUpdateIff(mode: Mode, b: Books, history: seq<Event>, id: Id)
    requires Tracked(mode, b, history, id)
    ensures ValidEvents(Applied(b.rows[id], history))
    ensures OneEntryEach(mode, b.rows[id], Applied(b.rows[id], history), Run(mode, b, history).entries)
            <==> NoStrayPost(mode, b.rows[id], history)
  {
    hide TableOk, Stored, ValidEvents, Posting, PostKey, PostEntry, KeyAt, EntryAt, Run, KeyPrefix, FirstPost,
         Applied, AllSizable, OnlySizable, NoStrayPost, OneEntryEach;
    EventsAreValid(b.rows[id], history);
    if NoStrayPost(mode, b.rows[id], history) {
      NoStrayEntries(mode, b, history, id);
    }
    if OneEntryEach(mode, b.rows[id], Applied(b.rows[id], history), Run(mode, b, history).entries) {
      EntriesDoNotStray(mode, b, history, id);
    }
  }

  lemma NoStrayEntries(mode: Mode, b: Books, history: seq<Event>, id: Id)
    requires Tracked(mode, b, history, id) && ValidEvents(Applied(b.rows[id], history))
    requires NoStrayPost(mode, b.rows[id], history)
    ensures OneEntryEach(mode, b.rows[id], Applied(b.rows[id], history), Run(mode, b, history).entries)
  {
    hide TableOk, Stored, ValidEvents, Posting, PostKey, PostEntry, KeyAt, EntryAt, Run, KeyPrefix, FirstPost,
         Applied, AllSizable, OnlySizable, NoStrayPost;
    var (o, es, entries) := (b.rows[id], Applied(b.rows[id], history), Run(mode, b, history).entries);
    EventsAreValid(o, history);
    KeysAreDistinct(mode, o, es);
    forall key | key in entries && KeyPrefix(mode, o) <= key
      ensures exists j :: 0 <= j < |es| && KeyAt(mode, o, es, j) == key && entries[key] == EntryAt(mode, o, es, j)
    {
      EntriesAreFirstPosts(mode, b, history, id, key);
      var i: nat :| FirstPost(mode, o, history, i, key);
      FirstPostHasKey(mode, o, history, i, key);
      FirstPostMatched(mode, o, history, i, key);
    }
    forall j | 0 <= j < |es|
      ensures KeyAt(mode, o, es, j) in entries && entries[KeyAt(mode, o, es, j)] == EntryAt(mode, o, es, j)
    {
      WriterPosts(mode, b, history, id, j);
    }
  }

  lemma FirstPostHasKey(mode: Mode, o: Order, history: seq<Event>, i: nat, key: string)
    requires Stored(o) && FirstPost(mode, o, history, i, key)
    ensures Posting(o, history, i) && PostKey(mode, o, history, i) == key
  {
  }

  lemma EntriesDoNotStray(mode: Mode, b: Books, history: seq<Event>, id: Id)
    requires Tracked(mode, b, history, id) && ValidEvents(Applied(b.rows[id], history))
    requires OneEntryEach(mode, b.rows[id], Applied(b.rows[id], history), Run(mode, b, history).entries)
    ensures NoStrayPost(mode, b.rows[id], history)
  {
    hide TableOk, Stored, ValidEvents, ValidEvent, IsProviderOrder, PostKey, PostEntry, KeyAt, EntryAt, Run,
         KeyPrefix, FirstPost, Applied, OnlySizable;
    var o := b.rows[id];
    forall i: nat | Posting(o, history, i) && !Writes(history[i].outcome)
                    && FirstPost(mode, o, history, i, PostKey(mode, o, history, i))
      ensures Matched(mode, o, history, i)
    {
      var key := PostKey(mode, o, history, i);
      PostKeyHasPrefix(mode, o, history, i);
      EntriesAreFirstPosts(mode, b, history, id, key);
    }
  }

  lemma PostKeyHasPrefix(mode: Mode, o: Order, history: seq<Event>, i: nat)
    requires Stored(o) && Posting(o, history, i)
    ensures KeyPrefix(mode, o) <= PostKey(mode, o, history, i)
  {
    hide Stored, KeyPrefix, KeyAfter, IsProviderOrder, ValidEvent, Applied;
    KeyHasPrefix(mode, o, Before(o, history, i), history[i].e);
  }

  // Exactly-once settlement, for every history: the ledger holds, for each event whose attempt
  // returned nil, exactly one entry with that event's content and no other entry of the order, if
  // and only if no row update executed while its caller got an error and no post strays.
  lemma ExactlyOnce(mode: Mode, b: Books, history: seq<Event>, id: Id)
    requires Tracked(mode, b, history, id)
    ensures ValidEvents(Applied(b.rows[id], history)) && ValidEvents(Completed(b.rows[id], history))
    ensures OneEntryEach(mode, b.rows[id], Completed(b.rows[id], history), Run(mode, b, history).entries)
            <==> UpdatesAnswered(b.rows[id], history) && NoStrayPost(mode, b.rows[id], history)
  {
    hide TableOk, Run, KeyPrefix, OneEntryEach, Sizable, ValidEvents, AllSizable, Stored, Applied, Completed,
         UpdatesAnswered, NoStrayPost, OnlySizable;
    var (o, entries) := (b.rows[id], Run(mode, b, history).entries);
    EventsAreValid(o, history);
    MoreAppliedThanCompleted(o, history);
    OneEntryPerUpdateIff(mode, b, history, id);
    if OneEntryEach(mode, o, Completed(o, history), entries) {
      OrderKeyCount(mode, o, Completed(o, history), entries);
      UpdatesHaveKeys(mode, b, history, id);
    }
  }

  // Every executed update has a key of its own in the ledger.
  lemma UpdatesHaveKeys(mode: Mode, b: Books, history: seq<Event>, id: Id)
    requires Tracked(mode, b, history, id)
    ensures |OrderKeys(mode, b.rows[id], Run(mode, b, history).entries)| >= |Applied(b.rows[id], history)|
  {
    hide TableOk, Run, KeyPrefix, Sizable, ValidEvents, Stored, Applied, OnlySizable, KeyAt, AllSizable;
    var (o, es, entries) := (b.rows[id], Applied(b.rows[id], history), Run(mode, b, history).entries);
    EventsAreValid(o, history);
    var (own, all) := (KeysOf(mode, o, es, |es|), OrderKeys(mode, o, entries));
    forall key | key in own ensures key in all {
      var j :| 0 <= j < |es| && KeyAt(mode, o, es, j) == key;
      WriterPosts(mode, b, history, id, j);
    }
    KeysOfCount(mode, o, es, |es|);
    assert all == own + (all - own);
  }

  ghost function OrderKeys(mode: Mode, o: Order, entries: map<string, Entry>): set<string> {
    set key | key in entries && KeyPrefix(mode, o) <= key
  }

  ghost function KeysOf(mode: Mode, o: Order, es: seq<FillEvent>, n: nat): set<string>
    requires Stored(o) && ValidEvents(es) && n <= |es|
  {
    set i | 0 <= i < n :: KeyAt(mode, o, es, i)
  }

  lemma KeysOfNext(mode: Mode, o: Order, es: seq<FillEvent>, n: nat)
    requires Stored(o) && AllSizable(es) && n < |es|
    ensures KeysOf(mode, o, es, n + 1) == KeysOf(mode, o, es, n) + {KeyAt(mode, o, es, n)}
    ensures KeyAt(mode, o, es, n) !in KeysOf(mode, o, es, n)
  {
    hide Stored, AllSizable, ValidEvents, KeyAt;
    KeysAreDistinct(mode, o, es);
  }

  lemma AllKeys(mode: Mode, o: Order, es: seq<FillEvent>, entries: map<string, Entry>)
    requires Stored(o) && ValidEvents(es) && OneEntryEach(mode, o, es, entries)
    ensures KeysOf(mode, o, es, |es|) == OrderKeys(mode, o, entries)
  {
    hide Stored, ValidEvent, KeyAt, EntryAt, KeyPrefix;
    forall i | 0 <= i < |es| ensures KeyPrefix(mode, o) <= KeyAt(mode, o, es, i) {
      KeyAtHasPrefix(mode, o, es, i);
    }
  }

  lemma KeyAtHasPrefix(mode: Mode, o: Order, es: seq<FillEvent>, i: nat)
    requires Stored(o) && ValidEvents(es) && i < |es|
    ensures KeyPrefix(mode, o) <= KeyAt(mode, o, es, i)
  {
    hide V, Stored, KeyPrefix, KeyAfter;
    assert ValidEvent(es[i]);
    KeyHasPrefix(mode, o, es[..i], es[i]);
  }

  lemma {:induction false} KeysOfCount(mode: Mode, o: Order, es: seq<FillEvent>, n: nat)
    requires Stored(o) && AllSizable(es) && n <= |es|
    ensures |KeysOf(mode, o, es, n)| == n
  {
    hide Stored, AllSizable, ValidEvents, KeyAt;
    if n > 0 {
      KeysOfCount(mode, o, es, n - 1);
      KeysOfNext(mode, o, es, n - 1);
    }
  }

  lemma OrderKeyCount(mode: Mode, o: Order, es: seq<FillEvent>, entries: map<string, Entry>)
    requires Stored(o) && AllSizable(es) && OneEntryEach(mode, o, es, entries)
    ensures |OrderKeys(mode, o, entries)| == |es|
  {
    hide Stored, AllSizable, ValidEvents, KeysOf, OrderKeys, OneEntryEach;
    AllKeys(mode, o, es, entries);
    KeysOfCount(mode, o, es, |es|);
  }

  // ---------- retried histories ----------

  // Failed attempts of the order are retried, each before its next event, until they return nil.
  ghost predicate Retried(mode: Mode, b: Books, history: seq<Event>, id: Id) {
    && Tracked(mode, b, history, id)
    && RetriedInOrder(b.rows[id], history) && Unfinished(b.rows[id], history) == None
  }

  lemma PrefixRetried(o: Order, history: seq<Event>)
    requires history != [] && RetriedInOrder(o, history)
    ensures var init := history[..|history| - 1];
            && RetriedInOrder(o, init)
            && (Targets(o, history[|history| - 1]) && Unfinished(o, init).Some? ==>
                  history[|history| - 1].e == Unfinished(o, init).value)
  {
    hide ValidEvent, IsProviderOrder, Unfinished;
    var init := history[..|history| - 1];
    forall i | 0 <= i < |init| ensures init[..i] == history[..i] && init[i] == history[i] {
    }
  }

  // An attempt that did not write the row is followed by an update of the same event, or still pending.
  lemma {:induction false} RetryWrites(o: Order, history: seq<Event>, i: nat)
    requires RetriedInOrder(o, history) && i < |history| && Targets(o, history[i]) && !Writes(history[i].outcome)
    ensures var (es, m) := (Applied(o, history), |Applied(o, history[..i])|);
            if m < |es| then es[m] == history[i].e
            else es == Applied(o, history[..i]) && Pending(o, history) == Some(history[i].e)
    decreases |history|
  {
    hide IsProviderOrder, ValidEvent, RetriedInOrder;
    var init := history[..|history| - 1];
    PrefixRetried(o, history);
    EventsAreValid(o, init);
    AppliedGrows(o, history, i);
    if i < |init| {
      assert init[..i] == history[..i];
      RetryWrites(o, init, i);
    }
  }

  lemma RetriedHasNoStrays(mode: Mode, o: Order, history: seq<Event>)
    requires Stored(o) && ValidEvents(Applied(o, history))
    requires RetriedInOrder(o, history) && Pending(o, history) == None
    ensures NoStrayPost(mode, o, history)
  {
    hide Stored, ValidEvents, RetriedInOrder, KeyAt, EntryAt, PostKey, PostEntry, Applied, FirstPost, Pending;
    forall i: nat | Posting(o, history, i) && !Writes(history[i].outcome)
      ensures Matched(mode, o, history, i)
    {
      RetryWrites(o, history, i);
      PostOfUpdate(mode, o, history, i);
    }
  }

  // Retried histories settle exactly the executed row updates, and each event exactly once if and
  // only if no update executed while its caller got an error.
  lemma RetriedSettlesOnce(mode: Mode, b: Books, history: seq<Event>, id: Id)
    requires Retried(mode, b, history, id)
    ensures AllSizable(Applied(b.rows[id], history)) && ValidEvents(Completed(b.rows[id], history))
    ensures OneEntryEach(mode, b.rows[id], Applied(b.rows[id], history), Run(mode, b, history).entries)
    ensures OneEntryEach(mode, b.rows[id], Completed(b.rows[id], history), Run(mode, b, history).entries)
            <==> UpdatesAnswered(b.rows[id], history)
  {
    hide TableOk, Run, OneEntryEach, Sizable, Applied, Completed, UpdatesAnswered, NoStrayPost, OnlySizable,
         Unfinished, RetriedInOrder, AllSizable, ValidEvents, Stored;
    EventsAreValid(b.rows[id], history);
    RetriedHasNoStrays(mode, b.rows[id], history);
    OneEntryPerUpdateIff(mode, b, history, id);
    ExactlyOnce(mode, b, history, id);
  }

  // Every fill of es has its entry, and the order's only other key may be that of its pending fill.
  ghost predicate LedgerMatches(mode: Mode, o: Order, es: seq<FillEvent>, pending: Option<FillEvent>,
                                entries: map<string, Entry>)
    requires Stored(o) && ValidEvents(es) && (pending.Some? ==> ValidEvent(pending.value))
  {
    && (forall i :: 0 <= i < |es| ==>
          KeyAt(mode, o, es, i) in entries && entries[KeyAt(mode, o, es, i)] == EntryAt(mode, o, es, i))
    && (forall key :: key in entries && KeyPrefix(mode, o) <= key ==>
          || (exists i :: 0 <= i < |es| && KeyAt(mode, o, es, i) == key)
          || (pending.Some? && key == KeyAfter(mode, o, es, pending.value)
              && entries[key] == EntryAfter(mode, o, es, pending.value)))
  }

  // At every point of a history in which failed attempts are retried before the next event
  lemma LedgerFollowsUpdates(mode: Mode, b: Books, history: seq<Event>, id: Id)
    requires Tracked(mode, b, history, id) && RetriedInOrder(b.rows[id], history)
    ensures ValidEvents(Applied(b.rows[id], history))
    ensures Pending(b.rows[id], history).Some? ==> ValidEvent(Pending(b.rows[id], history).value)
    ensures LedgerMatches(mode, b.rows[id], Applied(b.rows[id], history), Pending(b.rows[id], history),
                          Run(mode, b, history).entries)
  {
    hide TableOk, Stored, ValidEvents, ValidEvent, Sizable, AllSizable, Posting, PostKey, PostEntry, KeyAt, EntryAt,
         KeyAfter, EntryAfter, Run, KeyPrefix, FirstPost, Applied, Pending, OnlySizable, RetriedInOrder;
    var (o, es, entries) := (b.rows[id], Applied(b.rows[id], history), Run(mode, b, history).entries);
    var pending := Pending(o, history);
    EventsAreValid(o, history);
    KeysAreDistinct(mode, o, es);
    if pending.Some? {
      KeyIsNew(mode, o, es, pending.value);
    }
    forall key | key in entries && KeyPrefix(mode, o) <= key
      ensures
        || (exists j :: 0 <= j < |es| && KeyAt(mode, o, es, j) == key && entries[key] == EntryAt(mode, o, es, j))
        || (pending.Some? && key == KeyAfter(mode, o, es, pending.value)
            && entries[key] == EntryAfter(mode, o, es, pending.value))
    {
      EntriesAreFirstPosts(mode, b, history, id, key);
      var i: nat :| FirstPost(mode, o, history, i, key);
      FirstPostHasKey(mode, o, history, i, key);
      PostSettled(mode, o, history, i);
    }
    forall j | 0 <= j < |es|
      ensures KeyAt(mode, o, es, j) in entries && entries[KeyAt(mode, o, es, j)] == EntryAt(mode, o, es, j)
    {
      WriterPosts(mode, b, history, id, j);
    }
  }

  lemma PostSettled(mode: Mode, o: Order, history: seq<Event>, i: nat)
    requires Stored(o) && Posting(o, history, i) && RetriedInOrder(o, history)
    requires ValidEvents(Applied(o, history))
    requires Pending(o, history).Some? ==> ValidEvent(Pending(o, history).value)
    ensures var (es, pending) := (Applied(o, history), Pending(o, history));
            || (exists j ::
                  && 0 <= j < |es|
                  && KeyAt(mode, o, es, j) == PostKey(mode, o, history, i)
                  && EntryAt(mode, o, es, j) == PostEntry(mode, o, history, i))
            || (pending.Some? && PostKey(mode, o, history, i) == KeyAfter(mode, o, es, pending.value)
                && PostEntry(mode, o, history, i) == EntryAfter(mode, o, es, pending.value))
  {
    hide Stored, ValidEvents, ValidEvent, IsProviderOrder, KeyAt, EntryAt, KeyAfter, EntryAfter, Applied, Pending,
         RetriedInOrder;
    AppliedGrows(o, history, i);
    PostOfUpdate(mode, o, history, i);
    if !Writes(history[i].outcome) {
      RetryWrites(o, history, i);
    }
  }

  // The failing case, for every order and every sizable execution: the update executes, its answer is
  // lost, and the retry settles the same event again, under another key, and counts it again.
  lemma LostAnswerSettlesTwice(mode: Mode, b: Books, e: FillEvent, id: Id)
    requires TableOk(b.rows) && ProviderOrderIs(b.rows, id, e.provider, e.poid) && !mode.Detached? && Sizable(e)
    requires forall key :: key in b.entries ==> !(KeyPrefix(mode, b.rows[id]) <= key)
    ensures Stored(b.rows[id]) && ValidEvents([e, e])
    ensures var history := [Attempt(e, UpdateUnacknowledged), Attempt(e, Settled)];
            var (o, after) := (b.rows[id], Run(mode, b, history));
            && Completed(o, history) == [e]
            && OneEntryEach(mode, o, [e, e], after.entries)
            && FigureText(EntryAt(mode, o, [e, e], 0)) == FigureText(EntryAt(mode, o, [e, e], 1))
            && id in after.rows && V(after.rows[id].filled) == V(o.filled) + 2.0 * RoundTo(V(e.qty), QUANTITY_SCALE)
  {
    hide V, RoundTo, Stored, Run, TableOk, KeyPrefix, OneEntryEach, IsProviderOrder, AfterFills, EntryAt, KeyAt,
         Applied, Completed, Unfinished;
    var (o, first, second) := (b.rows[id], Attempt(e, UpdateUnacknowledged), Attempt(e, Settled));
    var history := [first, second];
    StoredRow(b.rows, id);
    OrderIsTarget(b.rows, id, e);
    TwoEvents(o, first, second);
    TwoRetried(o, first, second);
    assert Applied(o, history) == [e, e];
    RetriedSettlesOnce(mode, b, history, id);
    SameFigure(mode, o, e);
    RowFollowsUpdates(mode, b, history, id);
    RoundedConservation(o, [e, e]);
    TotalOfTwo(e, e);
  }

  lemma OrderIsTarget(t: Table, id: Id, e: FillEvent)
    requires ProviderOrderIs(t, id, e.provider, e.poid)
    ensures t[id].poid.Some? && IsProviderOrder(t[id], e.provider, e.poid)
  {
  }

  lemma TwoEvents(o: Order, a: Event, a': Event)
    requires Targets(o, a) && Targets(o, a')
    ensures Applied(o, [a, a'])
         == (if Writes(a.outcome) then [a.e] else []) + (if Writes(a'.outcome) then [a'.e] else [])
    ensures Completed(o, [a, a'])
         == (if a.outcome.Settled? then [a.e] else []) + (if a'.outcome.Settled? then [a'.e] else [])
    ensures Unfinished(o, [a, a']) == if a'.outcome.Settled? then None else Some(a'.e)
    ensures Unfinished(o, [a]) == if a.outcome.Settled? then None else Some(a.e)
    ensures Unfinished(o, []) == None
  {
    hide IsProviderOrder;
    assert [a, a'] == [a] + [a'] && [a] == [] + [a];
    EventAppend(o, [], a);
    EventAppend(o, [a], a');
  }

  lemma EventAppend(o: Order, init: seq<Event>, a: Event)
    requires Targets(o, a)
    ensures Applied(o, init + [a]) == Applied(o, init) + (if Writes(a.outcome) then [a.e] else [])
    ensures Completed(o, init + [a]) == Completed(o, init) + (if a.outcome.Settled? then [a.e] else [])
    ensures Unfinished(o, init + [a]) == if a.outcome.Settled? then None else Some(a.e)
  {
    hide IsProviderOrder;
    assert (init + [a])[..|init|] == init;
  }

  lemma TwoRetried(o: Order, a: Event, a': Event)
    requires Targets(o, a) && Targets(o, a') && a'.e == a.e
    ensures RetriedInOrder(o, [a, a'])
  {
    hide IsProviderOrder;
    TwoEvents(o, a, a');
    assert [a, a'][..1] == [a] && [a, a'][..0] == [];
  }

  lemma SameFigure(mode: Mode, o: Order, e: FillEvent)
    requires Stored(o) && ValidEvent(e) && ValidEvents([e, e])
    ensures FigureText(EntryAt(mode, o, [e, e], 0)) == FigureText(EntryAt(mode, o, [e, e], 1))
  {
    hide V, OnGrid, AfterFills, StringFixed, ToString;
    TargetStays(o, [e, e][..0]);
    TargetStays(o, [e, e][..1]);
  }

  lemma TotalOfTwo(e: FillEvent, e': FillEvent)
    ensures TotalRounded([e, e']) == RoundTo(V(e.qty), QUANTITY_SCALE) + RoundTo(V(e'.qty), QUANTITY_SCALE)
  {
    hide V, RoundTo;
    TotalsAppend([], e);
    TotalsAppend([e], e');
    assert [] + [e] == [e] && [e] + [e'] == [e, e'];
  }

  // ---------- what the ledger adds up to ----------

  // The number an entry carries: fiat amount for Livro, shares for Ativos
  function Figure(entry: Entry): real {
    Denoted(FigureText(entry))
  }

  ghost function Total(entries: map<string, Entry>, keys: set<string>): real
    requires keys <= entries.Keys
    decreases |keys|
  {
    if keys == {} then 0.0
    else
      var key :| key in keys;
      Figure(entries[key]) + Total(entries, keys - {key})
  }

  lemma {:induction false} TotalTakes(entries: map<string, Entry>, keys: set<string>, key: string)
    requires keys <= entries.Keys && key in keys
    ensures Total(entries, keys) == Figure(entries[key]) + Total(entries, keys - {key})
    decreases |keys|
  {
    hide Figure;
    var first :| first in keys && Total(entries, keys) == Figure(entries[first]) + Total(entries, keys - {first});
    if first != key {
      TotalTakes(entries, keys - {first}, key);
      TotalTakes(entries, keys - {key}, first);
      assert keys - {first} - {key} == keys - {key} - {first};
    }
  }

  // Everything the ledger holds for an order
  ghost function LedgerTotal(mode: Mode, o: Order, entries: map<string, Entry>): real {
    Total(entries, OrderKeys(mode, o, entries))
  }

  // The figures of the first n of the fills es
  ghost function TotalFigures(mode: Mode, o: Order, es: seq<FillEvent>, n: nat): real
    requires Stored(o) && ValidEvents(es) && n <= |es|
  {
    if n == 0 then 0.0 else TotalFigures(mode, o, es, n - 1) + Figure(EntryAt(mode, o, es, n - 1))
  }

  lemma {:induction false} TotalOfKeys(mode: Mode, o: Order, es: seq<FillEvent>, entries: map<string, Entry>, n: nat)
    requires Stored(o) && AllSizable(es) && OneEntryEach(mode, o, es, entries) && n <= |es|
    ensures KeysOf(mode, o, es, n) <= entries.Keys
    ensures Total(entries, KeysOf(mode, o, es, n)) == TotalFigures(mode, o, es, n)
  {
    hide Stored, AllSizable, ValidEvents, KeyAt, EntryAt, Figure, KeyPrefix, KeysOf;
    if n == 0 {
      assert KeysOf(mode, o, es, 0) == {} by {
        NoKeys(mode, o, es);
      }
    } else {
      var key := KeyAt(mode, o, es, n - 1);
      TotalOfKeys(mode, o, es, entries, n - 1);
      KeysOfNext(mode, o, es, n - 1);
      TotalTakes(entries, KeysOf(mode, o, es, n), key);
      assert KeysOf(mode, o, es, n) - {key} == KeysOf(mode, o, es, n - 1);
    }
  }

  lemma NoKeys(mode: Mode, o: Order, es: seq<FillEvent>)
    requires Stored(o) && ValidEvents(es)
    ensures KeysOf(mode, o, es, 0) == {}
  {
  }

  lemma LedgerTotalIs(mode: Mode, o: Order, es: seq<FillEvent>, entries: map<string, Entry>)
    requires Stored(o) && AllSizable(es) && OneEntryEach(mode, o, es, entries)
    ensures LedgerTotal(mode, o, entries) == TotalFigures(mode, o, es, |es|)
  {
    hide Stored, AllSizable, ValidEvents, KeyAt, EntryAt, KeysOf, OrderKeys, OneEntryEach;
    AllKeys(mode, o, es, entries);
    TotalOfKeys(mode, o, es, entries, |es|);
  }

  lemma {:induction false} SharesAreQuantities(o: Order, es: seq<FillEvent>, n: nat)
    requires Stored(o) && ValidEvents(es) && n <= |es|
    ensures TotalFigures(ViaAtivos, o, es, n) == TotalQty(es[..n])
  {
    hide V, OnGrid, AfterFills, NextFill, ToString, Parse;
    if n > 0 {
      SharesAreQuantities(o, es, n - 1);
      assert es[..n - 1] + [es[n - 1]] == es[..n];
      TotalsAppend(es[..n - 1], es[n - 1]);
      StringParses(es[n - 1].qty);
    }
  }

  lemma OneMore(n: real, h: real, sum: real, exact: real, amount: real, turnover: real, m: real)
    requires -(n * h) <= sum - exact <= n * h && -h <= amount - turnover <= h && m == n + 1.0
    ensures -(m * h) <= sum + amount - (exact + turnover) <= m * h
  {
    assert m * h == n * h + h;
  }

  lemma SettledAmountNear(o: Order, es: seq<FillEvent>, e: FillEvent)
    requires Stored(o) && ValidEvents(es) && ValidEvent(e)
    ensures var off := Figure(EntryAfter(DirectLivro, o, es, e)) - Turnover(e);
            -HalfUnit(4) <= off <= HalfUnit(4)
  {
    hide V, OnGrid, HalfUnit, RoundTo, AfterFills, NextFill, Denoted, EntryOf, Turnover;
    StoredFacts(AfterFills(o, es));
    SettledAmount(AfterFills(o, es), e);
  }

  lemma {:induction false} AmountsNearTurnover(o: Order, es: seq<FillEvent>, n: nat)
    requires Stored(o) && ValidEvents(es) && n <= |es|
    ensures var drift := TotalFigures(DirectLivro, o, es, n) - TotalFiat(es[..n]);
            -(n as real * HalfUnit(4)) <= drift <= n as real * HalfUnit(4)
  {
    hide V, OnGrid, HalfUnit, EntryAfter, Figure, Stored, TotalFiat, TotalQty, TotalRounded, Turnover, RoundTo;
    if n == 0 {
      TotalFiatOfNone();
    } else {
      var e := es[n - 1];
      assert ValidEvent(e);
      AmountsNearTurnover(o, es, n - 1);
      SettledAmountNear(o, es[..n - 1], e);
      assert es[..n - 1] + [e] == es[..n];
      TotalsAppend(es[..n - 1], e);
      OneMore((n - 1) as real, HalfUnit(4), TotalFigures(DirectLivro, o, es, n - 1), TotalFiat(es[..n - 1]),
              Figure(EntryAt(DirectLivro, o, es, n - 1)), Turnover(e), n as real);
    }
  }

  lemma TotalFiatOfNone()
    ensures TotalFiat([]) == 0.0
  {
  }

  // In a retried history of fills with at most eight decimals the stored quantity is the one at the
  // start plus what the ledger holds for the order at Ativos: also when an update executed behind an
  // error, as both then count it again.
  lemma FilledEqualsSynced(b: Books, history: seq<Event>, id: Id)
    requires Retried(ViaAtivos, b, history, id) && OnlyExecutions(b.rows[id], history)
    ensures var (o, after) := (b.rows[id], Run(ViaAtivos, b, history));
            id in after.rows && V(after.rows[id].filled) == V(o.filled) + LedgerTotal(ViaAtivos, o, after.entries)
  {
    hide V, Stored, ValidEvents, Executions, AllSizable, OnGrid, Run, TableOk, AfterFills, TotalQty, TotalFigures,
         OnlyExecutions, OnlySizable, Applied, LedgerTotal, OneEntryEach, KeyPrefix, RetriedInOrder;
    var (o, es) := (b.rows[id], Applied(b.rows[id], history));
    EventsAreValid(o, history);
    RowFollowsUpdates(ViaAtivos, b, history, id);
    RetriedSettlesOnce(ViaAtivos, b, history, id);
    LedgerTotalIs(ViaAtivos, o, es, Run(ViaAtivos, b, history).entries);
    SharesAreQuantities(o, es, |es|);
    assert es[..|es|] == es;
    Conservation(o, es);
  }

  // In a retried history what the ledger holds for the order at Livro differs from the turnover of
  // the executed updates by at most one half-unit of 10^-4 each. These are the completed fills if no
  // update executed behind an error.
  lemma SettledNearTurnover(b: Books, history: seq<Event>, id: Id)
    requires Retried(DirectLivro, b, history, id)
    ensures var (o, es) := (b.rows[id], Applied(b.rows[id], history));
            var drift := LedgerTotal(DirectLivro, o, Run(DirectLivro, b, history).entries) - TotalFiat(es);
            && -(|es| as real * HalfUnit(4)) <= drift <= |es| as real * HalfUnit(4)
            && (UpdatesAnswered(o, history) ==> es == Completed(o, history))
  {
    hide V, Stored, ValidEvents, AllSizable, OnGrid, HalfUnit, Run, TableOk, AfterFills, TotalFiat, TotalFigures,
         OnlySizable, Applied, LedgerTotal, OneEntryEach, KeyPrefix, RetriedInOrder, UpdatesAnswered, Completed;
    var (o, es) := (b.rows[id], Applied(b.rows[id], history));
    RetriedSettlesOnce(DirectLivro, b, history, id);
    LedgerTotalIs(DirectLivro, o, es, Run(DirectLivro, b, history).entries);
    AmountsNearTurnover(o, es, |es|);
    assert es[..|es|] == es;
    MoreAppliedThanCompleted(o, history);
  }

  // Conservation over any history, retried or not, whatever the quantities: the stored quantity is
  // the one at the start plus that of every executed update, as the column takes it. It counts
  // exactly the attempts that returned nil if and only if no update executed behind an error. With
  // at most eight decimals these are the executed quantities themselves.
  lemma QuantityConserved(mode: Mode, b: Books, history: seq<Event>, id: Id)
    requires TableOk(b.rows) && id in b.rows && b.rows[id].poid.Some?
    ensures id in Run(mode, b, history).rows
    ensures var (o, stored) := (b.rows[id], V(Run(mode, b, history).rows[id].filled));
            && stored == V(o.filled) + TotalRounded(Applied(o, history))
            && (OnlySizable(o, history) ==>
                  (stored == V(o.filled) + TotalRounded(Completed(o, history)) <==> UpdatesAnswered(o, history)))
            && (OnlyExecutions(o, history) ==>
                  && stored == V(o.filled) + TotalQty(Applied(o, history))
                  && (stored == V(o.filled) + TotalQty(Completed(o, history)) <==> UpdatesAnswered(o, history)))
  {
    hide V, Stored, ValidEvents, Executions, AllSizable, OnGrid, Run, TableOk, AfterFills, TotalQty, TotalRounded,
         OnlyExecutions, OnlySizable, Completed, Applied, UpdatesAnswered;
    var o := b.rows[id];
    EventsAreValid(o, history);
    RowFollowsUpdates(mode, b, history, id);
    MoreAppliedThanCompleted(o, history);
    RoundedConservation(o, Applied(o, history));
    if OnlySizable(o, history) {
      MoreRoundedThanCompleted(o, history);
    }
    if OnlyExecutions(o, history) {
      Conservation(o, Applied(o, history));
    }
  }

  // In the ledger a retried history leaves, the entry of every fill from the one that reaches the
  // target on asks Livro to capture and release the rest, for a direct BUY order.
  lemma CapturesReleaseAfterCompletion(b: Books, history: seq<Event>, id: Id, k: nat, j: nat)
    requires Retried(DirectLivro, b, history, id) && b.rows[id].side.Buy?
    requires k <= j < |Applied(b.rows[id], history)| && ValidEvents(Applied(b.rows[id], history))
    requires var (o, es) := (b.rows[id], Applied(b.rows[id], history));
             V(AfterFills(o, es[..k]).filled) + V(es[k].qty) >= V(o.target)
    ensures var (o, es) := (b.rows[id], Applied(b.rows[id], history));
            var (key, entries) := (KeyAt(DirectLivro, o, es, j), Run(DirectLivro, b, history).entries);
            key in entries && entries[key].Capture? && entries[key].release
  {
    hide V, OnGrid, HalfUnit, TableOk, Stored, KeyAt, EntryAt, Run, KeyPrefix, Applied, RetriedInOrder, Unfinished;
    RetriedSettlesOnce(DirectLivro, b, history, id);
    CaptureReleases(b.rows[id], Applied(b.rows[id], history), k, j);
  }

  lemma CaptureReleases(o: Order, es: seq<FillEvent>, k: nat, j: nat)
    requires Stored(o) && ValidEvents(es) && k <= j < |es| && o.side.Buy?
    requires V(AfterFills(o, es[..k]).filled) + V(es[k].qty) >= V(o.target)
    ensures var entry := EntryAt(DirectLivro, o, es, j); entry.Capture? && entry.release
  {
    hide V, OnGrid, NextFill, AfterFill, StringFixed;
    assert ValidEvent(es[j]);
    TargetStays(o, es[..j]);
    StoredFacts(AfterFills(o, es[..j]));
    if k < j {
      CompletionStable(o, es, k, j);
    }
    CompletingFill(AfterFills(o, es[..j]), es[j]);
  }
}
