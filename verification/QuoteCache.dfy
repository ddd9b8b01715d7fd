/** The two-tier Redis quote cache: every quote is written under a fresh key and a stale key with
    different time-to-live, and read by either. Refined to a map of last writes in each tier, with
    pipelines of which only some commands execute. */
module QuoteCache {

  import opened Decimals
  import opened Options
  import opened Strings

  datatype CachedQuote = CachedQuote(symbol: string, price: Dec, timestamp: int)

  // A Redis value with its expiry time; None is a value that does not decode.
  datatype Slot = Slot(value: Option<CachedQuote>, expires: int)

  type Store = map<string, Slot>

  // ---------- keys ----------

  function PairKey(provider: string, symbol: string): string {
    ToUpper(provider) + ":" + ToUpper(symbol)
  }

  const FRESH := "pregao:quotes:"
  const STALE := "pregao:quotes:stale:"

  function FreshKey(provider: string, symbol: string): string {
    FRESH + PairKey(provider, symbol)
  }

  function StaleKey(provider: string, symbol: string): string {
    STALE + PairKey(provider, symbol)
  }

  datatype Tier = Fresh | Stale

  function TierKey(tier: Tier, pair: string): string {
    (if tier.Fresh? then FRESH else STALE) + pair
  }

  predicate NoLower(s: string) {
    forall i :: 0 <= i < |s| ==> !('a' <= s[i] <= 'z')
  }

  lemma PairKeyHasNoLower(provider: string, symbol: string)
    ensures NoLower(PairKey(provider, symbol))
  {
  }

  // Both kinds of key are injective in the pair, and a fresh key is never a stale key.
  lemma KeysSeparate(a: string, b: string)
    requires NoLower(a) && NoLower(b)
    ensures FRESH + a == FRESH + b <==> a == b
    ensures STALE + a == STALE + b <==> a == b
    ensures FRESH + a != STALE + b
  {
    var n := |FRESH|;
    assert (FRESH + a)[n..] == a && (FRESH + b)[n..] == b;
    assert (STALE + a)[|STALE|..] == a && (STALE + b)[|STALE|..] == b;
    assert (STALE + b)[n] == 's';
    assert |a| > 0 ==> (FRESH + a)[n] == a[0];
  }

  lemma FreshNeverStale(p: string, s: string, p': string, s': string)
    ensures FreshKey(p, s) != StaleKey(p', s')
    ensures p == p' ==> (FreshKey(p, s) == FreshKey(p', s') <==> ToUpper(s) == ToUpper(s'))
    ensures p == p' ==> (StaleKey(p, s) == StaleKey(p', s') <==> ToUpper(s) == ToUpper(s'))
  {
    PairKeyHasNoLower(p, s);
    PairKeyHasNoLower(p', s');
    KeysSeparate(PairKey(p, s), PairKey(p', s'));
    if p == p' {
      var n := |ToUpper(p)| + 1;
      assert PairKey(p, s)[n..] == ToUpper(s) && PairKey(p', s')[n..] == ToUpper(s');
    }
  }

  // Keys of providers whose names have no colon are equal only for the same provider and symbol, up
  // to case.
  lemma KeysOfProviders(p: string, s: string, p': string, s': string)
    requires ':' !in p && ':' !in p'
    ensures FreshKey(p, s) == FreshKey(p', s') <==> SameLetters(p, p') && SameLetters(s, s')
    ensures StaleKey(p, s) == StaleKey(p', s') <==> SameLetters(p, p') && SameLetters(s, s')
  {
    PairKeyHasNoLower(p, s);
    PairKeyHasNoLower(p', s');
    KeysSeparate(PairKey(p, s), PairKey(p', s'));
    FoldIff(p, p');
    FoldIff(s, s');
    NoColon(p);
    NoColon(p');
    if PairKey(p, s) == PairKey(p', s') {
      var (a, b) := (ToUpper(p), ToUpper(p'));
      FirstColon(a, ToUpper(s));
      FirstColon(b, ToUpper(s'));
      assert a == PairKey(p, s)[..|a|] && b == PairKey(p', s')[..|b|];
      assert ToUpper(s) == PairKey(p, s)[|a| + 1..] && ToUpper(s') == PairKey(p', s')[|b| + 1..];
    }
  }

  lemma FirstColon(a: string, x: string)
    requires ':' !in a
    ensures var t := a + ":" + x; t[|a|] == ':' && forall i :: 0 <= i < |a| ==> t[i] != ':'
  {
  }

  lemma NoColon(p: string)
    requires ':' !in p
    ensures ':' !in ToUpper(p)
  {
    assert forall i :: 0 <= i < |p| ==> ToUpper(p)[i] == UpperChar(p[i]);
  }

  // ---------- reads and writes ----------

  function Read(store: Store, now: int, key: string): Option<CachedQuote> {
    if key in store && now < store[key].expires then store[key].value else None
  }

  // One SET command of a pipeline
  datatype Command = Command(tier: Tier, pair: string, quote: CachedQuote)

  function Ttl(tier: Tier, freshTTL: int, staleTTL: int): int {
    if tier.Fresh? then freshTTL else staleTTL
  }

  function Execute(store: Store, c: Command, now: int, freshTTL: int, staleTTL: int): Store {
    store[TierKey(c.tier, c.pair) := Slot(Some(c.quote), now + Ttl(c.tier, freshTTL, staleTTL))]
  }

  function ExecuteAll(store: Store, cs: seq<Command>, now: int, freshTTL: int, staleTTL: int): Store {
    if cs == [] then store
    else Execute(ExecuteAll(store, cs[..|cs| - 1], now, freshTTL, staleTTL), cs[|cs| - 1], now, freshTTL, staleTTL)
  }

  // The two commands of one quote, fresh before stale
  function QuoteCommands(provider: string, symbol: string, price: Dec, timestamp: int): seq<Command> {
    var (pair, quote) := (PairKey(provider, symbol), CachedQuote(symbol, price, timestamp));
    [Command(Fresh, pair, quote), Command(Stale, pair, quote)]
  }

  // The pipeline for the quotes, symbols in the given order
  function Commands(provider: string, quotes: map<string, Dec>, order: seq<string>, timestamp: int): seq<Command>
    requires forall s :: s in order ==> s in quotes
  {
    if order == [] then []
    else
      var (init, s) := (order[..|order| - 1], order[|order| - 1]);
      Commands(provider, quotes, init, timestamp) + QuoteCommands(provider, s, quotes[s], timestamp)
  }

  // The commands whose position is in the set
  function Kept(cs: seq<Command>, which: set<nat>): seq<Command> {
    if cs == [] then []
    else Kept(cs[..|cs| - 1], which) + (if |cs| - 1 in which then [cs[|cs| - 1]] else [])
  }

  lemma CommandsAppend(provider: string, quotes: map<string, Dec>, order: seq<string>, s: string, timestamp: int)
    requires s in quotes && forall x :: x in order ==> x in quotes
    ensures Commands(provider, quotes, order + [s], timestamp)
         == Commands(provider, quotes, order, timestamp) + QuoteCommands(provider, s, quotes[s], timestamp)
  {
    assert (order + [s])[..|order|] == order;
  }

  lemma KeptAppend(cs: seq<Command>, c: Command, which: set<nat>)
    ensures Kept(cs + [c], which) == Kept(cs, which) + (if |cs| in which then [c] else [])
  {
    assert (cs + [c])[..|cs|] == cs;
  }

  lemma ExecuteAppend(store: Store, cs: seq<Command>, c: Command, now: int, freshTTL: int, staleTTL: int)
    ensures ExecuteAll(store, cs + [c], now, freshTTL, staleTTL)
         == Execute(ExecuteAll(store, cs, now, freshTTL, staleTTL), c, now, freshTTL, staleTTL)
  {
    assert (cs + [c])[..|cs|] == cs;
  }

  lemma NothingExecutes(store: Store, cs: seq<Command>, which: set<nat>, now: int, freshTTL: int, staleTTL: int)
    ensures ExecuteAll(store, Kept(cs[..0], which), now, freshTTL, staleTTL) == store
  {
  }

  // The symbols without a live fresh entry, in the order asked for
  function Missing(store: Store, now: int, provider: string, symbols: seq<string>): seq<string> {
    if symbols == [] then []
    else
      var (init, s) := (symbols[..|symbols| - 1], symbols[|symbols| - 1]);
      Missing(store, now, provider, init) +
      (if Read(store, now, FreshKey(provider, s)).None? then [s] else [])
  }

  lemma {:induction false} MissingMembers(store: Store, now: int, provider: string, symbols: seq<string>)
    ensures forall s :: s in Missing(store, now, provider, symbols) <==>
              s in symbols && Read(store, now, FreshKey(provider, s)).None?
    decreases |symbols|
  {
    if symbols != [] {
      MissingMembers(store, now, provider, symbols[..|symbols| - 1]);
      assert symbols == symbols[..|symbols| - 1] + [symbols[|symbols| - 1]];
    }
  }

  // order lists each key of the map exactly once.
  ghost predicate Enumerates(order: seq<string>, keys: set<string>) {
    && (forall s :: s in order <==> s in keys)
    && forall i, j :: 0 <= i < j < |order| ==> order[i] != order[j]
  }

  class QuotesCache {
    var store: Store
    var now: int
    const freshTTL: int
    const staleTTL: int

    // Non-positive TTLs fall back to 5 seconds and 24 hours, in milliseconds here.
    constructor (freshTTL: int, staleTTL: int)
      ensures store == map[]
      ensures this.freshTTL == if freshTTL <= 0 then 5000 else freshTTL
      ensures this.staleTTL == if staleTTL <= 0 then 86400000 else staleTTL
    {
      this.freshTTL := if freshTTL <= 0 then 5000 else freshTTL;
      this.staleTTL := if staleTTL <= 0 then 86400000 else staleTTL;
      store, now := map[], 0;
    }

    // Pipeline.Exec: the commands at these positions execute, the others do not.
    method Exec(pipe: seq<Command>, which: set<nat>)
      modifies this`store
      ensures store == ExecuteAll(old(store), Kept(pipe, which), now, freshTTL, staleTTL)
    {
      hide Execute, ExecuteAll, Kept;
      NothingExecutes(store, pipe, which, now, freshTTL, staleTTL);
      for i := 0 to |pipe|
        invariant store == ExecuteAll(old(store), Kept(pipe[..i], which), now, freshTTL, staleTTL)
      {
        assert pipe[..i + 1] == pipe[..i] + [pipe[i]];
        KeptAppend(pipe[..i], pipe[i], which);
        if i in which {
          ExecuteAppend(old(store), Kept(pipe[..i], which), pipe[i], now, freshTTL, staleTTL);
          store := Execute(store, pipe[i], now, freshTTL, staleTTL);
        } else {
          assert Kept(pipe[..i], which) + [] == Kept(pipe[..i], which);
        }
      }
      assert pipe[..|pipe|] == pipe;
    }

    // The symbols are visited in map order, which Go leaves unspecified. A pipeline that fails may
    // have executed any of its commands; one that succeeds has executed all.
    method SetQuotes(provider: string, quotes: map<string, Dec>, timestamp: int, which: set<nat>, answered: bool)
      returns (ok: bool, ghost order: seq<string>)
      modifies this`store
      ensures Enumerates(order, quotes.Keys)
      ensures var pipe := Commands(provider, quotes, order, timestamp);
              && store == ExecuteAll(old(store), Kept(pipe, which), now, freshTTL, staleTTL)
              && (ok <==> quotes == map[] || (answered && forall i :: 0 <= i < |pipe| ==> i in which))
    {
      hide PairKey, ExecuteAll, Kept;
      order := [];
      var pipe: seq<Command> := [];
      var todo := quotes.Keys;
      while todo != {}
        invariant store == old(store) && todo <= quotes.Keys
        invariant forall s :: s in order <==> s in quotes && s !in todo
        invariant forall i, j :: 0 <= i < j < |order| ==> order[i] != order[j]
        invariant pipe == Commands(provider, quotes, order, timestamp)
        decreases |todo|
      {
        var symbol :| symbol in todo;
        CommandsAppend(provider, quotes, order, symbol, timestamp);
        var quote := CachedQuote(symbol, quotes[symbol], timestamp);
        var pair := PairKey(provider, symbol);
        pipe := pipe + [Command(Fresh, pair, quote), Command(Stale, pair, quote)];
        order := order + [symbol];
        todo := todo - {symbol};
      }
      Exec(pipe, which);
      ok := quotes == map[] || (answered && forall i :: 0 <= i < |pipe| ==> i in which);
    }

    // Time passes and other clients write.
    method Elapse(dt: nat, store': Store)
      modifies this`store, this`now
      ensures now == old(now) + dt && store == store'
    {
      now, store := now + dt, store';
    }

    // MGET on the fresh keys. On a Redis error every symbol is a miss.
    method GetQuotes(provider: string, symbols: seq<string>, up: bool)
      returns (hits: map<string, CachedQuote>, misses: seq<string>, ok: bool)
      ensures ok <==> symbols == [] || up
      ensures !ok ==> hits == map[] && misses == symbols
      ensures ok ==> forall s :: s in hits <==> s in symbols && Read(store, now, FreshKey(provider, s)).Some?
      ensures ok ==> forall s :: s in hits ==> hits[s] == Read(store, now, FreshKey(provider, s)).value
      ensures ok ==> misses == Missing(store, now, provider, symbols)
    {
      hits, misses := map[], [];
      if symbols == [] {
        return hits, misses, true;
      }
      if !up {
        return hits, symbols, false;
      }
      for i := 0 to |symbols|
        invariant forall s :: s in hits <==> s in symbols[..i] && Read(store, now, FreshKey(provider, s)).Some?
        invariant forall s :: s in hits ==> hits[s] == Read(store, now, FreshKey(provider, s)).value
        invariant misses == Missing(store, now, provider, symbols[..i])
      {
        assert symbols[..i + 1] == symbols[..i] + [symbols[i]];
        assert symbols[..i + 1][..i] == symbols[..i];
        match Read(store, now, FreshKey(provider, symbols[i])) {
          case None => misses := misses + [symbols[i]];
          case Some(q) => hits := hits[symbols[i] := q];
        }
      }
      ok := true;
      assert symbols[..|symbols|] == symbols;
    }

    method GetStaleQuotes(provider: string, symbols: seq<string>, up: bool)
      returns (result: map<string, CachedQuote>, ok: bool)
      ensures ok <==> symbols == [] || up
      ensures ok ==> forall s :: s in result <==> s in symbols && Read(store, now, StaleKey(provider, s)).Some?
      ensures ok ==> forall s :: s in result ==> result[s] == Read(store, now, StaleKey(provider, s)).value
    {
      result := map[];
      if symbols == [] {
        return result, true;
      }
      if !up {
        return map[], false;
      }
      for i := 0 to |symbols|
        invariant forall s :: s in result <==> s in symbols[..i] && Read(store, now, StaleKey(provider, s)).Some?
        invariant forall s :: s in result ==> result[s] == Read(store, now, StaleKey(provider, s)).value
      {
        assert symbols[..i + 1] == symbols[..i] + [symbols[i]];
        match Read(store, now, StaleKey(provider, symbols[i])) {
          case None =>
          case Some(q) => result := result[symbols[i] := q];
        }
      }
      ok := true;
      assert symbols[..|symbols|] == symbols;
    }
  }

  // ---------- the specification: last write per tier and (provider, symbol) ----------

  datatype Write = Write(quote: CachedQuote, at: int)

  type Log = map<(Tier, string), Write>

  function LastWithin(log: Log, tier: Tier, pair: string, now: int, ttl: int): Option<CachedQuote> {
    if (tier, pair) in log && now < log[(tier, pair)].at + ttl then Some(log[(tier, pair)].quote) else None
  }

  function LogAll(log: Log, cs: seq<Command>, now: int): Log {
    if cs == [] then log
    else
      var c := cs[|cs| - 1];
      LogAll(log, cs[..|cs| - 1], now)[(c.tier, c.pair) := Write(c.quote, now)]
  }

  predicate HoldsFor(store: Store, log: Log, tier: Tier, pair: string, ttl: int) {
    var key := TierKey(tier, pair);
    if (tier, pair) in log
    then key in store && store[key] == Slot(Some(log[(tier, pair)].quote), log[(tier, pair)].at + ttl)
    else key !in store
  }

  ghost predicate Refines(store: Store, log: Log, freshTTL: int, staleTTL: int) {
    forall tier, pair :: NoLower(pair) ==> HoldsFor(store, log, tier, pair, Ttl(tier, freshTTL, staleTTL))
  }

  lemma CommandRefines(store: Store, log: Log, c: Command, now: int, freshTTL: int, staleTTL: int)
    requires Refines(store, log, freshTTL, staleTTL) && NoLower(c.pair)
    ensures var log' := log[(c.tier, c.pair) := Write(c.quote, now)];
            Refines(Execute(store, c, now, freshTTL, staleTTL), log', freshTTL, staleTTL)
  {
    hide NoLower;
    var store' := Execute(store, c, now, freshTTL, staleTTL);
    var log' := log[(c.tier, c.pair) := Write(c.quote, now)];
    forall tier, pair | NoLower(pair) ensures HoldsFor(store', log', tier, pair, Ttl(tier, freshTTL, staleTTL)) {
      KeysSeparate(pair, c.pair);
      KeysSeparate(c.pair, pair);
      assert HoldsFor(store, log, tier, pair, Ttl(tier, freshTTL, staleTTL));
    }
  }

  lemma {:induction false} PipelineRefines(store: Store, log: Log, cs: seq<Command>, now: int, freshTTL: int,
          staleTTL: int)
    requires Refines(store, log, freshTTL, staleTTL) && forall i :: 0 <= i < |cs| ==> NoLower(cs[i].pair)
    ensures Refines(ExecuteAll(store, cs, now, freshTTL, staleTTL), LogAll(log, cs, now), freshTTL, staleTTL)
    decreases |cs|
  {
    hide Refines, NoLower;
    if cs != [] {
      var init := cs[..|cs| - 1];
      PipelineRefines(store, log, init, now, freshTTL, staleTTL);
      var store' := ExecuteAll(store, init, now, freshTTL, staleTTL);
      CommandRefines(store', LogAll(log, init, now), cs[|cs| - 1], now, freshTTL, staleTTL);
    }
  }

  lemma {:induction false} CommandsHaveNoLower(provider: string, quotes: map<string, Dec>, order: seq<string>,
          timestamp: int)
    requires forall s :: s in order ==> s in quotes
    ensures forall c :: c in Commands(provider, quotes, order, timestamp) ==> NoLower(c.pair)
    decreases |order|
  {
    hide NoLower, PairKey;
    if order != [] {
      CommandsHaveNoLower(provider, quotes, order[..|order| - 1], timestamp);
      PairKeyHasNoLower(provider, order[|order| - 1]);
    }
  }

  lemma {:induction false} KeptAreCommands(cs: seq<Command>, which: set<nat>)
    ensures forall c :: c in Kept(cs, which) ==> c in cs
    decreases |cs|
  {
    if cs != [] {
      KeptAreCommands(cs[..|cs| - 1], which);
    }
  }

  // ---------- whole runs ----------

  // A pipeline with the commands of it that execute, or time passing
  datatype Op =
    | Set(provider: string, quotes: map<string, Dec>, order: seq<string>, timestamp: int, which: set<nat>)
    | Advance(dt: nat)

  ghost predicate OpOk(op: Op) {
    op.Set? ==> Enumerates(op.order, op.quotes.Keys)
  }

  ghost predicate OpsOk(ops: seq<Op>) {
    forall i :: 0 <= i < |ops| ==> OpOk(ops[i])
  }

  ghost function Executed(op: Op): seq<Command>
    requires OpOk(op)
  {
    match op
    case Advance(_) => []
    case Set(provider, quotes, order, timestamp, which) => Kept(Commands(provider, quotes, order, timestamp), which)
  }

  ghost function Clock(ops: seq<Op>): int {
    if ops == [] then 0
    else Clock(ops[..|ops| - 1]) + (if ops[|ops| - 1].Advance? then ops[|ops| - 1].dt else 0)
  }

  ghost function Stored(ops: seq<Op>, freshTTL: int, staleTTL: int): Store
    requires OpsOk(ops)
    decreases |ops|
  {
    if ops == [] then map[]
    else
      var (init, op) := (ops[..|ops| - 1], ops[|ops| - 1]);
      assert OpOk(op);
      ExecuteAll(Stored(init, freshTTL, staleTTL), Executed(op), Clock(init), freshTTL, staleTTL)
  }

  ghost function Logged(ops: seq<Op>): Log
    requires OpsOk(ops)
    decreases |ops|
  {
    if ops == [] then map[]
    else
      var (init, op) := (ops[..|ops| - 1], ops[|ops| - 1]);
      assert OpOk(op);
      LogAll(Logged(init), Executed(op), Clock(init))
  }

  lemma ExecutedHaveNoLower(op: Op)
    requires OpOk(op)
    ensures forall i :: 0 <= i < |Executed(op)| ==> NoLower(Executed(op)[i].pair)
  {
    hide NoLower, Commands, Kept;
    if op.Set? {
      CommandsHaveNoLower(op.provider, op.quotes, op.order, op.timestamp);
      KeptAreCommands(Commands(op.provider, op.quotes, op.order, op.timestamp), op.which);
    }
  }

  lemma {:induction false} RunRefines(ops: seq<Op>, freshTTL: int, staleTTL: int)
    requires OpsOk(ops)
    ensures Refines(Stored(ops, freshTTL, staleTTL), Logged(ops), freshTTL, staleTTL)
    decreases |ops|
  {
    hide Refines, ExecuteAll, LogAll, NoLower, Executed;
    if ops == [] {
      EmptyRefines(freshTTL, staleTTL);
    } else {
      var (init, op) := (ops[..|ops| - 1], ops[|ops| - 1]);
      assert OpOk(op);
      RunRefines(init, freshTTL, staleTTL);
      ExecutedHaveNoLower(op);
      PipelineRefines(Stored(init, freshTTL, staleTTL), Logged(init), Executed(op), Clock(init), freshTTL, staleTTL);
    }
  }

  lemma EmptyRefines(freshTTL: int, staleTTL: int)
    ensures Refines(map[], map[], freshTTL, staleTTL)
  {
  }

  // After any run each tier of a pair reads exactly its last write, as long as the tier's TTL has
  // not passed.
  lemma ReadsAreLastWrites(ops: seq<Op>, provider: string, symbol: string, freshTTL: int, staleTTL: int)
    requires OpsOk(ops)
    ensures var (store, log, now) := (Stored(ops, freshTTL, staleTTL), Logged(ops), Clock(ops));
            var pair := PairKey(provider, symbol);
            && Read(store, now, FreshKey(provider, symbol)) == LastWithin(log, Fresh, pair, now, freshTTL)
            && Read(store, now, StaleKey(provider, symbol)) == LastWithin(log, Stale, pair, now, staleTTL)
  {
    var (store, log, pair) := (Stored(ops, freshTTL, staleTTL), Logged(ops), PairKey(provider, symbol));
    RunRefines(ops, freshTTL, staleTTL);
    PairKeyHasNoLower(provider, symbol);
    assert HoldsFor(store, log, Fresh, pair, Ttl(Fresh, freshTTL, staleTTL));
    assert HoldsFor(store, log, Stale, pair, Ttl(Stale, freshTTL, staleTTL));
  }

  // ---------- what a pipeline leaves in the two tiers ----------

  // The position of a tier's command of the k-th quote
  function Position(k: nat, tier: Tier): nat {
    if tier.Fresh? then 2 * k else 2 * k + 1
  }

  // The last quote of the pair whose command for the tier executes; -1 if none does
  function LastOf(provider: string, order: seq<string>, which: set<nat>, tier: Tier, pair: string): (k: int)
    ensures -1 <= k < |order|
    ensures k >= 0 ==> PairKey(provider, order[k]) == pair
  {
    if order == [] then -1
    else
      var n := |order| - 1;
      if Position(n, tier) in which && PairKey(provider, order[n]) == pair then n
      else LastOf(provider, order[..n], which, tier, pair)
  }

  lemma {:induction false} CommandCount(provider: string, quotes: map<string, Dec>, order: seq<string>, timestamp: int)
    requires forall s :: s in order ==> s in quotes
    ensures |Commands(provider, quotes, order, timestamp)| == 2 * |order|
    decreases |order|
  {
    hide PairKey;
    if order != [] {
      CommandCount(provider, quotes, order[..|order| - 1], timestamp);
    }
  }

  lemma LogAppend(log: Log, cs: seq<Command>, c: Command, now: int)
    ensures LogAll(log, cs + [c], now) == LogAll(log, cs, now)[(c.tier, c.pair) := Write(c.quote, now)]
  {
    assert (cs + [c])[..|cs|] == cs;
  }

  // One more quote at the end of a pipeline
  lemma LogNextQuote(log: Log, cs: seq<Command>, last: seq<Command>, which: set<nat>, now: int)
    requires |last| == 2
    ensures var log1 := LogAll(log, Kept(cs, which), now);
            var log2 := if |cs| in which then log1[(last[0].tier, last[0].pair) := Write(last[0].quote, now)] else log1;
            LogAll(log, Kept(cs + last, which), now) ==
              if |cs| + 1 in which then log2[(last[1].tier, last[1].pair) := Write(last[1].quote, now)] else log2
  {
    hide Kept, LogAll;
    var one := Kept(cs + [last[0]], which);
    assert cs + last == cs + [last[0]] + [last[1]];
    KeptAppend(cs, last[0], which);
    KeptAppend(cs + [last[0]], last[1], which);
    LogAppend(log, Kept(cs, which), last[0], now);
    LogAppend(log, one, last[1], now);
    assert |cs| !in which ==> one == Kept(cs, which);
    assert |cs| + 1 !in which ==> Kept(cs + last, which) == one;
  }

  // Each tier of each pair ends with its last executed command, if there is one.
  lemma {:induction false} PipelineLeaves(log: Log, provider: string, quotes: map<string, Dec>, order: seq<string>,
                                          timestamp: int, which: set<nat>, now: int, tier: Tier, pair: string)
    requires forall s :: s in order ==> s in quotes
    ensures var log' := LogAll(log, Kept(Commands(provider, quotes, order, timestamp), which), now);
            var k := LastOf(provider, order, which, tier, pair);
            var key := (tier, pair);
            if k >= 0
            then key in log' && log'[key] == Write(CachedQuote(order[k], quotes[order[k]], timestamp), now)
            else (key in log' <==> key in log) && (key in log ==> log'[key] == log[key])
    decreases |order|
  {
    hide PairKey, Kept, LogAll;
    if order == [] {
      LogNothing(log, now);
      NothingKept(which);
    } else {
      var (init, s) := (order[..|order| - 1], order[|order| - 1]);
      PipelineLeaves(log, provider, quotes, init, timestamp, which, now, tier, pair);
      CommandCount(provider, quotes, init, timestamp);
      LogNextQuote(log, Commands(provider, quotes, init, timestamp), QuoteCommands(provider, s, quotes[s], timestamp),
                   which, now);
    }
  }

  lemma NothingKept(which: set<nat>)
    ensures Kept([], which) == []
  {
  }

  lemma LogNothing(log: Log, now: int)
    ensures LogAll(log, [], now) == log
  {
  }

  // The same in the store, whatever was there before
  lemma {:induction false} PipelineStores(store: Store, provider: string, quotes: map<string, Dec>, order: seq<string>,
                                          timestamp: int, which: set<nat>, now: int, freshTTL: int, staleTTL: int,
                                          tier: Tier, pair: string)
    requires NoLower(pair) && forall s :: s in order ==> s in quotes
    ensures var pipe := Kept(Commands(provider, quotes, order, timestamp), which);
            var store' := ExecuteAll(store, pipe, now, freshTTL, staleTTL);
            var (key, k) := (TierKey(tier, pair), LastOf(provider, order, which, tier, pair));
            k >= 0 ==>
              && key in store'
              && store'[key].value == Some(CachedQuote(order[k], quotes[order[k]], timestamp))
              && store'[key].expires == now + (if tier.Fresh? then freshTTL else staleTTL)
    decreases |order|
  {
    hide PairKey, Kept, ExecuteAll, NoLower, TierKey;
    if order != [] {
      var (init, s) := (order[..|order| - 1], order[|order| - 1]);
      PipelineStores(store, provider, quotes, init, timestamp, which, now, freshTTL, staleTTL, tier, pair);
      CommandCount(provider, quotes, init, timestamp);
      StoreNextQuote(store, Commands(provider, quotes, init, timestamp),
                     QuoteCommands(provider, s, quotes[s], timestamp), which, now, freshTTL, staleTTL);
      PairKeyHasNoLower(provider, s);
      TierKeysSeparate(Fresh, PairKey(provider, s), tier, pair);
      TierKeysSeparate(Stale, PairKey(provider, s), tier, pair);
    }
  }

  lemma TierKeysSeparate(tier: Tier, pair: string, tier': Tier, pair': string)
    requires NoLower(pair) && NoLower(pair')
    ensures TierKey(tier, pair) == TierKey(tier', pair') <==> tier == tier' && pair == pair'
  {
    KeysSeparate(pair, pair');
    KeysSeparate(pair', pair);
  }

  lemma StoreNextQuote(store: Store, cs: seq<Command>, last: seq<Command>, which: set<nat>, now: int,
                       freshTTL: int, staleTTL: int)
    requires |last| == 2
    ensures var store1 := ExecuteAll(store, Kept(cs, which), now, freshTTL, staleTTL);
            var store2 := if |cs| in which then Execute(store1, last[0], now, freshTTL, staleTTL) else store1;
            ExecuteAll(store, Kept(cs + last, which), now, freshTTL, staleTTL)
            == if |cs| + 1 in which then Execute(store2, last[1], now, freshTTL, staleTTL) else store2
  {
    hide Kept, ExecuteAll, Execute;
    var one := Kept(cs + [last[0]], which);
    assert cs + last == cs + [last[0]] + [last[1]];
    KeptAppend(cs, last[0], which);
    KeptAppend(cs + [last[0]], last[1], which);
    ExecuteAppend(store, Kept(cs, which), last[0], now, freshTTL, staleTTL);
    ExecuteAppend(store, one, last[1], now, freshTTL, staleTTL);
    assert |cs| !in which ==> one == Kept(cs, which);
    assert |cs| + 1 !in which ==> Kept(cs + last, which) == one;
  }

  // ---------- the stale twin of a fresh entry ----------

  // For every pair, the last executed command of either tier is of the same quote.
  ghost predicate MatchedOp(op: Op) {
    op.Set? ==>
      forall pair ::
        LastOf(op.provider, op.order, op.which, Fresh, pair) == LastOf(op.provider, op.order, op.which, Stale, pair)
  }

  ghost predicate Matched(ops: seq<Op>) {
    forall i :: 0 <= i < |ops| ==> MatchedOp(ops[i])
  }

  // Of each quote both commands execute, or neither.
  ghost predicate PairedOp(op: Op) {
    op.Set? ==> forall k: nat :: k < |op.order| ==> (Position(k, Fresh) in op.which <==> Position(k, Stale) in op.which)
  }

  ghost predicate DistinctPairs(op: Op) {
    op.Set? ==> forall i, j :: 0 <= i < j < |op.order| ==> ToUpper(op.order[i]) != ToUpper(op.order[j])
  }

  lemma SamePairSameUpper(provider: string, s: string, s': string)
    ensures PairKey(provider, s) == PairKey(provider, s') <==> ToUpper(s) == ToUpper(s')
  {
    var n := |ToUpper(provider)| + 1;
    assert PairKey(provider, s)[n..] == ToUpper(s) && PairKey(provider, s')[n..] == ToUpper(s');
  }

  // Where no other quote has its pair, a quote is the last of its pair exactly when its command executes.
  lemma {:induction false} LastOfUnique(provider: string, order: seq<string>, which: set<nat>, tier: Tier, k: nat)
    requires k < |order|
    requires forall i :: 0 <= i < |order| && i != k ==> PairKey(provider, order[i]) != PairKey(provider, order[k])
    ensures LastOf(provider, order, which, tier, PairKey(provider, order[k]))
         == if Position(k, tier) in which then k else -1
    decreases |order|
  {
    hide PairKey;
    var n := |order| - 1;
    if k < n {
      LastOfUnique(provider, order[..n], which, tier, k);
    } else {
      LastOfNone(provider, order[..n], which, tier, PairKey(provider, order[k]));
    }
  }

  lemma {:induction false} LastOfNone(provider: string, order: seq<string>, which: set<nat>, tier: Tier, pair: string)
    requires forall i :: 0 <= i < |order| ==> PairKey(provider, order[i]) != pair
    ensures LastOf(provider, order, which, tier, pair) == -1
    decreases |order|
  {
    hide PairKey;
    if order != [] {
      LastOfNone(provider, order[..|order| - 1], which, tier, pair);
    }
  }

  lemma {:induction false} LastOfPaired(provider: string, order: seq<string>, which: set<nat>, pair: string)
    requires forall k: nat :: k < |order| ==> (Position(k, Fresh) in which <==> Position(k, Stale) in which)
    ensures LastOf(provider, order, which, Fresh, pair) == LastOf(provider, order, which, Stale, pair)
    decreases |order|
  {
    hide PairKey, Position;
    if order != [] {
      LastOfPaired(provider, order[..|order| - 1], which, pair);
    }
  }

  // A pipeline is matched if it splits no quote. If its symbols differ in upper case, as the
  // service's do, only then.
  lemma MatchedIffPaired(op: Op)
    ensures PairedOp(op) ==> MatchedOp(op)
    ensures DistinctPairs(op) ==> (MatchedOp(op) <==> PairedOp(op))
  {
    hide PairKey, LastOf, Position;
    if op.Set? && PairedOp(op) {
      forall pair
        ensures LastOf(op.provider, op.order, op.which, Fresh, pair)
             == LastOf(op.provider, op.order, op.which, Stale, pair)
      {
        LastOfPaired(op.provider, op.order, op.which, pair);
      }
    }
    if op.Set? && MatchedOp(op) && DistinctPairs(op) {
      forall k: nat | k < |op.order| ensures Position(k, Fresh) in op.which <==> Position(k, Stale) in op.which {
        forall i | 0 <= i < |op.order| && i != k
            ensures PairKey(op.provider, op.order[i]) != PairKey(op.provider, op.order[k]) {
          SamePairSameUpper(op.provider, op.order[i], op.order[k]);
        }
        LastOfUnique(op.provider, op.order, op.which, Fresh, k);
        LastOfUnique(op.provider, op.order, op.which, Stale, k);
      }
    }
  }

  // Both tiers know the same last write of every pair.
  ghost predicate TiersAgree(log: Log) {
    forall pair ::
      && ((Fresh, pair) in log <==> (Stale, pair) in log)
      && ((Fresh, pair) in log ==> log[(Fresh, pair)] == log[(Stale, pair)])
  }

  lemma MatchedOpAgrees(log: Log, op: Op, now: int)
    requires TiersAgree(log) && OpOk(op) && MatchedOp(op)
    ensures TiersAgree(LogAll(log, Executed(op), now))
  {
    hide PairKey, Kept, LogAll, Commands, LastOf;
    if op.Set? {
      forall pair
        ensures var log' := LogAll(log, Executed(op), now);
                && ((Fresh, pair) in log' <==> (Stale, pair) in log')
                && ((Fresh, pair) in log' ==> log'[(Fresh, pair)] == log'[(Stale, pair)])
      {
        PipelineLeaves(log, op.provider, op.quotes, op.order, op.timestamp, op.which, now, Fresh, pair);
        PipelineLeaves(log, op.provider, op.quotes, op.order, op.timestamp, op.which, now, Stale, pair);
      }
    } else {
      LogNothing(log, now);
    }
  }

  lemma {:induction false} MatchedTiersAgree(ops: seq<Op>)
    requires OpsOk(ops) && Matched(ops)
    ensures TiersAgree(Logged(ops))
    decreases |ops|
  {
    hide Executed, LogAll, TiersAgree, MatchedOp, OpOk;
    if ops == [] {
      NothingAgrees();
    } else {
      var (init, op) := (ops[..|ops| - 1], ops[|ops| - 1]);
      MatchedTiersAgree(init);
      MatchedOpAgrees(Logged(init), op, Clock(init));
    }
  }

  lemma NothingAgrees()
    ensures TiersAgree(map[])
  {
  }

  // A live fresh entry has a live stale twin with the same price and timestamp.
  ghost predicate HasTwin(ops: seq<Op>, provider: string, symbol: string, freshTTL: int, staleTTL: int)
    requires OpsOk(ops)
  {
    var (store, now) := (Stored(ops, freshTTL, staleTTL), Clock(ops));
    Read(store, now, FreshKey(provider, symbol)).Some? ==>
      Read(store, now, StaleKey(provider, symbol)) == Read(store, now, FreshKey(provider, symbol))
  }

  ghost predicate AlwaysTwinned(freshTTL: int, staleTTL: int) {
    forall ops: seq<Op>, provider, symbol ::
      OpsOk(ops) && Matched(ops) ==> HasTwin(ops, provider, symbol, freshTTL, staleTTL)
  }

  lemma AgreeingTwins(ops: seq<Op>, provider: string, symbol: string, freshTTL: int, staleTTL: int)
    requires OpsOk(ops) && TiersAgree(Logged(ops)) && freshTTL <= staleTTL
    ensures HasTwin(ops, provider, symbol, freshTTL, staleTTL)
  {
    hide Stored, Logged, Clock, PairKey;
    ReadsAreLastWrites(ops, provider, symbol, freshTTL, staleTTL);
  }

  // When pipelines leave matching tiers, every live fresh entry has its twin in every run if and only
  // if the fresh TTL does not exceed the stale one, which nothing in the cache's constructor checks.
  lemma TwinnedIffOrdered(freshTTL: int, staleTTL: int)
    requires freshTTL > 0 && staleTTL > 0
    ensures AlwaysTwinned(freshTTL, staleTTL) <==> freshTTL <= staleTTL
  {
    hide HasTwin, Matched, TiersAgree, OpsOk;
    if freshTTL <= staleTTL {
      forall ops: seq<Op>, provider, symbol | OpsOk(ops) && Matched(ops)
        ensures HasTwin(ops, provider, symbol, freshTTL, staleTTL)
      {
        MatchedTiersAgree(ops);
        AgreeingTwins(ops, provider, symbol, freshTTL, staleTTL);
      }
    } else {
      LostTwin(freshTTL, staleTTL);
    }
  }

  // A complete pipeline with one quote
  function OneQuote(provider: string, symbol: string, price: Dec, timestamp: int): Op {
    Set(provider, map[symbol := price], [symbol], timestamp, {0, 1})
  }

  lemma OneQuoteIsMatched(provider: string, symbol: string, price: Dec, timestamp: int)
    ensures var op := OneQuote(provider, symbol, price, timestamp);
            OpOk(op) && MatchedOp(op) && OpsOk([op]) && Matched([op])
  {
    var op := OneQuote(provider, symbol, price, timestamp);
    assert Enumerates([symbol], map[symbol := price].Keys);
    assert PairedOp(op);
    MatchedIffPaired(op);
  }

  lemma OpsAppend(ops: seq<Op>, op: Op)
    requires OpsOk(ops) && OpOk(op)
    ensures OpsOk(ops + [op]) && (Matched(ops) && MatchedOp(op) ==> Matched(ops + [op]))
    ensures Logged(ops + [op]) == LogAll(Logged(ops), Executed(op), Clock(ops))
    ensures Clock(ops + [op]) == Clock(ops) + (if op.Advance? then op.dt else 0)
  {
    hide LogAll, Executed, MatchedOp, OpOk;
    assert (ops + [op])[..|ops|] == ops;
  }

  lemma LostTwin(freshTTL: int, staleTTL: int)
    requires freshTTL > staleTTL > 0
    ensures !AlwaysTwinned(freshTTL, staleTTL)
  {
    hide Stored, Logged, LogAll, Kept, PairKey, Clock, Executed, OpsOk, Matched, MatchedOp;
    var (op, wait) := (OneQuote("P", "S", ZERO, 0), Advance(staleTTL));
    var pair := PairKey("P", "S");
    OneQuoteIsMatched("P", "S", ZERO, 0);
    NoOps();
    OpsAppend([], op);
    OpsAppend([op], wait);
    assert [] + [op] == [op] && [op] + [wait] == [op, wait];
    WaitIsMatched(wait);
    OneQuoteLogged(map[], "P", "S", ZERO, 0, 0);
    LogNothing(Logged([op]), Clock([op]));
    WaitExecutesNothing(wait);
    ReadsAreLastWrites([op, wait], "P", "S", freshTTL, staleTTL);
    assert !HasTwin([op, wait], "P", "S", freshTTL, staleTTL);
  }

  lemma NoOps()
    ensures OpsOk([]) && Matched([]) && Logged([]) == map[] && Clock([]) == 0
  {
  }

  lemma WaitIsMatched(wait: Op)
    requires wait.Advance?
    ensures MatchedOp(wait)
  {
  }

  lemma WaitExecutesNothing(wait: Op)
    requires wait.Advance?
    ensures OpOk(wait) && Executed(wait) == []
  {
  }

  lemma OneQuoteLogged(log: Log, provider: string, symbol: string, price: Dec, timestamp: int, now: int)
    ensures var (op, pair) := (OneQuote(provider, symbol, price, timestamp), PairKey(provider, symbol));
            && OpOk(op)
            && var log' := LogAll(log, Executed(op), now);
               forall tier :: (tier, pair) in log'
                   && log'[(tier, pair)] == Write(CachedQuote(symbol, price, timestamp), now)
  {
    hide PairKey, LogAll, Kept, Commands;
    var (op, pair) := (OneQuote(provider, symbol, price, timestamp), PairKey(provider, symbol));
    OneQuoteIsMatched(provider, symbol, price, timestamp);
    forall tier
      ensures var log' := LogAll(log, Executed(op), now);
              (tier, pair) in log' && log'[(tier, pair)] == Write(CachedQuote(symbol, price, timestamp), now)
    {
      LastOfUnique(provider, [symbol], op.which, tier, 0);
      PipelineLeaves(log, provider, op.quotes, op.order, timestamp, op.which, now, tier, pair);
    }
  }

  // After any matched run, the pipeline leaves every live fresh entry with its twin.
  ghost predicate KeepsTwins(op: Op, freshTTL: int, staleTTL: int)
    requires OpOk(op)
  {
    forall ops: seq<Op>, provider, symbol ::
      OpsOk(ops) && Matched(ops) && OpsOk(ops + [op]) ==> HasTwin(ops + [op], provider, symbol, freshTTL, staleTTL)
  }

  // Which pipelines keep the twins, whatever part of them executes: exactly the matched ones.
  lemma KeepsTwinsIffMatched(op: Op, freshTTL: int, staleTTL: int)
    requires OpOk(op) && 0 < freshTTL <= staleTTL
    ensures KeepsTwins(op, freshTTL, staleTTL) <==> MatchedOp(op)
  {
    hide HasTwin, Matched, MatchedOp, TiersAgree, OpsOk, OpOk, LastOf, PairKey;
    if MatchedOp(op) {
      forall ops: seq<Op>, provider, symbol | OpsOk(ops) && Matched(ops) && OpsOk(ops + [op])
        ensures HasTwin(ops + [op], provider, symbol, freshTTL, staleTTL)
      {
        OpsAppend(ops, op);
        MatchedTiersAgree(ops + [op]);
        AgreeingTwins(ops + [op], provider, symbol, freshTTL, staleTTL);
      }
    } else {
      UnmatchedLosesTwin(op, freshTTL, staleTTL);
    }
  }

  lemma UnmatchedLosesTwin(op: Op, freshTTL: int, staleTTL: int)
    requires OpOk(op) && !MatchedOp(op) && freshTTL > 0
    ensures !KeepsTwins(op, freshTTL, staleTTL)
  {
    hide LastOf, PairKey, HasTwin, OpsOk, Matched;
    var pair :|
      LastOf(op.provider, op.order, op.which, Fresh, pair) != LastOf(op.provider, op.order, op.which, Stale, pair);
    var a := LastOf(op.provider, op.order, op.which, Fresh, pair);
    var b := LastOf(op.provider, op.order, op.which, Stale, pair);
    NoOps();
    if a >= 0 {
      // The fresh entry is this pipeline's; the stale one is another quote's, or there is none.
      OpsAppend([], op);
      TwinLost([], op, pair, a, freshTTL, staleTTL);
    } else {
      // The fresh entry is an earlier one, the stale one is this pipeline's.
      var s := op.order[b];
      var earlier := OneQuote(op.provider, s, op.quotes[s], op.timestamp + 1);
      OneQuoteIsMatched(op.provider, s, op.quotes[s], op.timestamp + 1);
      OpsAppend([earlier], op);
      EarlierTwinLost(earlier, op, pair, b, freshTTL, staleTTL);
    }
  }

  lemma TwinLost(ops: seq<Op>, op: Op, pair: string, a: int, freshTTL: int, staleTTL: int)
    requires ops == [] && op.Set? && OpOk(op) && freshTTL > 0 && OpsOk(ops + [op])
    requires a == LastOf(op.provider, op.order, op.which, Fresh, pair) >= 0
    requires a != LastOf(op.provider, op.order, op.which, Stale, pair)
    ensures !HasTwin(ops + [op], op.provider, op.order[a], freshTTL, staleTTL)
  {
    hide LastOf, PairKey, Stored, LogAll, Kept, Commands, Logged, Clock, OpsOk;
    NoOps();
    OpsAppend([], op);
    var s := op.order[a];
    ReadsAreLastWrites(ops + [op], op.provider, s, freshTTL, staleTTL);
    PipelineLeaves(map[], op.provider, op.quotes, op.order, op.timestamp, op.which, 0, Fresh, pair);
    PipelineLeaves(map[], op.provider, op.quotes, op.order, op.timestamp, op.which, 0, Stale, pair);
  }

  lemma EarlierTwinLost(earlier: Op, op: Op, pair: string, b: int, freshTTL: int, staleTTL: int)
    requires op.Set? && OpOk(op) && freshTTL > 0 && OpsOk([earlier] + [op])
    requires LastOf(op.provider, op.order, op.which, Fresh, pair) == -1
    requires b == LastOf(op.provider, op.order, op.which, Stale, pair) >= 0
    requires var s := op.order[b]; earlier == OneQuote(op.provider, s, op.quotes[s], op.timestamp + 1)
    ensures !HasTwin([earlier] + [op], op.provider, op.order[b], freshTTL, staleTTL)
  {
    hide LastOf, PairKey, Stored, LogAll, Kept, Commands, Logged, Clock, OpsOk, Executed;
    var s := op.order[b];
    NoOps();
    OneQuoteIsMatched(op.provider, s, op.quotes[s], op.timestamp + 1);
    OpsAppend([], earlier);
    assert [] + [earlier] == [earlier];
    OpsAppend([earlier], op);
    OneQuoteLogged(map[], op.provider, s, op.quotes[s], op.timestamp + 1, 0);
    ReadsAreLastWrites([earlier] + [op], op.provider, s, freshTTL, staleTTL);
    ExecutedIs(op);
    PipelineLeaves(Logged([earlier]), op.provider, op.quotes, op.order, op.timestamp, op.which, 0, Fresh, pair);
    PipelineLeaves(Logged([earlier]), op.provider, op.quotes, op.order, op.timestamp, op.which, 0, Stale, pair);
  }

  lemma ExecutedIs(op: Op)
    requires op.Set? && OpOk(op)
    ensures Executed(op) == Kept(Commands(op.provider, op.quotes, op.order, op.timestamp), op.which)
  {
  }

  // ---------- later reads ----------

  // As a run goes on, writes are replaced by later ones only.
  lemma {:induction false} LogGrows(ops: seq<Op>, more: seq<Op>, tier: Tier, pair: string)
    requires ops <= more && OpsOk(more)
    ensures OpsOk(ops) && Clock(ops) <= Clock(more)
    ensures (tier, pair) in Logged(ops) ==>
      (tier, pair) in Logged(more) && Logged(ops)[(tier, pair)].at <= Logged(more)[(tier, pair)].at
    ensures (tier, pair) in Logged(more) ==> Logged(more)[(tier, pair)].at <= Clock(more)
    decreases |more|
  {
    hide LogAll, Executed;
    if more != [] {
      var (init, op) := (more[..|more| - 1], more[|more| - 1]);
      assert OpOk(op);
      LogGrows(if ops == more then [] else ops, init, tier, pair);
      PipelineLogs(Logged(init), Executed(op), Clock(init), tier, pair);
    }
  }

  lemma {:induction false} PipelineLogs(log: Log, cs: seq<Command>, now: int, tier: Tier, pair: string)
    ensures var (log', key) := (LogAll(log, cs, now), (tier, pair));
            && (key in log ==> key in log')
            && (key in log' ==> log'[key].at == now || (key in log && log'[key] == log[key]))
    decreases |cs|
  {
    if cs != [] {
      PipelineLogs(log, cs[..|cs| - 1], now, tier, pair);
    }
  }
}
