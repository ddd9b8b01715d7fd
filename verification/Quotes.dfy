/** GetQuotes: cleaned symbols, fresh cache, broker, stale cache; and the per-symbol specification
    it refines. */
module Quotes {

  import opened Decimals
  import opened Options
  import opened Strings
  import opened QuoteCache

  datatype Quote = Quote(symbol: string, price: Dec, timestamp: int, stale: bool)

  datatype BookTicker = BookTicker(symbol: string, bid: Dec, ask: Dec, mid: Dec)

  // One element of the exchange's bookTicker answer; each decimal is what NewFromString made of it.
  datatype RawTicker = RawTicker(symbol: string, bid: Option<Dec>, bidQty: Option<Dec>, ask: Option<Dec>,
          askQty: Option<Dec>)

  // ---------- mid price ----------

  function MidPrice(bid: Dec, ask: Dec): Dec
  {
    SignOf(Dec(2, 0));
    Div(Add(bid, ask), Dec(2, 0))
  }

  lemma TwoIsTwo()
    ensures V(Dec(2, 0)) == 2.0
  {
    ShiftZero(2.0);
  }

  // Between bid and ask, when both have at most sixteen decimals.
  lemma MidPriceBetween(bid: Dec, ask: Dec)
    requires V(bid) <= V(ask)
    requires OnGrid(V(bid), DIVISION_PRECISION) && OnGrid(V(ask), DIVISION_PRECISION)
    ensures V(bid) <= V(MidPrice(bid, ask)) <= V(ask)
  {
    hide V, RoundTo, OnGrid, Add;
    TwoIsTwo();
    var x := (V(bid) + V(ask)) / 2.0;
    RoundFixed(V(bid), DIVISION_PRECISION);
    RoundFixed(V(ask), DIVISION_PRECISION);
    RoundMono(V(bid), x, DIVISION_PRECISION);
    RoundMono(x, V(ask), DIVISION_PRECISION);
  }

  // Exact, when both have at most fifteen.
  lemma MidPriceExact(bid: Dec, ask: Dec)
    requires OnGrid(V(bid), 15) && OnGrid(V(ask), 15)
    ensures 2.0 * V(MidPrice(bid, ask)) == V(bid) + V(ask)
  {
    hide V, RoundTo, OnGrid, Add;
    TwoIsTwo();
    GridAdd(V(bid), V(ask), 15);
    HalfOnFinerGrid(V(bid) + V(ask), 15);
    RoundFixed((V(bid) + V(ask)) / 2.0, DIVISION_PRECISION);
  }

  lemma HalfOnFinerGrid(x: real, p: int)
    requires OnGrid(x, p)
    ensures OnGrid(x / 2.0, p + 1)
  {
    hide Shift;
    var k :| x == Units(k, p);
    assert -p == -(p + 1) + 1;
    ShiftUp(k as real, -(p + 1));
    ShiftLinear(k as real, k as real, -(p + 1));
    FiveTimes(k as real, -(p + 1));
    assert x / 2.0 == Units(5 * k, p + 1);
  }

  lemma FiveTimes(x: real, e: int)
    ensures Shift(5.0 * x, e) == 5.0 * Shift(x, e)
  {
    hide Ten;
  }

  // ---------- cleaning ----------

  function CleanOne(raw: string): string {
    ToUpper(TrimSpace(raw))
  }

  function Clean(raw: seq<string>): seq<string> {
    if raw == [] then []
    else
      var (done, s) := (Clean(raw[..|raw| - 1]), CleanOne(raw[|raw| - 1]));
      if s == "" || s in done then done else done + [s]
  }

  // Duplicate-free, and exactly the non-empty cleaned symbols.
  lemma {:induction false} CleanIsDistinct(raw: seq<string>)
    ensures forall i, j :: 0 <= i < j < |Clean(raw)| ==> Clean(raw)[i] != Clean(raw)[j]
    ensures forall s :: s in Clean(raw) <==> s != "" && exists i :: 0 <= i < |raw| && CleanOne(raw[i]) == s
    decreases |raw|
  {
    hide CleanOne;
    if raw != [] {
      var init := raw[..|raw| - 1];
      CleanIsDistinct(init);
      var s := CleanOne(raw[|raw| - 1]);
      forall x ensures x in Clean(raw) <==> x != "" && exists i :: 0 <= i < |raw| && CleanOne(raw[i]) == x {
        if x != "" && exists i :: 0 <= i < |raw| && CleanOne(raw[i]) == x {
          var i :| 0 <= i < |raw| && CleanOne(raw[i]) == x;
          assert i < |init| ==> CleanOne(init[i]) == x;
        }
        if x in Clean(init) {
          var i :| 0 <= i < |init| && CleanOne(init[i]) == x;
          assert CleanOne(raw[i]) == x;
        }
        assert CleanOne(raw[|raw| - 1]) == s;
      }
    }
  }

  // The cleaned symbols are exactly the non-empty ones among the given symbols without their
  // surrounding blanks and in upper case.
  lemma CleanSymbolIff(raw: seq<string>, s: string)
    ensures s in Clean(raw) <==> s != "" && exists i :: 0 <= i < |raw| && Normalizes(raw[i], s)
  {
    hide Normalizes, Clean, ToUpper, TrimSpace;
    CleanIsDistinct(raw);
    forall i | 0 <= i < |raw| ensures CleanOne(raw[i]) == s <==> Normalizes(raw[i], s) {
      UpperTrimIff(raw[i], s);
    }
  }

  // The service writes cleaned symbols only, so its pipelines leave matching tiers exactly when they
  // split no quote.
  lemma ServicePipelineMatchedIffPaired(provider: string, raw: seq<string>, quotes: map<string, Dec>,
                                        order: seq<string>, timestamp: int, which: set<nat>)
    requires Enumerates(order, quotes.Keys) && forall s :: s in quotes ==> s in Clean(raw)
    ensures var op := Set(provider, quotes, order, timestamp, which);
            OpOk(op) && (MatchedOp(op) <==> PairedOp(op))
  {
    hide Clean, CleanOne, MatchedOp, PairedOp, ToUpper;
    forall i, j | 0 <= i < j < |order| ensures ToUpper(order[i]) != ToUpper(order[j]) {
      CleanIsUpper(raw, order[i]);
      CleanIsUpper(raw, order[j]);
    }
    MatchedIffPaired(Set(provider, quotes, order, timestamp, which));
  }

  lemma CleanIsUpper(raw: seq<string>, s: string)
    requires s in Clean(raw)
    ensures ToUpper(s) == s
  {
    hide Clean;
    CleanIsDistinct(raw);
    var i :| 0 <= i < |raw| && CleanOne(raw[i]) == s;
    ToUpperTwice(TrimSpace(raw[i]));
  }

  // ---------- the per-symbol specification ----------

  datatype Moment = Moment(store: Store, now: int)

  // What a call sees of the outside world: the cache at the fresh read and whether that works, the
  // broker's tickers for the missing symbols (None: an error), the cache when the broker has
  // answered and whether the stale read works, and the time of the answer.
  datatype World = World(before: Moment, cacheOk: bool, tickers: Option<map<string, BookTicker>>,
                         after: Moment, staleOk: bool, unix: int)

  function Cached(q: CachedQuote, stale: bool): Quote {
    Quote(q.symbol, q.price, q.timestamp, stale)
  }

  function Live(m: Moment, provider: string, symbol: string): Option<CachedQuote> {
    Read(m.store, m.now, FreshKey(provider, symbol))
  }

  function LiveStale(m: Moment, provider: string, symbol: string): Option<CachedQuote> {
    Read(m.store, m.now, StaleKey(provider, symbol))
  }

  function SpecQuote(provider: string, symbol: string, w: World): Option<Quote> {
    var live := Live(w.before, provider, symbol);
    if w.cacheOk && live.Some? then Some(Cached(live.value, false))
    else
      match w.tickers
      case Some(tickers) =>
        if symbol in tickers then Some(Quote(tickers[symbol].symbol, tickers[symbol].mid, w.unix, false)) else None
      case None =>
        var stale := LiveStale(w.after, provider, symbol);
        if w.staleOk && stale.Some? then Some(Cached(stale.value, true)) else None
  }

  // ---------- the broker's answer ----------

  // parseBookTicker
  function ParseTicker(raw: RawTicker): Option<BookTicker> {
    if raw.bid.Some? && raw.bidQty.Some? && raw.ask.Some? && raw.askQty.Some?
    then Some(BookTicker(raw.symbol, raw.bid.value, raw.ask.value, MidPrice(raw.bid.value, raw.ask.value)))
    else None
  }

  function ParseTickers(raws: seq<RawTicker>): map<string, BookTicker> {
    if raws == [] then map[]
    else
      var (init, t) := (ParseTickers(raws[..|raws| - 1]), ParseTicker(raws[|raws| - 1]));
      if t.Some? then init[t.value.symbol := t.value] else init
  }

  // All four decimals of the element can be read.
  predicate Parses(raw: RawTicker) {
    raw.bid.Some? && raw.bidQty.Some? && raw.ask.Some? && raw.askQty.Some?
  }

  // The i-th element is the last one for its symbol that parses.
  ghost predicate IsLastFor(raws: seq<RawTicker>, i: nat, symbol: string)
  {
    && i < |raws| && Parses(raws[i]) && raws[i].symbol == symbol
    && forall j :: i < j < |raws| && raws[j].symbol == symbol ==> !Parses(raws[j])
  }

  // The ticker is the element's, with half the sum of bid and ask, rounded at the sixteenth digit.
  ghost predicate TickerReads(t: BookTicker, raw: RawTicker) {
    && t.symbol == raw.symbol && raw.bid == Some(t.bid) && raw.ask == Some(t.ask)
    && V(t.mid) == RoundTo((V(t.bid) + V(t.ask)) / 2.0, DIVISION_PRECISION)
  }

  lemma TickerOf(raw: RawTicker)
    ensures ParseTicker(raw).Some? <==> Parses(raw)
    ensures Parses(raw) ==> TickerReads(ParseTicker(raw).value, raw)
  {
    hide V, RoundTo;
    TwoIsTwo();
  }

  // Exactly the symbols with a parseable element are answered, each by its last such element.
  lemma {:induction false} LastTickerWins(raws: seq<RawTicker>, symbol: string)
    ensures symbol in ParseTickers(raws) <==> exists i: nat :: IsLastFor(raws, i, symbol)
    ensures forall i: nat :: IsLastFor(raws, i, symbol) ==> TickerReads(ParseTickers(raws)[symbol], raws[i])
    decreases |raws|
  {
    hide ParseTicker, TickerReads;
    if raws != [] {
      var n := |raws| - 1;
      LastTickerWins(raws[..n], symbol);
      TickerOf(raws[n]);
      TickerSymbol(raws[n]);
      if Parses(raws[n]) && raws[n].symbol == symbol {
        assert IsLastFor(raws, n, symbol);
      } else {
        forall i: nat | i < n ensures IsLastFor(raws, i, symbol) <==> IsLastFor(raws[..n], i, symbol) {
        }
        assert !IsLastFor(raws, n, symbol);
      }
    }
  }

  lemma TickerSymbol(raw: RawTicker)
    ensures ParseTicker(raw).Some? ==> ParseTicker(raw).value.symbol == raw.symbol
  {
    hide MidPrice;
  }

  // What GetBookTickers makes of the exchange's answer (None: the request failed). A request for
  // one symbol is answered with a single ticker and fails if that does not parse; in the answer to
  // a longer request unparseable elements are skipped.
  function Tickers(symbols: seq<string>, reply: Option<seq<RawTicker>>): Option<map<string, BookTicker>> {
    if symbols == [] then Some(map[])
    else
      match reply
      case None => None
      case Some(raws) =>
        if |symbols| > 1 then Some(ParseTickers(raws))
        else if |raws| == 1 && ParseTicker(raws[0]).Some? then Some(ParseTickers(raws))
        else None
  }

  // A request for some symbol fails exactly when the exchange does not answer, or when one symbol was
  // asked for and the answer is not one parseable ticker.
  ghost predicate RequestFails(symbols: seq<string>, reply: Option<seq<RawTicker>>) {
    && symbols != []
    && (reply == None || (|symbols| == 1 && !(|reply.value| == 1 && Parses(reply.value[0]))))
  }

  // Else a symbol is answered exactly if the answer has a parseable element for it, by the last such.
  ghost predicate AnswersFrom(tickers: map<string, BookTicker>, raws: seq<RawTicker>) {
    forall s ::
      && (s in tickers <==> exists i: nat :: IsLastFor(raws, i, s))
      && (forall i: nat :: IsLastFor(raws, i, s) ==> TickerReads(tickers[s], raws[i]))
  }

  lemma TickersMean(symbols: seq<string>, reply: Option<seq<RawTicker>>)
    ensures var t := Tickers(symbols, reply);
            && (t.None? <==> RequestFails(symbols, reply))
            && (symbols == [] ==> t == Some(map[]))
            && (symbols != [] && t.Some? ==> reply.Some? && AnswersFrom(t.value, reply.value))
  {
    hide ParseTicker, ParseTickers, TickerReads, Parses;
    if reply.Some? {
      forall s
        ensures s in ParseTickers(reply.value) <==> exists i: nat :: IsLastFor(reply.value, i, s)
        ensures forall i: nat :: IsLastFor(reply.value, i, s) ==>
          TickerReads(ParseTickers(reply.value)[s], reply.value[i])
      {
        LastTickerWins(reply.value, s);
      }
      if |reply.value| == 1 {
        TickerOf(reply.value[0]);
      }
    }
  }

  // The broker answers only symbols it was asked for.
  ghost predicate OnlyRequested(symbols: seq<string>, reply: Option<seq<RawTicker>>) {
    reply.Some? ==> forall i :: 0 <= i < |reply.value| ==> reply.value[i].symbol in symbols
  }

  ghost predicate TickersOk(tickers: map<string, BookTicker>, symbols: seq<string>) {
    forall s :: s in tickers ==> s in symbols && tickers[s].symbol == s
  }

  lemma TickersOfRequest(symbols: seq<string>, reply: Option<seq<RawTicker>>)
    requires OnlyRequested(symbols, reply)
    ensures var t := Tickers(symbols, reply); t.Some? ==> TickersOk(t.value, symbols)
  {
    hide Tickers, RoundTo, V;
    TickersMean(symbols, reply);
    var t := Tickers(symbols, reply);
    if t.Some? && symbols != [] {
      forall s | s in t.value ensures s in symbols && t.value[s].symbol == s {
        var i: nat :| IsLastFor(reply.value, i, s);
        assert TickerReads(t.value[s], reply.value[i]);
      }
    }
  }

  method GetBookTickers(symbols: seq<string>, reply: Option<seq<RawTicker>>)
    returns (tickers: Option<map<string, BookTicker>>)
    ensures tickers == Tickers(symbols, reply)
    ensures tickers.None? <==> RequestFails(symbols, reply)
    ensures symbols == [] ==> tickers == Some(map[])
    ensures symbols != [] && tickers.Some? ==> reply.Some? && AnswersFrom(tickers.value, reply.value)
  {
    hide MidPrice, AnswersFrom, RequestFails;
    TickersMean(symbols, reply);
    var result: map<string, BookTicker> := map[];
    if symbols == [] {
      return Some(result);
    }
    if reply == None {
      return None;
    }
    var raws := reply.value;
    if |symbols| == 1 {
      if |raws| != 1 {
        return None;
      }
      var ticker := ParseTicker(raws[0]);
      if ticker == None {
        return None;
      }
      assert raws[..0] == [] && ParseTickers(raws[..0]) == map[];
      return Some(result[ticker.value.symbol := ticker.value]);
    }
    for i := 0 to |raws|
      invariant result == ParseTickers(raws[..i])
    {
      assert raws[..i + 1][..i] == raws[..i];
      var ticker := ParseTicker(raws[i]);
      if ticker == None {
        continue;
      }
      result := result[ticker.value.symbol := ticker.value];
    }
    assert raws[..|raws|] == raws;
    return Some(result);
  }

  // The outcome of every foreign call GetQuotes may make. While the broker answers, time passes and
  // other clients may leave any store behind.
  datatype Env = Env(readUp: bool, reply: Option<seq<RawTicker>>, elapsed: nat, others: Store, staleUp: bool,
                     which: set<nat>, answered: bool, unix: int)

  function Requested(m: Moment, provider: string, symbols: seq<string>, env: Env): seq<string> {
    if env.readUp then Missing(m.store, m.now, provider, symbols) else symbols
  }

  function Seen(m: Moment, provider: string, symbols: seq<string>, env: Env): World {
    World(m, env.readUp, Tickers(Requested(m, provider, symbols, env), env.reply),
          Moment(env.others, m.now + env.elapsed), env.staleUp, env.unix)
  }

  class QuoteService {
    const cache: QuotesCache

    constructor (cache: QuotesCache)
      ensures this.cache == cache
    {
      this.cache := cache;
    }

    method CleanSymbols(raw: seq<string>) returns (symbols: seq<string>)
      ensures symbols == Clean(raw)
    {
      var seen: set<string> := {};
      symbols := [];
      for i := 0 to |raw|
        invariant symbols == Clean(raw[..i])
        invariant forall s :: s in seen <==> s in symbols
      {
        assert raw[..i + 1][..i] == raw[..i];
        var clean := ToUpper(TrimSpace(raw[i]));
        if clean == "" {
          continue;
        }
        if clean !in seen {
          seen := seen + {clean};
          symbols := symbols + [clean];
        }
      }
      assert raw[..|raw|] == raw;
    }

    ghost function Now(): Moment
      reads cache
    {
      Moment(cache.store, cache.now)
    }

    // If the broker answers only what it is asked for, every cleaned symbol is answered as
    // specified and nothing else is. The cache gains the commands that execute of a pipeline with
    // the broker's mid prices; without an answer of the broker this call writes nothing.
    method GetQuotes(provider: string, raw: seq<string>, env: Env) returns (quotes: map<string, Quote>)
      modifies cache`store, cache`now
      ensures var (symbols, before) := (Clean(raw), old(Now()));
              var w := Seen(before, provider, symbols, env);
              var requested := Requested(before, provider, symbols, env);
              && (OnlyRequested(requested, env.reply) ==>
                    quotes == SpecQuotes(provider, symbols, w) && AllAnswered(quotes, before, provider, symbols, env))
              && (requested == [] ==> Now() == before)
              && (requested != [] ==>
                    && cache.now == w.after.now
                    && if w.tickers.Some?
                       then WritesMids(w, cache.store, provider, env.which, cache.freshTTL, cache.staleTTL)
                       else cache.store == w.after.store)
    {
      hide SpecQuote, Live, LiveStale, Read, FreshKey, StaleKey, CleanOne, MidPrices, ExecuteAll, MidPrice, Tickers,
           TickersOk, AllAnswered, RequestFails, AnswersFrom;
      quotes := map[];
      if raw == [] {
        NothingAsked(Now(), provider, env);
        SpecQuotesAnswer(Now(), provider, [], env);
        return;
      }
      var symbols := CleanSymbols(raw);
      ghost var before := Now();
      ghost var w := Seen(before, provider, symbols, env);
      SpecQuotesAnswer(before, provider, symbols, env);
      var hits, misses, cacheOk := cache.GetQuotes(provider, symbols, env.readUp);
      quotes := FromCache(hits, false);
      FreshAnswerHolds(before, provider, symbols, hits, misses, env.readUp);
      if misses == [] {
        AllHits(provider, symbols, hits, misses, w);
        return;
      }
      var tickers := GetBookTickers(misses, env.reply);
      cache.Elapse(env.elapsed, env.others);
      if OnlyRequested(misses, env.reply) {
        TickersOfRequest(misses, env.reply);
      }
      if tickers.Some? {
        quotes := quotes + FromTickers(tickers.value, env.unix);
        if TickersOk(tickers.value, misses) {
          BrokerAnswers(provider, symbols, hits, misses, w);
        }
        var ok, order := cache.SetQuotes(provider, MidPrices(tickers.value), env.unix, env.which, env.answered);
      } else {
        var stale, staleOk := cache.GetStaleQuotes(provider, misses, env.staleUp);
        if staleOk {
          quotes := quotes + FromCache(stale, true);
        }
        StaleHolds(w.after, provider, misses, stale, staleOk);
        StaleAnswers(provider, symbols, hits, misses, stale, w);
      }
    }
  }

  // ---------- the merge of the three sources ----------

  // What the cache's GetQuotes returned
  ghost predicate FreshAnswer(m: Moment, provider: string, symbols: seq<string>,
                              hits: map<string, CachedQuote>, misses: seq<string>, ok: bool)
  {
    if ok then
      && (forall s :: s in hits <==> s in symbols && Live(m, provider, s).Some?)
      && (forall s :: s in hits ==> hits[s] == Live(m, provider, s).value)
      && misses == Missing(m.store, m.now, provider, symbols)
    else hits == map[] && misses == symbols
  }

  lemma FreshAnswerHolds(m: Moment, provider: string, symbols: seq<string>,
                         hits: map<string, CachedQuote>, misses: seq<string>, up: bool)
    requires !up && symbols != [] ==> hits == map[] && misses == symbols
    requires up || symbols == [] ==>
      && (forall s :: s in hits <==> s in symbols && Read(m.store, m.now, FreshKey(provider, s)).Some?)
      && (forall s :: s in hits ==> hits[s] == Read(m.store, m.now, FreshKey(provider, s)).value)
      && misses == Missing(m.store, m.now, provider, symbols)
    ensures FreshAnswer(m, provider, symbols, hits, misses, up)
  {
    hide Read, FreshKey;
  }

  ghost predicate StaleAnswer(m: Moment, provider: string, misses: seq<string>, stale: map<string, CachedQuote>) {
    && (forall s :: s in stale <==> s in misses && LiveStale(m, provider, s).Some?)
    && (forall s :: s in stale ==> stale[s] == LiveStale(m, provider, s).value)
  }

  lemma StaleHolds(m: Moment, provider: string, misses: seq<string>, stale: map<string, CachedQuote>, ok: bool)
    requires ok ==> forall s :: s in stale <==> s in misses && Read(m.store, m.now, StaleKey(provider, s)).Some?
    requires ok ==> forall s :: s in stale ==> stale[s] == Read(m.store, m.now, StaleKey(provider, s)).value
    ensures ok ==> StaleAnswer(m, provider, misses, stale)
  {
    hide Read, StaleKey;
  }

  ghost function SpecQuotes(provider: string, symbols: seq<string>, w: World): map<string, Quote> {
    map s | s in symbols && SpecQuote(provider, s, w).Some? :: SpecQuote(provider, s, w).value
  }

  ghost predicate WritesMids(w: World, store: Store, provider: string, which: set<nat>, freshTTL: int, staleTTL: int)
    requires w.tickers.Some?
  {
    exists order ::
      && Enumerates(order, MidPrices(w.tickers.value).Keys)
      && var pipe := Commands(provider, MidPrices(w.tickers.value), order, w.unix);
         store == ExecuteAll(w.after.store, Kept(pipe, which), w.after.now, freshTTL, staleTTL)
  }

  lemma NothingAsked(m: Moment, provider: string, env: Env)
    ensures Clean([]) == [] && Requested(m, provider, [], env) == []
    ensures SpecQuotes(provider, [], Seen(m, provider, [], env)) == map[]
  {
    hide Read, SpecQuote;
  }

  function FromCache(quotes: map<string, CachedQuote>, stale: bool): map<string, Quote> {
    map s | s in quotes :: Cached(quotes[s], stale)
  }

  function FromTickers(tickers: map<string, BookTicker>, unix: int): map<string, Quote> {
    map s | s in tickers :: Quote(tickers[s].symbol, tickers[s].mid, unix, false)
  }

  lemma MissesAreSymbols(provider: string, symbols: seq<string>, hits: map<string, CachedQuote>, misses: seq<string>,
          w: World)
    requires FreshAnswer(w.before, provider, symbols, hits, misses, w.cacheOk)
    ensures forall s :: s in misses <==> s in symbols && s !in hits
    ensures forall s :: s in hits ==> s in symbols
  {
    hide Read, FreshKey;
    MissingMembers(w.before.store, w.before.now, provider, symbols);
  }

  lemma AllHits(provider: string, symbols: seq<string>, hits: map<string, CachedQuote>, misses: seq<string>, w: World)
    requires FreshAnswer(w.before, provider, symbols, hits, misses, w.cacheOk) && misses == []
    ensures FromCache(hits, false) == SpecQuotes(provider, symbols, w)
  {
    hide Live, LiveStale;
    MissesAreSymbols(provider, symbols, hits, misses, w);
  }

  lemma BrokerAnswers(provider: string, symbols: seq<string>, hits: map<string, CachedQuote>, misses: seq<string>,
          w: World)
    requires FreshAnswer(w.before, provider, symbols, hits, misses, w.cacheOk)
    requires w.tickers.Some? && TickersOk(w.tickers.value, misses)
    ensures FromCache(hits, false) + FromTickers(w.tickers.value, w.unix) == SpecQuotes(provider, symbols, w)
  {
    hide Live, LiveStale, MidPrice;
    MissesAreSymbols(provider, symbols, hits, misses, w);
  }

  lemma StaleAnswers(provider: string, symbols: seq<string>, hits: map<string, CachedQuote>, misses: seq<string>,
                     stale: map<string, CachedQuote>, w: World)
    requires FreshAnswer(w.before, provider, symbols, hits, misses, w.cacheOk) && w.tickers.None?
    requires w.staleOk ==> StaleAnswer(w.after, provider, misses, stale)
    ensures FromCache(hits, false) + (if w.staleOk then FromCache(stale, true) else map[])
         == SpecQuotes(provider, symbols, w)
  {
    hide Live, LiveStale;
    MissesAreSymbols(provider, symbols, hits, misses, w);
  }

  function MidPrices(tickers: map<string, BookTicker>): map<string, Dec> {
    map s | s in tickers :: tickers[s].mid
  }

  // ---------- what the specification promises over cache histories ----------

  ghost function At(ops: seq<Op>, freshTTL: int, staleTTL: int): Moment
    requires OpsOk(ops)
  {
    Moment(Stored(ops, freshTTL, staleTTL), Clock(ops))
  }

  lemma ReadsAt(ops: seq<Op>, provider: string, symbol: string, freshTTL: int, staleTTL: int)
    requires OpsOk(ops)
    ensures Live(At(ops, freshTTL, staleTTL), provider, symbol)
         == LastWithin(Logged(ops), Fresh, PairKey(provider, symbol), Clock(ops), freshTTL)
    ensures LiveStale(At(ops, freshTTL, staleTTL), provider, symbol)
         == LastWithin(Logged(ops), Stale, PairKey(provider, symbol), Clock(ops), staleTTL)
  {
    hide Read, Stored, Logged, Clock, PairKey, FreshKey, StaleKey, LastWithin;
    ReadsAreLastWrites(ops, provider, symbol, freshTTL, staleTTL);
  }

  // The answer to a symbol, from what GetQuotes is given: a live fresh entry if the read works and
  // there is one; else, if the request to the exchange fails, a live stale entry, flagged, if the
  // stale read works and there is one; else the exchange's last parseable ticker, if there is one.
  ghost predicate AnsweredBy(m: Moment, provider: string, symbols: seq<string>, symbol: string, env: Env,
                             q: Option<Quote>)
  {
    var (live, asked) := (Live(m, provider, symbol), Requested(m, provider, symbols, env));
    var stale := LiveStale(Moment(env.others, m.now + env.elapsed), provider, symbol);
    if env.readUp && live.Some? then
      q == Some(Quote(live.value.symbol, live.value.price, live.value.timestamp, false))
    else if RequestFails(asked, env.reply) then
      if env.staleUp && stale.Some?
      then q == Some(Quote(stale.value.symbol, stale.value.price, stale.value.timestamp, true))
      else q == None
    else
      && env.reply.Some?
      && (q.Some? <==> exists i: nat :: IsLastFor(env.reply.value, i, symbol))
      && (forall i: nat :: IsLastFor(env.reply.value, i, symbol) ==> QuoteReads(q.value, env.reply.value[i], env.unix))
  }

  ghost predicate QuoteReads(q: Quote, raw: RawTicker, unix: int) {
    && q.symbol == raw.symbol && q.timestamp == unix && !q.stale
    && raw.bid.Some? && raw.ask.Some?
    && V(q.price) == RoundTo((V(raw.bid.value) + V(raw.ask.value)) / 2.0, DIVISION_PRECISION)
  }

  lemma EverySymbolAnswered(m: Moment, provider: string, symbols: seq<string>, symbol: string, env: Env)
    requires symbol in symbols
    ensures AnsweredBy(m, provider, symbols, symbol, env, SpecQuote(provider, symbol, Seen(m, provider, symbols, env)))
  {
    hide V, RoundTo, Read, FreshKey, StaleKey, Tickers, RequestFails, IsLastFor;
    var asked := Requested(m, provider, symbols, env);
    TickersMean(asked, env.reply);
    if !(env.readUp && Live(m, provider, symbol).Some?) {
      AskedWhenMissing(m, provider, symbols, symbol, env);
    }
  }

  // Every symbol is answered, and no other.
  ghost predicate AllAnswered(quotes: map<string, Quote>, m: Moment, provider: string, symbols: seq<string>, env: Env) {
    && (forall s :: s in quotes ==> s in symbols)
    && (forall s :: s in symbols ==>
          AnsweredBy(m, provider, symbols, s, env, if s in quotes then Some(quotes[s]) else None))
  }

  lemma SpecQuotesAnswer(m: Moment, provider: string, symbols: seq<string>, env: Env)
    ensures AllAnswered(SpecQuotes(provider, symbols, Seen(m, provider, symbols, env)), m, provider, symbols, env)
  {
    hide AnsweredBy, SpecQuote, Seen;
    forall s | s in symbols
      ensures var quotes := SpecQuotes(provider, symbols, Seen(m, provider, symbols, env));
              AnsweredBy(m, provider, symbols, s, env, if s in quotes then Some(quotes[s]) else None)
    {
      EverySymbolAnswered(m, provider, symbols, s, env);
    }
  }

  lemma AskedWhenMissing(m: Moment, provider: string, symbols: seq<string>, symbol: string, env: Env)
    requires symbol in symbols
    ensures symbol in Requested(m, provider, symbols, env) <==> !(env.readUp && Live(m, provider, symbol).Some?)
  {
    hide Read, FreshKey;
    MissingMembers(m.store, m.now, provider, symbols);
  }

  // Where an answer comes from, over every history of the cache up to the fresh read (ops) and on to
  // the stale read (more): it is unflagged exactly when the last fresh write is within its TTL or
  // the broker answers, and flagged exactly when the broker fails and only the last stale write is
  // within its TTL.
  lemma QuoteSources(ops: seq<Op>, more: seq<Op>, provider: string, symbol: string, w: World,
                     freshTTL: int, staleTTL: int)
    requires OpsOk(ops) && OpsOk(more) && ops <= more
    requires w.before == At(ops, freshTTL, staleTTL) && w.after == At(more, freshTTL, staleTTL)
    ensures var (pair, q) := (PairKey(provider, symbol), SpecQuote(provider, symbol, w));
            var recent := if w.cacheOk then LastWithin(Logged(ops), Fresh, pair, Clock(ops), freshTTL) else None;
            var stale := if w.staleOk then LastWithin(Logged(more), Stale, pair, Clock(more), staleTTL) else None;
            var answered := w.tickers.Some? && symbol in w.tickers.value;
            && (q.Some? && !q.value.stale <==> recent.Some? || answered)
            && (q.Some? && q.value.stale <==> w.tickers.None? && recent.None? && stale.Some?)
            && (recent.Some? ==>
                  q == Some(Quote(recent.value.symbol, recent.value.price, recent.value.timestamp, false)))
            && (recent.None? && answered ==>
                  q.value.price == w.tickers.value[symbol].mid && q.value.timestamp == w.unix)
            && (q.Some? && q.value.stale ==>
                  q == Some(Quote(stale.value.symbol, stale.value.price, stale.value.timestamp, true)))
  {
    hide Live, LiveStale, At, Stored, Logged, Clock, PairKey, LastWithin;
    ReadsAt(ops, provider, symbol, freshTTL, staleTTL);
    ReadsAt(more, provider, symbol, freshTTL, staleTTL);
  }

  // What the broker answers is what the cache answers next, if the pipeline executes: under each
  // symbol its mid price with the time of the answer, in either tier until its TTL has passed.
  lemma BrokerAnswerIsCached(w: World, store: Store, provider: string, which: set<nat>, freshTTL: int, staleTTL: int,
                             symbol: string, later: int)
    requires w.tickers.Some? && symbol in w.tickers.value && WritesMids(w, store, provider, which, freshTTL, staleTTL)
    requires forall a, b :: a in w.tickers.value && b in w.tickers.value && a != b ==> ToUpper(a) != ToUpper(b)
    requires forall i: nat :: i < 2 * |w.tickers.value| ==> i in which
    ensures var cached := CachedQuote(symbol, w.tickers.value[symbol].mid, w.unix);
            && Read(store, later, FreshKey(provider, symbol))
               == (if later < w.after.now + freshTTL then Some(cached) else None)
            && Read(store, later, StaleKey(provider, symbol))
               == (if later < w.after.now + staleTTL then Some(cached) else None)
  {
    hide Commands, Kept, ExecuteAll, PairKey, ToUpper, LastOf;
    var mids := MidPrices(w.tickers.value);
    var order :|
      && Enumerates(order, mids.Keys)
      && var pipe := Commands(provider, mids, order, w.unix);
         store == ExecuteAll(w.after.store, Kept(pipe, which), w.after.now, freshTTL, staleTTL);
    assert symbol in order;
    var k: nat :| k < |order| && order[k] == symbol;
    EnumerationSize(order, mids.Keys);
    assert mids.Keys == w.tickers.value.Keys;
    KeysAndSize(w.tickers.value);
    var pair := PairKey(provider, symbol);
    PairKeyHasNoLower(provider, symbol);
    forall i | 0 <= i < |order| && i != k ensures PairKey(provider, order[i]) != PairKey(provider, order[k]) {
      SamePairSameUpper(provider, order[i], order[k]);
    }
    LastOfUnique(provider, order, which, Fresh, k);
    LastOfUnique(provider, order, which, Stale, k);
    PipelineStores(w.after.store, provider, mids, order, w.unix, which, w.after.now, freshTTL, staleTTL, Fresh, pair);
    PipelineStores(w.after.store, provider, mids, order, w.unix, which, w.after.now, freshTTL, staleTTL, Stale, pair);
  }

  lemma KeysAndSize<T>(m: map<string, T>)
    ensures |m.Keys| == |m|
  {
  }

  lemma {:induction false} EnumerationSize(order: seq<string>, keys: set<string>)
    requires Enumerates(order, keys)
    ensures |order| == |keys|
    decreases |order|
  {
    if order == [] {
      assert keys == {};
    } else {
      var (init, last) := (order[..|order| - 1], order[|order| - 1]);
      assert Enumerates(init, keys - {last});
      EnumerationSize(init, keys - {last});
    }
  }

  // What a failed fresh read costs, over every history of matched pipelines. A symbol that a working
  // read would have answered is asked of the broker with all others, and stays answered if and only
  // if the broker answers it or, on a broker error, the stale read works and comes before the last
  // stale write expires: in any case within the TTLs' difference.
  lemma FailedReadKeepsAnswerIff(ops: seq<Op>, more: seq<Op>, provider: string, symbols: seq<string>, symbol: string,
                                 env: Env, freshTTL: int, staleTTL: int)
    requires OpsOk(ops) && OpsOk(more) && ops <= more && Matched(more)
    requires symbol in symbols && Live(At(ops, freshTTL, staleTTL), provider, symbol).Some? && !env.readUp
    requires Moment(env.others, Clock(ops) + env.elapsed) == At(more, freshTTL, staleTTL)
    ensures var w := Seen(At(ops, freshTTL, staleTTL), provider, symbols, env);
            var last := (Stale, PairKey(provider, symbol));
            && w.tickers == Tickers(symbols, env.reply)
            && last in Logged(more)
            && (SpecQuote(provider, symbol, w).Some? <==>
                  if w.tickers.Some? then symbol in w.tickers.value
                  else env.staleUp && Clock(more) < Logged(more)[last].at + staleTTL)
            && (env.elapsed <= staleTTL - freshTTL ==> Clock(more) < Logged(more)[last].at + staleTTL)
  {
    hide Live, LiveStale, Stored, Logged, PairKey, Tickers;
    var pair := PairKey(provider, symbol);
    ReadsAt(ops, provider, symbol, freshTTL, staleTTL);
    ReadsAt(more, provider, symbol, freshTTL, staleTTL);
    MatchedTiersAgree(more);
    LogGrows(ops, more, Fresh, pair);
  }

  // Degradation during an outage of the exchange, over every history of matched pipelines up to the
  // fresh read (ops) and on to the stale read (more): a symbol is answered with its last written
  // quote, unflagged if the fresh read comes before the fresh TTL has passed, else flagged if the
  // stale read comes before the stale TTL has; else it is left out.
  lemma OutageAnswersLastWrite(ops: seq<Op>, more: seq<Op>, provider: string, symbols: seq<string>, symbol: string,
                               env: Env, freshTTL: int, staleTTL: int)
    requires OpsOk(ops) && OpsOk(more) && ops <= more && Matched(more)
    requires symbol in symbols && env.reply == None && env.readUp && env.staleUp
    requires Moment(env.others, Clock(ops) + env.elapsed) == At(more, freshTTL, staleTTL)
    ensures var q := SpecQuote(provider, symbol, Seen(At(ops, freshTTL, staleTTL), provider, symbols, env));
            var (log, later, last) := (Logged(ops), Logged(more), (Fresh, PairKey(provider, symbol)));
            if last in log && Clock(ops) < log[last].at + freshTTL
            then var c := log[last].quote; q == Some(Quote(c.symbol, c.price, c.timestamp, false))
            else if last in later && Clock(more) < later[last].at + staleTTL
            then var c := later[last].quote; q == Some(Quote(c.symbol, c.price, c.timestamp, true))
            else q == None
  {
    hide Live, LiveStale, Stored, Logged, Clock, PairKey, SpecQuote, Seen, Requested;
    var m := At(ops, freshTTL, staleTTL);
    EverySymbolAnswered(m, provider, symbols, symbol, env);
    if Live(m, provider, symbol).None? {
      AskedWhenMissing(m, provider, symbols, symbol, env);
    }
    ReadsAt(ops, provider, symbol, freshTTL, staleTTL);
    ReadsAt(more, provider, symbol, freshTTL, staleTTL);
    MatchedTiersAgree(more);
  }
}
