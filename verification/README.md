# Pregão: reservation protocol, fill settlement, quantisation, quote cache

Pregão is a broker gateway: it places market orders on an exchange at most once per trade intent,
settles each fill with a downstream ledger, and serves quotes from a two-tier cache. This project
models the parts of it whose correctness spans several functions, and proves what they promise.

* **Reservation protocol** (`Orders`, `Reservation`, `ReservationRuns`, `ExecuteTrade`). The
  `broker_orders` table is a map of rows with the guarded statements of the repository.
  `Reservation` is a state machine over any number of requests on any replicas: each repository
  statement and each exchange answer is one atomic step, and steps interleave freely with crashes,
  cancels, broker failures, fills, and statements whose client never learns the outcome. Such a
  statement (`orphans`) may execute at any later time or never. `ReservationRuns` states what every
  run keeps. `ExecuteTrade` is the service's own code as a class whose methods poll, insert, confirm
  and release; between any two of its statements the rest of the system takes arbitrary steps, and
  the history it leaves is proved to be a run of the state machine.
* **Decimals** (`Decimals`, `DecimalText`). The decimal library as (coefficient, exponent) with its
  own digit arithmetic. `V` is the real number a decimal denotes; every operation is proved against
  `V`, with rounding as the mathematical "half away from zero at p digits" (`RoundTo`).
* **Fills and settlement** (`FillArithmetic`, `Settlement`, `SettlementRuns`, `Webhook`). What
  `ProcessFill` does to a row and to a ledger that applies each idempotency key once, over all
  histories of attempts at any orders, in which every foreign call may be lost before or after its
  effect. `OrderTable` puts both halves on one table: the protocol establishes what fills rely on,
  and runs in which requests and fills interleave are such histories.
* **Quantisation** (`Quantize`): step-size truncation and the quantity text sent to the exchange.
* **Quotes** (`QuoteCache`, `Quotes`): the cache refines a map of last writes with two expiry times,
  and `GetQuotes` refines a per-symbol specification.

Outcomes of foreign calls (database, exchange, Redis, ledger) are parameters: a step of the state
machine, an `up` flag or `Fate`, or a `Calls`/`Env` value. Reals and real arithmetic appear in
specifications only; the modelled code computes on integers.

Where the code and its documentation differ, the model follows the code:

* `internal/broker/binance/client.go:364` says that `TruncateToStepSize` quantises down. It divides
  with rounding first, so it can round up; `Quantize.TruncatesExactly` gives the exact condition and
  `Quantize.RoundsUpExample` an input.
* `docs/INTEGRATION_GUIDE.md:91` names the stored status `PARTIALLY_FILLED`; the code stores
  `PARTIAL`.

Conditions the code relies on without checking them, each with a proof of what happens otherwise:

* A row update that executes is answered; else the retry of the fill settles and counts it twice
  (`SettlementRuns.ExactlyOnce`, `SettlementRuns.LostAnswerSettlesTwice`).
* A failed fill is retried before the order's next one, or what it posted is posted by an executed
  update all the same (`SettlementRuns.ExactlyOnce`, `SettlementRuns.RetriedSettlesOnce`).
* Executed quantities fit the column's eight decimals; else they are not conserved
  (`FillArithmetic.ConservesIff`), and fills below half a unit reuse keys
  (`Settlement.RepeatedKeyIffTiny`).
* Each (tenant, key) is used with one intent (`ReservationRuns.KeyReuseSplitsAnswers`).
* An execution report without usable quantity or price is the order's first
  (`Webhook.FallbackQuantityIffFirst`, `Webhook.FallbackPriceIffFirst`).
* The stale TTL is not below the fresh one, and pipelines split no quote between the tiers
  (`QuoteCache.TwinnedIffOrdered`, `QuoteCache.KeepsTwinsIffMatched`).

## Model

The main results come first, down to `DecimalText.ToStringIffSameNumber`; below them are the
operations and the results they are built from, module by module.

| member | source | states |
|---|---|---|
| ReservationRuns.AtMostOneAcceptance | internal/service/service.go:247-317 | in every run, two exchange acceptances never belong to requests with the same trade intent, or with the same tenant and the same non-empty key: at most one order per intent and per key |
| Reservation.StepKeepsInv | internal/service/service.go:247-317 | each of the 21 kinds of step keeps the invariant: crashes, cancels, late statements and fills included |
| ReservationRuns.RunKeepsInv | internal/db/orders_repo.go:76-163 | the inductive invariant on rows, requests and outstanding statements holds in every reachable state |
| ReservationRuns.OwnershipRun | internal/service/service.go:259-317 | while a request owns its reservation, no run of anyone else's steps (confirms, releases, late statements, fills) changes its row or its progress |
| ReservationRuns.AcceptedRowStays | internal/db/orders_repo.go:125-147 | once the exchange has accepted a request's order, its row is never deleted and the acceptance never changes |
| ReservationRuns.RecordedRowRun | internal/db/orders_repo.go:125-163 | a recorded row is never deleted, never PENDING again and never changes its provider order id |
| ReservationRuns.RowsHoldRequests | internal/db/orders_repo.go:101-118 | in every run each row is its request's, field by field: intent, tenant, user, provider, symbol, side, key, portfolio and hold, and the target rounded to the column |
| ReservationRuns.ReplaySound | internal/service/service.go:251-257 | every success carries the id of an accepted order whose row matches the request by intent or by (tenant, non-empty key) |
| ReservationRuns.SameIntentSameAnswer | internal/service/service.go:347-370 | if each key is used with one intent, two successes for one intent carry the same order id |
| ReservationRuns.KeyReuseSplitsAnswers | internal/service/service.go:359-370 | that condition is needed: key reuse with another intent, for any orders, has a run with two answers for one intent |
| ReservationRuns.QuiescentRowsMatchAcceptances | internal/service/service.go:294-317 | after a run without crashes or failed writes, when all requests have returned, no PENDING row is left and rows correspond one to one to accepted orders, each with its id |
| ReservationRuns.StrandedBlocks | docs/DEPLOYMENT.md:236-243 | a row left PENDING by a request that is gone stays as it is and blocks its intent and key for good: no other request with them is ever accepted |
| ExecuteTrade.TradeServer.ExecuteTrade | internal/service/service.go:247-341 | under arbitrary interference the history stays a protocol run that ends with the returned reply; a success is sound, an error has a reason and leaves nothing accepted; with a working database no trace remains after an error, the row is recorded after its own acceptance, and an intent already recorded is answered with its order and no new one; an execution reported with the acceptance is filled in by a fill processor, and the row then holds just what was executed, with a fill processor or without |
| ExecuteTrade.TradeServer.ReserveOrder | internal/service/service.go:347-380 | at most ceil(wait/poll) + 1 insert attempts; ends holding its own PENDING row, or with a recorded conflicting row, or refused for a failed statement, a caller who left, or the whole wait gone by; with a working database the first attempt wins if nothing is in its way, and finds the intent's recorded order if there is one |
| SettlementRuns.ExactlyOnce | internal/worker/fill_processor.go:84-144 | for every history of fills the quantity column counts, retried or not: the ledger holds exactly one entry per event whose attempt returned nil, with that event's content, and no other entry of the order, if and only if no row update executed while its caller got an error and every attempt that first posted a key without writing the row posted what an executed update posts as well |
| SettlementRuns.RetriedSettlesOnce | internal/worker/fill_processor.go:84-144 | when failed attempts are retried until they return nil, each before the order's next event, the ledger holds one entry per executed update, and one per event if and only if no update executed behind an error |
| SettlementRuns.LostAnswerSettlesTwice | internal/worker/fill_processor.go:140-144 | when a row update executes and its answer is lost, the retry of any fill the quantity column counts is settled and counted a second time, under a second key |
| SettlementRuns.QuantityConserved | internal/worker/fill_processor.go:63-64 | over any history and for any quantities the stored quantity is the start plus that of every executed update as the column takes it; it counts exactly the attempts that returned nil if and only if no update executed behind an error |
| SettlementRuns.FilledEqualsSynced | internal/worker/fill_processor.go:84-101 | after a retried history of fills with at most eight decimals the stored quantity is the start plus the sum of the shares in the order's ledger entries at Ativos, also when an update executed behind an error |
| SettlementRuns.SettledNearTurnover | internal/client/livro/client.go:71-95 | after a retried history the sum of the order's ledger entries at Livro differs from the turnover of its executed updates by at most one half-unit of 10^-4 each |
| OrderTable.RunIsHistory | internal/service/service.go:247-341 | runs in which requests and fill attempts interleave freely keep the invariants of both, and are histories to which the results on settlement apply |
| FillArithmetic.AverageDrift | internal/worker/fill_processor.go:60-72 | stored average times filled differs from the exact turnover by at most (half a unit of 10^-4 plus half a unit of 10^-16) times the sum of cumulative quantities |
| FillArithmetic.VwapWithinSteps | internal/worker/fill_processor.go:60-72 | after n fills from zero the stored average is within n step errors of the true VWAP |
| FillArithmetic.AverageInHull | internal/worker/fill_processor.go:63-72 | the stored average lies between the four-decimal roundings of any sixteen-decimal bounds of the prices, so of the least and greatest price |
| FillArithmetic.CompletionStable | internal/worker/fill_processor.go:74-78 | once a fill reaches the target, it and every later fill leave the row FILLED |
| Quantize.TruncatesExactly | internal/broker/binance/client.go:366-371 | it truncates if and only if the leftover of the last step leaves a margin of more than half a unit of 10^-16; else it rounds up to the next step |
| Quantize.QuantizationBound | internal/broker/binance/client.go:366-371 | qty - step < quantised <= qty + half a unit of 10^-16 times step |
| Quantize.OrderQuantitySound | internal/broker/binance/client.go:216-230 | every quantity sent is a positive multiple of the symbol's step; a positive request is refused exactly when it is short of one step by more than the margin |
| Quantize.SentInExchangeUnits | internal/broker/binance/client.go:216-230 | in the exchange's numbers: for BTCUSDT, in any case and among blanks, what is sent is a positive whole number of 0.00001 with five decimals, never one unit below the request and above it by the margin at most, and a request is refused exactly when it is not positive or short of one unit by more than the margin; likewise for every other symbol with its own unit |
| Quantize.QuantityTextParses | internal/broker/binance/client.go:373-384 | the quantity text parses back to exactly the quantised number, for every positive step |
| QuoteCache.RunRefines | internal/cache/redis.go:88-119 | after any pipelines, executed completely or in part, and time advances the store is the map of last writes in each tier |
| QuoteCache.TwinnedIffOrdered | internal/cache/redis.go:21-33 | when each pipeline leaves both tiers of every pair with the same quote, every live fresh entry has an equal live stale twin in every run if and only if freshTTL <= staleTTL |
| QuoteCache.KeepsTwinsIffMatched | internal/cache/redis.go:94-118 | whatever part of a pipeline executes: it leaves every live fresh entry with its twin, after every run of such pipelines, if and only if for each pair the last executed command of either tier is of the same quote |
| Quotes.QuoteService.GetQuotes | internal/service/service.go:89-171 | for a broker that answers only what it is asked, and whatever others write while it answers: exactly the cleaned symbols are answered, each by its live fresh entry, else by the exchange's last parseable ticker, or, if the request fails, by its live stale entry, flagged; the cache gains exactly the executed commands of a pipeline with the broker's mid prices |
| Quotes.QuoteSources | internal/service/service.go:124-168 | over every cache history: an answer is unflagged exactly when the last fresh write is within its TTL or the broker answers, flagged exactly when the broker fails and only the last stale write is within its TTL; and which quote it is |
| Quotes.BrokerAnswerIsCached | internal/service/service.go:147-150 | what the broker answered is what both tiers answer next, until their TTLs have passed, if the pipeline executes: the mid price with the time of the answer |
| Quotes.FailedReadKeepsAnswerIff | internal/service/service.go:119-168 | over every history of pipelines with matching tiers: after a failed fresh read every cleaned symbol is asked of the broker, and one that the read would have answered stays answered if and only if the broker answers it or, on a broker error, the stale read works and comes before the last stale write expires, as it does within staleTTL - freshTTL |
| DecimalText.ToStringIffSameNumber | vendor/github.com/shopspring/decimal/decimal.go:1471-1473 | two decimals print alike if and only if they are the same number |
| ReservationRuns.OwnerHoldsRow | internal/db/orders_repo.go:76-98 | an owner's row is its own, PENDING, without provider order id, and the only one with that intent or key |
| ReservationRuns.ProviderIdIffRecorded | internal/db/orders_repo.go:125-139 | in every run the provider order id is absent exactly while the row is PENDING |
| ReservationRuns.FailureIsSafeToRetry | internal/service/service.go:259-265 | an error answer means the exchange accepted nothing for this request and never will |
| ExecuteTrade.TradeServer.Dispatch | internal/service/service.go:259-341 | the reply is the exchange's id and mapped status exactly when credentials load and the exchange accepts, and a reported execution is then counted; else the reservation is released |
| ExecuteTrade.TradeServer.Settle | internal/service/service.go:288-341 | after the acceptance the reply is the exchange's whatever the database does; with a working database the row is recorded; when database and settlement work, a fill processor adds the reported execution to the row, and the row holds just that if nobody else fills it, with a fill processor or without |
| ExecuteTrade.ExecutionCountsOnce | internal/service/service.go:302-330 | with a fill processor the row is confirmed with nothing filled, and processing the fill then leaves the same figures as confirming it filled: an immediate execution is counted once |
| ExecuteTrade.SyncFillSettles | internal/service/service.go:319-330 | the same bound for the event that the service builds from the order result |
| ExecuteTrade.TradeServer.TryInsert | internal/service/service.go:350-356 | the insert happens exactly when nothing conflicts and the statement gets through |
| ExecuteTrade.TradeServer.FindByIntent | internal/service/service.go:358 | a row found by intent, or none |
| ExecuteTrade.TradeServer.FindByKey | internal/service/service.go:359-361 | a row found by (tenant, key), or none |
| ExecuteTrade.TradeServer.FindExisting | internal/service/service.go:358-370 | the existing order conflicts with the request by intent or, failing that, by key |
| ExecuteTrade.TradeServer.PollOrGiveUp | internal/service/service.go:371-379 | polls again only before the deadline and at least one interval later; gives up only at the deadline or when the caller left, at any time of the sleep |
| ExecuteTrade.TradeServer.ReserveOnce | internal/service/service.go:350-370 | one insert attempt with its lookups: the reservation, the recorded order, a failure, or another round |
| ExecuteTrade.TradeServer.ReleaseReservation | internal/service/service.go:383-389 | deletes exactly the request's row when the statement gets through, after which no trace is left |
| ExecuteTrade.TradeServer.ConfirmReservation | internal/service/service.go:311-317 | the confirming statement executes on the table, or its failure leaves it to execute late |
| ExecuteTrade.TradeServer.SyncFill | internal/service/service.go:319-335 | keeps the recorded row recorded, and with a working database and settlement writes the next fill of the row it read |
| ExecuteTrade.TradeServer.WriteFill | internal/worker/fill_processor.go:139-142 | the update enters the history with the figures computed from the row that was read, or is lost |
| Orders.InsertKeepsUnique | internal/db/orders_repo.go:76-123 | the insert keeps intents and (tenant, non-empty key) unique, and changes the table exactly when nothing conflicts |
| Orders.ReleaseUndoesInsert | internal/db/orders_repo.go:141-147 | releasing a fresh reservation restores the table |
| Orders.ConfirmIsFinal | internal/db/orders_repo.go:125-147 | after a confirmation neither a release nor a second confirmation has any effect |
| Orders.ConfirmRecords | internal/db/orders_repo.go:125-139 | the confirmed row is found by the exchange's id, holds the figures rounded to the columns, and nothing else changed |
| Orders.FillWrites | internal/db/orders_repo.go:149-163 | a fill writes status and figures, rounded to their columns, of exactly the rows of that provider order, and nothing else |
| Orders.MapOrderStatus | internal/broker/binance/client.go:347-362 | no exchange status maps to PENDING |
| Orders.StatusOfText | internal/broker/binance/client.go:347-362 | which texts, in any case, give which status; all others SUBMITTED |
| Orders.OrdersRepo.ReserveOrder | internal/db/orders_repo.go:76-123 | inserts exactly when the id is free and no row has the request's intent or its tenant and non-empty key, and says so; the new row is the request's field by field, PENDING, without provider order id, numbers in column scale; no other row changes |
| Orders.OrdersRepo.GetOrderByIntentID | internal/db/orders_repo.go:43-52 | finds a row with the intent, or there is none |
| Orders.OrdersRepo.GetOrderByIdempotencyKey | internal/db/orders_repo.go:54-63 | finds a row with tenant and key, or there is none |
| Orders.OrdersRepo.GetOrderByProviderOrderID | internal/db/orders_repo.go:65-74 | finds a row with provider and provider order id, or there is none |
| Orders.OrdersRepo.ConfirmOrder | internal/db/orders_repo.go:125-139 | updates exactly a PENDING row of that id, else reports not found |
| Orders.OrdersRepo.ReleaseOrder | internal/db/orders_repo.go:141-147 | deletes exactly a PENDING row of that id |
| Orders.OrdersRepo.UpdateOrderFill | internal/db/orders_repo.go:149-163 | updates every row of that provider order id and no other, or its failure leaves open whether it did; reports not found exactly when there is none |
| OrderTable.TableOkInEveryRun | internal/db/migrations/001_initial_schema.sql:22-40 | in every run with distinct exchange ids and no negative quantities, rows are unique by intent, key and provider order id, and hold non-negative column values |
| OrderTable.MoveIsEvent | internal/db/orders_repo.go:76-163 | each step of the protocol or attempt at a fill keeps the invariants of both and is one event of a history |
| FillArithmetic.AverageStep | internal/worker/fill_processor.go:60-72 | the error of one fill, with and without the column's rounding |
| FillArithmetic.ConservesIff | internal/db/migrations/001_initial_schema.sql:32-34 | the stored quantity grows by exactly the executed quantity if and only if that has at most eight decimals |
| FillArithmetic.Conservation | internal/worker/fill_processor.go:63-64 | with at most eight decimals, stored quantity is the start plus everything executed |
| FillArithmetic.RoundedConservation | internal/worker/fill_processor.go:63-64 | for any quantities, stored quantity is the start plus everything executed as the column takes it |
| FillArithmetic.FilledIncreases | internal/worker/fill_processor.go:63-64 | no fill decreases the stored quantity, and one of at least half a unit of its column increases it |
| FillArithmetic.FilledIff | internal/worker/fill_processor.go:74-78 | status FILLED exactly when the event says so or the target is reached, else PARTIAL |
| Settlement.FillProcessor.ProcessFill | internal/worker/fill_processor.go:47-144 | returns nil exactly when the event is valid, its order is found, the settlement call, if any, is answered, with the account resolved for a direct BUY, and the row update is answered; the row gets the fill unless the settlement failed or the update was lost; the ledger gets the fill's key and entry exactly when the settlement call arrived and the key was new; nothing else changes |
| Settlement.UpdateHitsOneRow | internal/db/orders_repo.go:149-163 | with unique provider order ids the update writes exactly the row that was read |
| Settlement.KeyTellsIntent | internal/worker/fill_processor.go:97-131 | keys of different intents never coincide, whatever the kinds and ids in them |
| Settlement.KeyReads | internal/worker/fill_processor.go:97-131 | a key spells the kind of settlement, the intent, the exchange's order id and the cumulative quantity |
| Settlement.SameKeyIffSameQuantity | internal/worker/fill_processor.go:97 | two keys of one order are equal if and only if the cumulative quantities are |
| Settlement.NextKeyCollidesIff | internal/worker/fill_processor.go:117 | two fills in a row get one key if and only if rounding to the column leaves them the same cumulative quantity |
| Settlement.RepeatedKeyIffTiny | internal/worker/fill_processor.go:117 | a second fill of the same size reuses the key if and only if the size is below half a unit of the quantity column |
| Settlement.EntryTells | internal/worker/fill_processor.go:84-136 | what each downstream service is told, as numbers and ids: tenant, portfolio, intent, ticker, side, shares and price; hold, amount and release; tenant, account, amount and reference |
| Settlement.AmountDenotes | internal/client/livro/client.go:68-95 | an amount text denotes the fiat value rounded to four decimals |
| Settlement.SyncFillAmount | internal/broker/binance/client.go:273-286 | for an order filled at once, the amount text sent to Livro is within half a unit of 10^-16 per unit executed, plus half a unit of 10^-4, of the broker's cumulative quote quantity |
| SettlementRuns.RowFollowsUpdates | internal/worker/fill_processor.go:139-142 | whatever other orders, requests and failed attempts do, the row is what the executed updates make of it |
| SettlementRuns.RowFollowsCompletedFills | internal/worker/fill_processor.go:139-142 | for fills the quantity column counts, the row is what the attempts that returned nil make of it if and only if no update executed behind an error |
| SettlementRuns.LedgerFollowsUpdates | internal/worker/fill_processor.go:84-144 | at every point of a history with retries the ledger holds the entries of executed updates and at most that of the pending event |
| SettlementRuns.EntriesAreFirstPosts | internal/worker/fill_processor.go:84-137 | the ledger holds a key of the order exactly when some attempt posted it, with the content of the first that did |
| SettlementRuns.OneEntryPerUpdateIff | internal/worker/fill_processor.go:84-144 | for every history: exactly one entry per executed update and no other of the order if and only if no post strays |
| SettlementRuns.KeysDiffer | internal/worker/fill_processor.go:97-131 | a fill of at least half a unit of the quantity column never gets the key of an earlier fill, whatever the decimals of either |
| SettlementRuns.CapturesReleaseAfterCompletion | internal/worker/fill_processor.go:103-118 | in the ledger a retried history leaves, the entry of every fill of a direct BUY order from the one that reaches the target on is a capture that releases the remainder |
| Webhook.Normalize | internal/webhook/handler.go:84-122 | which reports are ignored or refused, and which quantity and price the fill event gets |
| Webhook.FallbackSettlesCumulativeQuote | internal/webhook/handler.go:105-111 | with the price fallback the amount text sent to Livro is the cumulative quote quantity, up to the division's error per unit and one rounding to four decimals |
| Webhook.FallbackPriceIffFirst | internal/webhook/handler.go:105-111 | the price fallback settles this execution's own turnover if and only if the turnover of earlier executions in the cumulative figure is below half a unit of 10^-16 on each unit executed |
| Webhook.FallbackQuantityIffFirst | internal/webhook/handler.go:96-103 | the quantity fallback brings the stored quantity to the exchange's cumulative quantity if and only if the order has no earlier execution that the column counts |
| Quantize.ShortQuotientTruncates | internal/broker/binance/client.go:364-371 | with at most sixteen fractional digits in qty/step the result is exactly the truncation |
| Quantize.RoundsUpExample | internal/broker/binance/client.go:364-371 | an input that is quantised above the request |
| Quantize.Idempotent | internal/broker/binance/client.go:366-371 | quantising twice changes nothing |
| Quantize.Monotone | internal/broker/binance/client.go:366-371 | quantising is monotone in the quantity |
| Quantize.NoStep | internal/broker/binance/client.go:367-369 | a step that is not positive leaves the quantity as it is, in value and in text |
| QuoteCache.FreshNeverStale | internal/cache/redis.go:35-41 | fresh and stale keys never collide, for any providers and symbols; each kind is injective in the upper-cased symbol |
| QuoteCache.KeysOfProviders | internal/cache/redis.go:35-41 | keys of providers without a colon in their names are equal exactly for the same provider and symbol, up to case |
| QuoteCache.ReadsAreLastWrites | internal/cache/redis.go:43-86 | after any run each tier reads exactly its last write, within its TTL |
| QuoteCache.LostTwin | internal/cache/redis.go:21-33 | a run that loses the twin when freshTTL > staleTTL |
| QuoteCache.PipelineLeaves | internal/cache/redis.go:94-118 | each tier of each pair ends with its last executed command, or as it was |
| QuoteCache.MatchedIffPaired | internal/cache/redis.go:94-113 | a pipeline that executes both commands of each quote or neither leaves matching tiers; with symbols distinct in upper case only such a pipeline does |
| QuoteCache.QuotesCache.constructor | internal/cache/redis.go:21-33 | non-positive TTLs fall back to 5 seconds and 24 hours |
| QuoteCache.QuotesCache.SetQuotes | internal/cache/redis.go:88-119 | sends both tiers of every quote once; the commands at the given positions execute, and success means that all did |
| QuoteCache.QuotesCache.GetQuotes | internal/cache/redis.go:43-86 | hits are the live fresh entries, misses the other symbols in order; on an error everything is a miss |
| QuoteCache.QuotesCache.GetStaleQuotes | internal/cache/redis.go:140-174 | exactly the live stale entries of the symbols |
| Quotes.QuoteService.CleanSymbols | internal/service/service.go:101-113 | the loop computes the cleaned list |
| Quotes.CleanIsDistinct | internal/service/service.go:101-113 | the cleaned list is duplicate-free and holds exactly the non-empty cleaned symbols |
| Quotes.CleanSymbolIff | internal/service/service.go:101-113 | the cleaned symbols are exactly the non-empty ones among the given ones without surrounding blanks and in upper case |
| Quotes.ServicePipelineMatchedIffPaired | internal/service/service.go:136-150 | the pipelines of the service, whose symbols are cleaned, leave matching tiers if and only if they split no quote |
| Quotes.OutageAnswersLastWrite | internal/service/service.go:153-168 | over every history of pipelines with matching tiers, while the exchange does not answer a symbol gets its last write, unflagged if the fresh read comes within the fresh TTL, else flagged if the stale read, at its own later time, comes within the stale TTL, else nothing |
| Quotes.EverySymbolAnswered | internal/service/service.go:124-168 | where each symbol's answer comes from, stated on the reads, the exchange's answer and the cache alone |
| Quotes.GetBookTickers | internal/broker/binance/client.go:63-131 | a request for some symbol fails exactly when the exchange does not answer or one symbol was asked for and the answer is not one parseable ticker; else a symbol is answered exactly if a parseable element names it, by the last such, with half the sum of bid and ask |
| Quotes.LastTickerWins | internal/broker/binance/client.go:122-130 | exactly the symbols with a parseable element are answered, each by its last such element, field by field |
| Quotes.MidPriceBetween | internal/broker/binance/client.go:151-152 | the mid price lies between bid and ask when these have at most sixteen decimals |
| Quotes.MidPriceExact | internal/broker/binance/client.go:151-152 | the mid price is exact when bid and ask have at most fifteen decimals |
| Decimals.Add | vendor/github.com/shopspring/decimal/decimal.go:526-534 | addition is exact |
| Decimals.Mul | vendor/github.com/shopspring/decimal/decimal.go:558-574 | multiplication is exact |
| Decimals.Cmp | vendor/github.com/shopspring/decimal/decimal.go:1300-1311 | compares the denoted numbers |
| Decimals.DivRound | vendor/github.com/shopspring/decimal/decimal.go:602-670 | the quotient rounded half away from zero at the given digit |
| Decimals.Div | vendor/github.com/shopspring/decimal/decimal.go:590-592 | the quotient rounded at sixteen fractional digits |
| Decimals.Round | vendor/github.com/shopspring/decimal/decimal.go:1523-1545 | rounds half away from zero |
| Decimals.RoundViaDigit | vendor/github.com/shopspring/decimal/decimal.go:1523-1545 | deciding by one truncated digit, plus five and divided by ten, rounds correctly |
| Decimals.Floor | vendor/github.com/shopspring/decimal/decimal.go:1712-1726 | the greatest integer not above, for negative numbers too |
| DecimalText.FixedTextParses | vendor/github.com/shopspring/decimal/decimal.go:1908-1951 | untrimmed text parses back to the very same decimal |
| DecimalText.StringFixedParses | vendor/github.com/shopspring/decimal/decimal.go:1487-1490 | fixed-point text parses back to the rounded decimal |
| DecimalText.FixedLayout | vendor/github.com/shopspring/decimal/decimal.go:1487-1490 | fixed-point text has exactly the given number of digits behind its point, and no point for none |
| DecimalText.StringParses | vendor/github.com/shopspring/decimal/decimal.go:180-249 | String's text parses back to the same number, trailing zeros or not |
| DecimalText.ShortestLayout | vendor/github.com/shopspring/decimal/decimal.go:1908-1951 | String's text never ends its fraction in a zero or a point |

## Left out

- Transport: HTTP, gRPC, Redis and PostgreSQL protocols, JSON, request signing and URL building. Only the outcome of a call is modelled: success, error, or an error after which the effect may still happen.
- A broker error after the exchange did accept the order: as in the code, an error of `PlaceMarketOrder` counts as not accepted. A crash during the call may be followed by a late acceptance.
- Request validation, UUID parsing and generation (a request's row id is assumed fresh), provider and broker name resolution.
- Quantisation and the order request inside a protocol run: the exchange's answer there is arbitrary, and `Quantize` states which quantity is sent.
- `ValidateTickers`, `SyncBrokerBalances`, the credentials repository, vault decryption and wiping, configuration, startup and health checks: little state or one branch each.
- Changes of rows by an operator, panics, and NUMERIC overflow of the columns. The remedy of `docs/DEPLOYMENT.md:236-243` is outside the protocol; that it is needed is `ReservationRuns.StrandedBlocks`.
- Settlement.Ledger.Post: that Livro and Ativos apply each idempotency key once is an assumption about those services. Pregão's clients (`internal/client/livro/client.go:68-106`) only forward the key.
- Settlement.FillProcessor.ProcessFill: does not model concurrent fills of one order, since the code takes no row lock; attempts are events of one history and those of one order are sequential. A row update that fails has executed by then or never does; one that executes later, over the figures of a later fill, is not modelled.
- SettlementRuns.ExactlyOnce: does not model a repeated delivery of an event that has already succeeded, nor a synchronous fill and a webhook for the same execution; the code has no event-level deduplication. Order ids are assumed unique per exchange (`OrderTable.DistinctIds`), as nothing in the schema enforces it. Fills below half a unit of the quantity column are left out, since they reuse keys (`Settlement.RepeatedKeyIffTiny`).
- ExecuteTrade.TradeServer.SyncFill: a negative stored quantity, which no table of this service holds (`OrderTable.TableOkInEveryRun`), ends it without an update; that an execution is counted is stated for histories into which no negative quantity entered. Its ledger side is `Settlement`.
- ExecuteTrade.TradeServer.FindExisting: reads the found row in the same step as the lookup, as one SELECT does.
- FillArithmetic.CompletionStable: covers completion by reaching the target only. An event that says FILLED below the target may be followed by one that makes the row PARTIAL again.
- DecimalText.StringParses: covers plain decimal notation; scientific notation and the 32-bit exponent limit of the decimal library are not modelled.
- Settlement.EntryTells: leaves out descriptions, the currency, which is always USD, and the id of the tenant's clearing account.
- Webhook.Normalize: starts from the fields of an execution report; the generic fill event payload is passed on unchanged by the handler and is not modelled.
- Quotes.QuoteService.GetQuotes: gives prices as decimals; their text in the answer and in Redis is `DecimalText.ToString`, which loses nothing (`DecimalText.StringParses`). A broker that answers symbols it was not asked for is outside the specification.
- `GetStaleQuote`, the single-key variant of `GetStaleQuotes`.
- Upper-casing, trimming and case folding cover ASCII; timestamps `created_at` and `updated_at` are left out; time is a monotone integer clock.
- Market orders only: the exchange's balances, symbol validation and book quantities play no part beyond whether a ticker parses.
