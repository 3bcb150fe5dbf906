# Moving-average signal engine of the stock analyzer

This project models the analyzer service of a stock-analysis system. It reads price
ticks `(symbol, price)` one at a time and keeps, per symbol, the newest 20 prices in an
in-memory map (`stockHistory`). From the tick that brings a symbol to 20 prices on, every
tick compares two means: the fast mean of the last 5 prices and the slow mean of all 20.
It classifies the tick BUY (fast above slow), SELL (fast below slow) or HOLD (equal). It
publishes a signal `(symbol, direction, price)` for BUY and SELL only.

Layout:

- `averages.dfy` (module `Averages`): `calculateAverage` as `Sum` and `Average`, with
  lemmas about means: concatenation as a weighted mean, lower and upper bounds, constant
  runs.
- `classifier.dfy` (module `Classifier`): the three-way `Classify`. `Decide` applies it to
  a full window. Lemmas show that the decision compares the recent mean with the mean of
  the older prices. Two more hold for every window: a window of equal prices decides HOLD,
  and one whose recent prices rise over the older ones decides BUY.
- `history.dfy` (module `History`): the bounded window `Window`, the push-then-shift step
  `PushTrim`, and the prices received per symbol `PricesOf`. Lemmas cover FIFO, isolation,
  and the `Tracks` invariant kept by recording a tick.
- `analyzer.dfy` (module `Analyzer`): `SignalEngine`, a class whose `history` map field
  plays the role of `stockHistory`. A ghost `trace` holds every tick recorded. `Record`
  and `OnTick` are the per-tick handler. `Emission`, `SignalAt` and `SignalsFor` specify
  what is emitted, per tick and over a whole trace. Lemmas cover warm-up gating,
  per-symbol isolation and the level-detector example.

`stockHistory` is a plain JavaScript object, so a symbol that names a member every
object inherits from `Object.prototype` (`constructor`, `toString`, `__proto__` and the
others listed in `InheritedKeys`) is looked up as that member. The member is truthy, so no
entry is created, and the `push` of the next line throws a TypeError. `Record` and
`OnTick` model this: for such a symbol they report `threw`, emit nothing and change
nothing. The ghost `trace` therefore holds the recorded ticks only, and `SignalAt`,
`SignalsFor` and their lemmas speak of such traces: a raw stream with ticks for inherited
keys yields the signals of the same stream with those ticks removed.

The engine's invariant (`SignalEngine.Valid`, built on `History.Tracks`) says three
things. A symbol has an entry exactly when a tick for it has been recorded. The entry is the
newest `min(N, slowWindow)` prices of the N recorded for that symbol, oldest first. The
windows satisfy `0 < fastWindow < slowWindow`. `OnTick` keeps this invariant. It states
the new entry as the push-then-trim of the old one, and says that no other entry changes.
It states its result both from the stored window (`Emission`) and from the whole trace
(`SignalAt`). Determinism holds because every specification function is a function.

The decision is a level comparison made afresh on every warm tick. The comment at
analyzer.js:63-65 speaks of a crossover and a "> 1%" rule, but the code does neither.
The model follows the code, so the same direction is emitted again on every warm tick for
as long as the inequality holds (`LevelDetectorExample`).

Prices are exact rationals (`real`), so sums and divisions do not round. The HOLD case is
exact equality of the two means.

## Model

| member | source | states |
|---|---|---|
| Averages.Sum | analyzer.js:22 | the `reduce` total starts from 0 for no prices and is the price itself for one |
| Averages.Average | analyzer.js:20-24 | the mean is 0 for no prices; otherwise mean times count equals the left-to-right total of the prices |
| Averages.SumAppend | analyzer.js:22 | the total of a concatenation is the sum of the two totals |
| Averages.AverageAppend | analyzer.js:22-23 | the mean of a concatenation is the length-weighted mean of the two means |
| Averages.AverageAtLeast | analyzer.js:20-24 | the mean of a non-empty window is at least any lower bound of its prices |
| Averages.AverageAtMost | analyzer.js:20-24 | the mean of a non-empty window is at most any upper bound of its prices |
| Averages.AverageBelow | analyzer.js:20-24 | prices all at most t, with one strictly below, give a mean strictly below t |
| Averages.AverageConstant | analyzer.js:20-24 | a run of equal prices has that price as its mean |
| Classifier.Classify | analyzer.js:67-72 | BUY iff fast > slow, SELL iff fast < slow, HOLD iff they are equal |
| Classifier.Recent | analyzer.js:56 | the fast slice has exactly n prices and is the tail of the window |
| Classifier.Decide | analyzer.js:56-72 | the direction of a window from its fast and slow means; when the fast window is the whole window the means coincide and it is HOLD |
| Classifier.DecideComparesRecentWithOlder | analyzer.js:56-72 | comparing the recent mean with the whole-window mean gives the same direction as comparing it with the mean of the older prices alone |
| Classifier.FlatWindowHolds | analyzer.js:67-72 | a window of equal prices decides HOLD |
| Classifier.RiseOverOlderBuys | analyzer.js:56-69 | recent prices all at least t and older ones all at most t, one strictly below, decide BUY |
| History.Window | analyzer.js:46-51 | the kept window has at most n prices, is everything when fewer than n arrived, and has exactly n once n arrived |
| History.WindowIsSuffix | analyzer.js:46-51 | the kept window is the tail of everything received, in arrival order (a standalone statement of the window's contents) |
| History.PushTrim | analyzer.js:46-51 | push then drop-oldest grows an entry by one until it reaches n and keeps its length after, and the entry ends with the new price |
| History.WindowPush | analyzer.js:46-51 | push then drop-oldest on the window of the prices so far gives the window of the prices including the new one (FIFO) |
| History.PricesOf | analyzer.js:37-46 | a symbol has received no more prices than there are ticks |
| History.PricesOfStep | analyzer.js:41-46 | a tick appends its price to its own symbol's prices and changes no other symbol's |
| History.PricesOfAppend | analyzer.js:41-46 | a symbol's prices over two trace segments are the prices of each, in order |
| History.PricesOfOthers | analyzer.js:41-46 | ticks of other symbols contribute no prices to a symbol (a standalone statement of isolation) |
| History.Only | analyzer.js:41-46 | filtering a trace to one symbol keeps only that symbol's ticks |
| History.PricesOfOnly | analyzer.js:41-46 | removing other symbols' ticks leaves a symbol's prices unchanged |
| History.Tracks | analyzer.js:41-51 | the stored map agrees with a trace: entries exactly for the symbols seen, each the window of its prices, hence non-empty and at most n long |
| History.RecordKeepsTracks | analyzer.js:40-51 | creating, pushing and trimming the tick's own entry keeps every entry equal to the window of its symbol's prices, and keeps entries exactly for the symbols seen |
| Analyzer.Emission | analyzer.js:55-83 | a signal is produced iff the window is full and the decision is not HOLD; it carries the tick's symbol and price and a direction of BUY or SELL |
| Analyzer.SignalAt | analyzer.js:54-83 | a tick yields a signal only once its symbol has received at least slowWindow prices, and the signal carries that tick's symbol and price |
| Analyzer.SignalsFor | analyzer.js:76-89 | a symbol's emitted signals number at most its ticks, all name that symbol, and none is HOLD |
| Analyzer.NoSignalsDuringWarmUp | analyzer.js:55 | a symbol with fewer than slowWindow prices has had no signal emitted |
| Analyzer.SignalsIsolated | analyzer.js:41-55 | the signals for a symbol are the same with or without the other symbols' ticks interleaved |
| Analyzer.SignalEngine.Valid | analyzer.js:13-51 | the invariant of `stockHistory`: every entry is non-empty, at most slowWindow long, and the window of its symbol's recorded prices |
| Analyzer.SignalEngine.constructor | analyzer.js:13-17 | a new engine holds no history and satisfies the invariant for any 0 < fast < slow |
| Analyzer.SignalEngine.Default | analyzer.js:13-17 | the analyzer's own configuration (5 and 20) with an empty history |
| Analyzer.SignalEngine.Record | analyzer.js:40-51 | creates the entry for a new symbol, appends the price, drops the oldest price past slowWindow; other entries unchanged; invariant kept; for an inherited key it throws and changes nothing |
| Analyzer.SignalEngine.OnTick | analyzer.js:37-89 | records the tick, then returns exactly the Emission of the new window, equal to SignalAt of the extended trace; a first tick leaves [price]; for an inherited key it throws, emits nothing and changes nothing |
| Analyzer.LevelDetectorExample | analyzer.js:55-83 | with windows 2 and 4, a flat window emits nothing, then two consecutive ticks both emit BUY |

## Left out

- `Record` builds the new entry in a local sequence and stores it back, where the source
  pushes to and shifts the stored array in place; nothing else holds that array, so no
  aliasing is lost.
- What happens after a tick throws (analyzer.js:46) is up to the message consumer and is
  not modelled; the engine's state is as before the tick.
- Kafka consumer and producer setup, connection, subscription and `producer.send`
  (analyzer.js:1-9, 26-33, 85-88) are network I/O. A signal is the return value of `OnTick`.
- JSON parsing of the message (analyzer.js:35-36) is not modelled: `OnTick` takes the
  symbol and price as typed inputs. A message without a numeric price is therefore not
  modelled.
- The `new Date().toISOString()` timestamp of a signal (analyzer.js:82) reads the clock
  and is left out of `Signal`. The `console.log` line with `toFixed(2)` (analyzer.js:74) is
  presentation and is left out too.
- IEEE floating-point rounding in the sum and division (analyzer.js:22-23) is not modelled.
  Prices are exact reals, so HOLD means exact equality of the true means. With doubles the
  source can decide otherwise: for twenty prices of 0.1 the fast mean is 0.1 and the slow
  mean is 0.10000000000000002, so the source emits SELL (analyzer.js:70).
  `FlatWindowHolds` and `LevelDetectorExample` hold for exact reals only.
- The window sizes are constructor parameters with `0 < fastWindow < slowWindow`; the
  source fixes them at 5 and 20 (`Default`). JavaScript's `slice(-0)` returning the whole
  array, reachable only with a zero fast window, is therefore not modelled.
- server.js, consumer-influx.js, producer.js and stock-dashboard/src/App.jsx are not part
  of this model (socket relay, database writes, random tick generation, user interface).
