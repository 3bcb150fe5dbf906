/** The analyzer's per-tick engine: it records each tick's price in the symbol's bounded
    history and, once that history is full, compares the fast and slow moving averages and
    emits a BUY or SELL signal (HOLD is never emitted). */
module Analyzer {
  import opened Averages
  import opened Classifier
  import opened History

  /** The windows the analyzer is configured with. */
  const FastWindow: nat := 5
  const SlowWindow: nat := 20

  datatype Option<T> = None | Some(value: T)

  /** The names of the members every plain JavaScript object inherits from
      `Object.prototype`. The history object is a plain object, so looking one of these
      symbols up in it finds the inherited member instead of `undefined`. */
  const InheritedKeys: set<string> := {
    "constructor", "__proto__", "__defineGetter__", "__defineSetter__",
    "__lookupGetter__", "__lookupSetter__", "hasOwnProperty", "isPrototypeOf",
    "propertyIsEnumerable", "toLocaleString", "toString", "valueOf"
  }

  /** A trade signal as handed to the signal topic; its timestamp is not modelled. */
  datatype Signal = Signal(symbol: string, direction: Direction, price: real)

  /** What one tick emits, given the symbol's stored window after the tick was recorded:
      nothing before the window is full or on HOLD, otherwise the direction with the
      tick's own symbol and price. */
  function Emission(window: seq<real>, symbol: string, price: real, fastWindow: nat, slowWindow: nat)
    : (r: Option<Signal>)
    requires 0 < fastWindow < slowWindow
    ensures r.Some? <==> |window| >= slowWindow && Decide(window, fastWindow) != Hold
    ensures r.Some? ==> r.value.symbol == symbol && r.value.price == price
    ensures r.Some? ==> r.value.direction == Decide(window, fastWindow)
    ensures r.Some? ==> r.value.direction == Buy || r.value.direction == Sell
  {
    if |window| >= slowWindow then
      var direction := Decide(window, fastWindow);
      if direction != Hold then Some(Signal(symbol, direction, price)) else None
    else
      None
  }

  /** What the last tick of a trace emits. Warm-up gating: nothing is emitted before the
      tick's symbol has received `slowWindow` prices. */
  function SignalAt(trace: seq<Tick>, fastWindow: nat, slowWindow: nat): (r: Option<Signal>)
    requires trace != [] && 0 < fastWindow < slowWindow
    ensures r.Some? ==> |PricesOf(trace, trace[|trace| - 1].symbol)| >= slowWindow
    ensures r.Some? ==> r.value.symbol == trace[|trace| - 1].symbol
    ensures r.Some? ==> r.value.price == trace[|trace| - 1].price
  {
    var last := trace[|trace| - 1];
    Emission(Window(PricesOf(trace, last.symbol), slowWindow), last.symbol, last.price, fastWindow, slowWindow)
  }

  /** The signals the analyzer emits for `symbol` over a whole trace, in order. */
  function SignalsFor(trace: seq<Tick>, symbol: string, fastWindow: nat, slowWindow: nat)
    : (r: seq<Signal>)
    requires 0 < fastWindow < slowWindow
    ensures |r| <= |PricesOf(trace, symbol)|
    ensures forall i :: 0 <= i < |r| ==> r[i].symbol == symbol && r[i].direction != Hold
  {
    if trace == [] then []
    else
      var init, last := trace[..|trace| - 1], trace[|trace| - 1];
      var earlier := SignalsFor(init, symbol, fastWindow, slowWindow);
      if last.symbol != symbol then earlier
      else
        match SignalAt(trace, fastWindow, slowWindow)
        case None => earlier
        case Some(s) => earlier + [s]
  }

  /** Warm-up gating over a whole trace: a symbol that has received fewer than
      `slowWindow` prices has had no signal emitted. */
  lemma {:induction false} NoSignalsDuringWarmUp(trace: seq<Tick>, symbol: string, fastWindow: nat, slowWindow: nat)
    requires 0 < fastWindow < slowWindow
    requires |PricesOf(trace, symbol)| < slowWindow
    ensures SignalsFor(trace, symbol, fastWindow, slowWindow) == []
  {
    if trace != [] {
      var init := trace[..|trace| - 1];
      assert |PricesOf(init, symbol)| <= |PricesOf(trace, symbol)|;
      NoSignalsDuringWarmUp(init, symbol, fastWindow, slowWindow);
    }
  }

  /** Per-symbol isolation: the signals emitted for a symbol depend only on that symbol's
      own ticks, whatever ticks of other symbols are interleaved with them. */
  lemma {:induction false} SignalsIsolated(trace: seq<Tick>, symbol: string, fastWindow: nat, slowWindow: nat)
    requires 0 < fastWindow < slowWindow
    ensures SignalsFor(Only(trace, symbol), symbol, fastWindow, slowWindow)
         == SignalsFor(trace, symbol, fastWindow, slowWindow)
  {
    if trace != [] {
      var init, last := trace[..|trace| - 1], trace[|trace| - 1];
      SignalsIsolated(init, symbol, fastWindow, slowWindow);
      if last.symbol == symbol {
        var only := Only(trace, symbol);
        assert only == Only(init, symbol) + [last];
        assert only[..|only| - 1] == Only(init, symbol);
        PricesOfOnly(trace, symbol);
        assert SignalAt(only, fastWindow, slowWindow) == SignalAt(trace, fastWindow, slowWindow);
      } else {
        assert Only(trace, symbol) == Only(init, symbol);
      }
    }
  }

  /** The analyzer's in-memory state: the bounded price history of every symbol seen. */
  class SignalEngine {
    const fastWindow: nat
    const slowWindow: nat
    /** Symbol to its newest prices, oldest first (the `stockHistory` object). */
    var history: map<string, seq<real>>
    /** Every tick recorded so far, across all symbols, in arrival order. */
    ghost var trace: seq<Tick>

    /** A symbol has an entry exactly when a recorded tick for it arrived, and the entry
        holds the newest `slowWindow` of the prices recorded for it; so every entry is
        non-empty and at most `slowWindow` long. No recorded tick names an inherited key. */
    ghost predicate Valid()
      reads this
      ensures Valid() ==> forall s :: s in history ==> 0 < |history[s]| <= slowWindow
    {
      0 < fastWindow < slowWindow && Tracks(history, trace, slowWindow) &&
      forall t :: t in trace ==> t.symbol !in InheritedKeys
    }

    constructor (fastWindow: nat, slowWindow: nat)
      requires 0 < fastWindow < slowWindow
      ensures Valid()
      ensures this.fastWindow == fastWindow && this.slowWindow == slowWindow
      ensures history == map[] && trace == []
    {
      this.fastWindow := fastWindow;
      this.slowWindow := slowWindow;
      history := map[];
      trace := [];
    }

    /** The engine with the analyzer's own configuration, 5 and 20. */
    constructor Default()
      ensures Valid()
      ensures fastWindow == FastWindow && slowWindow == SlowWindow
      ensures history == map[] && trace == []
    {
      fastWindow := FastWindow;
      slowWindow := SlowWindow;
      history := map[];
      trace := [];
    }

    /** Records one tick's price: creates the symbol's entry on its first tick, appends the
        price, and drops the oldest price once the entry holds more than `slowWindow`.
        For an inherited key the lookup finds the inherited member, which is truthy, so no
        entry is created and the append throws: `threw` is set and nothing changes. */
    method Record(symbol: string, price: real) returns (threw: bool)
      requires Valid()
      modifies this
      ensures Valid()
      ensures threw == (symbol in InheritedKeys)
      ensures threw ==> history == old(history) && trace == old(trace)
      ensures !threw ==> trace == old(trace) + [Tick(symbol, price)]
      ensures !threw ==> symbol in history
      ensures !threw ==>
                history[symbol] == PushTrim(if symbol in old(history) then old(history)[symbol] else [],
                                            price, slowWindow)
      ensures !threw ==> history == old(history)[symbol := history[symbol]]
      ensures !threw && symbol !in old(history) ==> history[symbol] == [price]
    {
      if symbol in InheritedKeys {
        return true;
      }
      threw := false;
      RecordKeepsTracks(history, trace, slowWindow, Tick(symbol, price));
      // The entry of a symbol seen for the first time starts empty.
      var prices := if symbol in history then history[symbol] else [];
      // Append the new price.
      prices := prices + [price];
      // Keep only the newest `slowWindow` prices.
      if |prices| > slowWindow {
        prices := prices[1..];
      }
      history := history[symbol := prices];
      trace := trace + [Tick(symbol, price)];
    }

    /** Handles one tick: records its price, and once the symbol's window is full returns
        the BUY or SELL signal the averages give (nothing on HOLD). A tick whose recording
        throws changes nothing and emits nothing. */
    method OnTick(symbol: string, price: real) returns (out: Option<Signal>, threw: bool)
      requires Valid()
      modifies this
      ensures Valid()
      ensures threw == (symbol in InheritedKeys)
      ensures threw ==> out == None && history == old(history) && trace == old(trace)
      ensures !threw ==> trace == old(trace) + [Tick(symbol, price)]
      ensures !threw ==> symbol in history
      ensures !threw ==>
                history[symbol] == PushTrim(if symbol in old(history) then old(history)[symbol] else [],
                                            price, slowWindow)
      ensures !threw ==> history == old(history)[symbol := history[symbol]]
      ensures !threw && symbol !in old(history) ==> history[symbol] == [price]
      ensures !threw ==> out == Emission(history[symbol], symbol, price, fastWindow, slowWindow)
      ensures !threw ==> out == SignalAt(trace, fastWindow, slowWindow)
    {
      out := None;
      threw := Record(symbol, price);
      if threw {
        return;
      }
      var window := history[symbol];
      assert window == Window(PricesOf(trace, symbol), slowWindow);
      if |window| >= slowWindow {
        var fastMean := Average(window[|window| - fastWindow..]);
        var slowMean := Average(window);
        var direction := Classify(fastMean, slowMean);
        if direction != Hold {
          out := Some(Signal(symbol, direction, price));
        }
      }
    }
  }

  /** Windows 2 and 4, symbol X: a flat full window gives no signal; pushing 20 gives
      fast 15 over slow 12.5 and BUY; pushing 5 next gives fast 12.5 over slow 11.25 and BUY
      again, since the decision is a level comparison made afresh on every warm tick. */
  lemma LevelDetectorExample()
    ensures Emission([10.0, 10.0, 10.0, 10.0], "X", 10.0, 2, 4) == None
    ensures PushTrim([10.0, 10.0, 10.0, 10.0], 20.0, 4) == [10.0, 10.0, 10.0, 20.0]
    ensures Emission([10.0, 10.0, 10.0, 20.0], "X", 20.0, 2, 4) == Some(Signal("X", Buy, 20.0))
    ensures PushTrim([10.0, 10.0, 10.0, 20.0], 5.0, 4) == [10.0, 10.0, 20.0, 5.0]
    ensures Emission([10.0, 10.0, 20.0, 5.0], "X", 5.0, 2, 4) == Some(Signal("X", Buy, 5.0))
  {
    FlatWindowHolds([10.0, 10.0, 10.0, 10.0], 2, 10.0);
    var w := [10.0, 10.0, 10.0, 20.0];
    assert Recent(w, 2) == [10.0, 20.0];
    assert Average([10.0, 20.0]) == 15.0 by { SumAppend([10.0], [20.0]); }
    assert Average(w) == 12.5 by { SumOfFour(10.0, 10.0, 10.0, 20.0); }
    w := [10.0, 10.0, 20.0, 5.0];
    assert Recent(w, 2) == [20.0, 5.0];
    assert Average([20.0, 5.0]) == 12.5 by { SumAppend([20.0], [5.0]); }
    assert Average(w) == 11.25 by { SumOfFour(10.0, 10.0, 20.0, 5.0); }
  }

  lemma SumOfFour(a: real, b: real, c: real, d: real)
    ensures Sum([a, b, c, d]) == a + b + c + d
  {
    assert [a][..0] == [];
    assert Sum([a]) == a;
    assert [a, b][..1] == [a];
    assert Sum([a, b]) == a + b;
    assert [a, b, c][..2] == [a, b];
    assert Sum([a, b, c]) == a + b + c;
    assert [a, b, c, d][..3] == [a, b, c];
  }
}
