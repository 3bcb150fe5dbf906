/** Per-symbol price history: what the analyzer keeps of the ticks it has received
    (a bounded window of the newest prices) and what it has received in all. */
module History {

  /** One price observation for a symbol, as the analyzer reads it from a message. */
  datatype Tick = Tick(symbol: string, price: real)

  /** The newest `min(|all|, n)` prices of `all`, oldest first. */
  function Window(all: seq<real>, n: nat): (w: seq<real>)
    ensures |w| <= n && |w| <= |all|
    ensures |all| <= n ==> w == all
    ensures |all| >= n ==> |w| == n
  {
    if |all| <= n then all else all[|all| - n..]
  }

  /** The window is exactly the tail of everything received: what precedes it, followed by
      it, is the whole sequence. */
  lemma WindowIsSuffix(all: seq<real>, n: nat)
    ensures var w := Window(all, n); all[..|all| - |w|] + w == all
  {
  }

  /** The push-then-shift step the analyzer applies to a stored window: append the new price
      and, if the window is now one too long, drop its oldest price. */
  function PushTrim(w: seq<real>, p: real, n: nat): (r: seq<real>)
    ensures |r| == if |w| < n then |w| + 1 else |w|
    ensures n > 0 ==> r[|r| - 1] == p
  {
    var pushed := w + [p];
    if |pushed| > n then pushed[1..] else pushed
  }

  /** FIFO: pushing onto the window of everything received so far and trimming gives the
      window of everything received including the new price. */
  lemma WindowPush(all: seq<real>, p: real, n: nat)
    requires n > 0
    ensures PushTrim(Window(all, n), p, n) == Window(all + [p], n)
  {
  }

  /** Every price of `symbol` in the trace, in arrival order. */
  function PricesOf(trace: seq<Tick>, symbol: string): (ps: seq<real>)
    ensures |ps| <= |trace|
  {
    if trace == [] then []
    else
      var last := trace[|trace| - 1];
      PricesOf(trace[..|trace| - 1], symbol) + (if last.symbol == symbol then [last.price] else [])
  }

  /** One more tick adds its price to its own symbol's prices and to no other symbol's. */
  lemma PricesOfStep(trace: seq<Tick>, tick: Tick, symbol: string)
    ensures PricesOf(trace + [tick], symbol)
         == PricesOf(trace, symbol) + (if tick.symbol == symbol then [tick.price] else [])
  {
  }

  /** The ticks of `symbol` alone, in arrival order. */
  function Only(trace: seq<Tick>, symbol: string): (r: seq<Tick>)
    ensures forall i :: 0 <= i < |r| ==> r[i].symbol == symbol
  {
    if trace == [] then []
    else
      var last := trace[|trace| - 1];
      Only(trace[..|trace| - 1], symbol) + (if last.symbol == symbol then [last] else [])
  }

  /** The prices received for a symbol are those of a concatenation's two parts, in order. */
  lemma {:induction false} PricesOfAppend(t: seq<Tick>, u: seq<Tick>, symbol: string)
    ensures PricesOf(t + u, symbol) == PricesOf(t, symbol) + PricesOf(u, symbol)
  {
    if u == [] {
      assert t + u == t;
    } else {
      var u' := u[..|u| - 1];
      assert (t + u)[..|t + u| - 1] == t + u';
      PricesOfAppend(t, u', symbol);
    }
  }

  /** Isolation: ticks of other symbols add nothing to a symbol's prices. */
  lemma {:induction false} PricesOfOthers(u: seq<Tick>, symbol: string)
    requires forall i :: 0 <= i < |u| ==> u[i].symbol != symbol
    ensures PricesOf(u, symbol) == []
  {
    if u != [] {
      PricesOfOthers(u[..|u| - 1], symbol);
    }
  }

  /** Isolation: dropping every other symbol's ticks leaves a symbol's prices as they were. */
  lemma {:induction false} PricesOfOnly(trace: seq<Tick>, symbol: string)
    ensures PricesOf(Only(trace, symbol), symbol) == PricesOf(trace, symbol)
  {
    if trace != [] {
      var init, last := trace[..|trace| - 1], trace[|trace| - 1];
      PricesOfOnly(init, symbol);
      var extra := if last.symbol == symbol then [last] else [];
      PricesOfAppend(Only(init, symbol), extra, symbol);
      assert PricesOf(extra, symbol)
          == (if last.symbol == symbol then [last.price] else []) by {
        if last.symbol == symbol {
          assert extra[..0] == [];
        }
      }
    }
  }

  /** The stored windows agree with a trace: a symbol has an entry exactly when a tick for
      it arrived, and the entry holds the newest `n` of the prices received for it. */
  ghost predicate Tracks(stored: map<string, seq<real>>, trace: seq<Tick>, n: nat)
    ensures Tracks(stored, trace, n) && n > 0 ==> forall s :: s in stored ==> 0 < |stored[s]| <= n
  {
    (forall s :: s in stored <==> PricesOf(trace, s) != []) &&
    (forall s :: s in stored ==> stored[s] == Window(PricesOf(trace, s), n))
  }

  /** Recording a tick the way the analyzer does (push, then trim to `n`, in the tick's own
      entry only) keeps the stored windows in agreement with the trace extended by that tick. */
  lemma RecordKeepsTracks(stored: map<string, seq<real>>, trace: seq<Tick>, n: nat, tick: Tick)
    requires n > 0 && Tracks(stored, trace, n)
    ensures var entry := if tick.symbol in stored then stored[tick.symbol] else [];
            Tracks(stored[tick.symbol := PushTrim(entry, tick.price, n)], trace + [tick], n)
  {
    var entry := if tick.symbol in stored then stored[tick.symbol] else [];
    var stored' := stored[tick.symbol := PushTrim(entry, tick.price, n)];
    var trace' := trace + [tick];
    // The tick's own entry moves one FIFO step.
    PricesOfStep(trace, tick, tick.symbol);
    WindowPush(PricesOf(trace, tick.symbol), tick.price, n);
    assert stored'[tick.symbol] == Window(PricesOf(trace', tick.symbol), n);
    // Every other entry and price list stays as it was.
    forall s
      ensures s in stored' <==> PricesOf(trace', s) != []
      ensures s in stored' ==> stored'[s] == Window(PricesOf(trace', s), n)
    {
      if s != tick.symbol {
        PricesOfStep(trace, tick, s);
        assert PricesOf(trace', s) == PricesOf(trace, s);
        assert s in stored' <==> s in stored;
      }
    }
  }
}
