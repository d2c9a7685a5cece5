/**
 * The two classes of acciones.py: `Accion`, one symbol's price pipeline whose
 * three fields are filled step by step, and `GestorAcciones`, which owns one
 * `Accion` per symbol and runs the pipeline over all of them in list order.
 */
module Acciones {
  import opened Wrappers
  import opened Prices
  import opened Scanner

  /** One symbol's state: its downloaded history, its weekly average and its current price. */
  class Accion {
    const symbol: string
    var data: Option<seq<Price>>
    var weekAverage: Option<Price>
    var currentPrice: Option<Price>

    /** A fresh instrument: nothing fetched, nothing computed. */
    constructor (symbol: string)
      ensures this.symbol == symbol
      ensures data == None && weekAverage == None && currentPrice == None
    {
      this.symbol := symbol;
      data := None;
      weekAverage := None;
      currentPrice := None;
    }

    /**
     * `obtener_datos_diarios`: store the closes downloaded for [start, end).
     * A failed download is logged and leaves the previous history in place.
     */
    method FetchDailyData(start: string, end: string, history: History)
      modifies this`data
      ensures history(symbol, start, end).Fetched? ==> data == Some(history(symbol, start, end).value)
      ensures history(symbol, start, end).Failed? ==> data == old(data)
    {
      match history(symbol, start, end)
      case Fetched(closes) =>
        data := Some(closes);
      case Failed =>
    }

    /** `calcular_precio_promedio`: overwrite the average with the mean of a non-empty history, else with `None`. */
    method ComputeAverage()
      modifies this`weekAverage
      ensures data.Some? && |data.value| > 0 ==> weekAverage == Some(Mean(data.value))
      ensures !(data.Some? && |data.value| > 0) ==> weekAverage == None
    {
      if data.Some? && |data.value| > 0 {
        weekAverage := Some(Mean(data.value));
      } else {
        weekAverage := None;
      }
    }

    /**
     * `obtener_precio_actual`: the last close of today's quote. A failed quote,
     * or an empty one (`iloc[-1]` raises), sets the price to `None`.
     */
    method FetchCurrentPrice(quote: Quote)
      modifies this`currentPrice
      ensures currentPrice.Some? <==> quote(symbol).Fetched? && |quote(symbol).value| > 0
      ensures currentPrice.Some? ==> currentPrice.value == quote(symbol).value[|quote(symbol).value| - 1]
    {
      match quote(symbol)
      case Fetched(closes) =>
        if |closes| > 0 {
          currentPrice := Some(closes[|closes| - 1]);
        } else {
          currentPrice := None;
        }
      case Failed =>
        currentPrice := None;
    }

    /** `comparar_precios`: the row for this instrument, decided on its current fields. */
    method Compare() returns (row: Option<Row>)
      ensures row == Evaluate(symbol, weekAverage, currentPrice)
    {
      row := None;
      if weekAverage.Some? && currentPrice.Some? {
        if currentPrice.value < weekAverage.value {
          var discount := (weekAverage.value - currentPrice.value) / weekAverage.value * 100.0;
          row := Some(Row(symbol, currentPrice.value, weekAverage.value, discount));
        }
      }
    }
  }

  /** The state `accion` is left in by one iteration of the scan loop, from history `prior`. */
  ghost predicate Processed(accion: Accion, prior: Option<seq<Price>>, start: string, end: string,
                            history: History, quote: Quote)
    reads accion
  {
    && accion.data == DataAfterFetch(prior, history(accion.symbol, start, end))
    && accion.weekAverage == AverageOf(accion.data)
    && accion.currentPrice == CurrentOf(quote(accion.symbol))
  }

  /** The scanner: one distinct `Accion` per symbol, in the order of the symbol list. */
  class GestorAcciones {
    var acciones: seq<Accion>

    /** No instrument appears twice, so working on one never disturbs another. */
    ghost predicate Valid()
      reads this
    {
      forall i, j :: 0 <= i < j < |acciones| ==> acciones[i] != acciones[j]
    }

    /** The symbols of the instruments, in list order. */
    function Symbols(): (s: seq<string>)
      reads this
      ensures |s| == |acciones|
      ensures forall i :: 0 <= i < |s| ==> s[i] == acciones[i].symbol
    {
      var a := acciones;
      seq(|a|, i requires 0 <= i < |a| => a[i].symbol)
    }

    /** The instruments' current histories, in list order. */
    function Histories(): (h: seq<Option<seq<Price>>>)
      reads this, acciones
      ensures |h| == |acciones|
      ensures forall i :: 0 <= i < |h| ==> h[i] == acciones[i].data
    {
      var a := acciones;
      seq(|a|, i reads a requires 0 <= i < |a| => a[i].data)
    }

    /** One fresh `Accion` per symbol, in the same order. */
    constructor (symbols: seq<string>)
      ensures Valid() && Symbols() == symbols
      ensures forall i :: 0 <= i < |acciones| ==> fresh(acciones[i])
      ensures forall i :: 0 <= i < |acciones| ==>
                acciones[i].data == None && acciones[i].weekAverage == None && acciones[i].currentPrice == None
    {
      var built: seq<Accion> := [];
      var i := 0;
      while i < |symbols|
        invariant 0 <= i <= |symbols| && |built| == i
        invariant forall k :: 0 <= k < i ==> fresh(built[k]) && built[k].symbol == symbols[k]
        invariant forall k :: 0 <= k < i ==>
                    built[k].data == None && built[k].weekAverage == None && built[k].currentPrice == None
        invariant forall k, l :: 0 <= k < l < i ==> built[k] != built[l]
      {
        var accion := new Accion(symbols[i]);
        built := built + [accion];
        i := i + 1;
      }
      acciones := built;
    }

    /** The body of the scan loop: the four steps on one instrument, and the row it yields. */
    static method RunPipeline(accion: Accion, start: string, end: string, history: History, quote: Quote)
      returns (row: Option<Row>)
      modifies accion
      ensures Processed(accion, old(accion.data), start, end, history, quote)
      ensures row == Pipeline(accion.symbol, old(accion.data), history(accion.symbol, start, end), quote(accion.symbol))
    {
      accion.FetchDailyData(start, end, history);
      accion.ComputeAverage();
      accion.FetchCurrentPrice(quote);
      row := accion.Compare();
    }

    /**
     * One iteration of the scan loop on the instrument at position `i`: it is
     * processed, its row (if any) is appended, and the later instruments are untouched.
     */
    method Step(ghost symbols: seq<string>, ghost priors: seq<Option<seq<Price>>>, start: string, end: string,
                history: History, quote: Quote, i: nat, results: seq<Row>) returns (results': seq<Row>)
      requires Valid() && symbols == Symbols() && |priors| == |symbols| && i < |acciones|
      requires results == Scan(symbols[..i], priors[..i], start, end, history, quote)
      requires forall k :: 0 <= k < i ==> Processed(acciones[k], priors[k], start, end, history, quote)
      requires forall k :: i <= k < |acciones| ==> acciones[k].data == priors[k]
      modifies acciones[i]
      ensures results' == Scan(symbols[..i + 1], priors[..i + 1], start, end, history, quote)
      ensures forall k :: 0 <= k <= i ==> Processed(acciones[k], priors[k], start, end, history, quote)
      ensures forall k :: i < k < |acciones| ==> acciones[k].data == priors[k]
    {
      var row := RunPipeline(acciones[i], start, end, history, quote);
      assert row == Outcome(symbols, priors, start, end, history, quote, i);
      ScanStep(symbols, priors, start, end, history, quote, i);
      results' := results;
      if row.Some? {
        results' := results' + [row.value];
      }
    }

    /**
     * `procesar_acciones`: run the four steps on each instrument in list order and
     * collect the rows it yields. `start` and `end` are the date window, computed
     * from the clock by the caller.
     */
    method Process(start: string, end: string, history: History, quote: Quote) returns (results: seq<Row>)
      requires Valid()
      modifies acciones
      ensures results == Scan(Symbols(), old(Histories()), start, end, history, quote)
      ensures forall i :: 0 <= i < |acciones| ==>
                Processed(acciones[i], old(acciones[i].data), start, end, history, quote)
    {
      ghost var symbols, priors := Symbols(), Histories();
      results := [];
      var i := 0;
      while i < |acciones|
        invariant 0 <= i <= |acciones|
        invariant symbols == Symbols()
        invariant results == Scan(symbols[..i], priors[..i], start, end, history, quote)
        invariant forall k :: 0 <= k < i ==> Processed(acciones[k], priors[k], start, end, history, quote)
        invariant forall k :: i <= k < |acciones| ==> acciones[k].data == priors[k]
      {
        results := Step(symbols, priors, start, end, history, quote, i, results);
        i := i + 1;
      }
      assert symbols[..i] == symbols && priors[..i] == priors;
    }
  }
}
