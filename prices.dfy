/**
 * The per-symbol price logic of `Accion` (acciones.py), stated over values:
 * what each of the three steps leaves in the instrument's fields, and the
 * decision rule that turns an instrument into a result row.
 */
module Prices {
  import opened Wrappers

  /** A closing price as the price source reports it: never negative. */
  type Price = r: real | 0.0 <= r

  /** One result row `[symbol, current price, weekly average, discount %]`. */
  datatype Row = Row(symbol: string, current: Price, average: Price, discount: real)

  /** Sum of a series of closes. */
  function Sum(closes: seq<Price>): (r: real)
    ensures 0.0 <= r
  {
    if closes == [] then 0.0 else Sum(closes[..|closes| - 1]) + closes[|closes| - 1]
  }

  /** The arithmetic mean of a non-empty series of closes (pandas `Series.mean`). */
  function Mean(closes: seq<Price>): (r: Price)
    requires |closes| > 0
    ensures r * (|closes| as real) == Sum(closes)
    ensures |closes| == 1 ==> r == closes[0]
  {
    Sum(closes) / (|closes| as real)
  }

  lemma {:induction false} SumAtMost(closes: seq<Price>, hi: real)
    requires forall i :: 0 <= i < |closes| ==> closes[i] <= hi
    ensures Sum(closes) <= (|closes| as real) * hi
  {
    if closes != [] {
      var m := |closes| - 1;
      SumAtMost(closes[..m], hi);
      assert (m as real + 1.0) * hi == (m as real) * hi + hi;
    }
  }

  lemma {:induction false} SumAtLeast(closes: seq<Price>, lo: real)
    requires forall i :: 0 <= i < |closes| ==> lo <= closes[i]
    ensures (|closes| as real) * lo <= Sum(closes)
  {
    if closes != [] {
      var m := |closes| - 1;
      SumAtLeast(closes[..m], lo);
      assert (m as real + 1.0) * lo == (m as real) * lo + lo;
    }
  }

  /** The mean lies between the smallest and the largest close of the series. */
  lemma MeanBetween(closes: seq<Price>, lo: real, hi: real)
    requires |closes| > 0
    requires forall i :: 0 <= i < |closes| ==> lo <= closes[i] <= hi
    ensures lo <= Mean(closes) <= hi
  {
    SumAtMost(closes, hi);
    SumAtLeast(closes, lo);
    var n := |closes| as real;
    assert Sum(closes) / n <= hi by {
      assert Sum(closes) <= n * hi;
    }
    assert lo <= Sum(closes) / n by {
      assert n * lo <= Sum(closes);
    }
  }

  /** The history after `obtener_datos_diarios`: replaced on success, kept on a caught failure. */
  function DataAfterFetch(prior: Option<seq<Price>>, fetched: Fetch<seq<Price>>): (r: Option<seq<Price>>)
    ensures fetched.Fetched? ==> r == Some(fetched.value)
    ensures fetched.Failed? ==> r == prior
    ensures prior.Some? ==> r.Some?
  {
    match fetched
    case Fetched(closes) => Some(closes)
    case Failed => prior
  }

  /** The weekly average `calcular_precio_promedio` stores for a given history. */
  function AverageOf(data: Option<seq<Price>>): (r: Option<Price>)
    ensures r.Some? <==> data.Some? && |data.value| > 0
    ensures r.Some? ==> r.value == Mean(data.value)
  {
    if data.Some? && |data.value| > 0 then Some(Mean(data.value)) else None
  }

  /** The current price `obtener_precio_actual` stores for the one-day quote it received. */
  function CurrentOf(quote: Fetch<seq<Price>>): (r: Option<Price>)
    ensures r.Some? <==> quote.Fetched? && |quote.value| > 0
    ensures r.Some? ==> r.value == quote.value[|quote.value| - 1]
  {
    match quote
    case Fetched(closes) => if |closes| > 0 then Some(closes[|closes| - 1]) else None
    case Failed => None
  }

  /** A row qualifies: the current price is strictly below the average and the discount is the percentage gap. */
  predicate Qualifies(row: Row)
  {
    row.current < row.average
    && row.discount == (row.average - row.current) / row.average * 100.0
  }

  /** The decision rule of `comparar_precios`. */
  function Evaluate(symbol: string, average: Option<Price>, current: Option<Price>): (r: Option<Row>)
    ensures r.Some? <==> average.Some? && current.Some? && current.value < average.value
    ensures r.Some? ==> r.value.symbol == symbol && r.value.current == current.value
                        && r.value.average == average.value && Qualifies(r.value)
  {
    if average.Some? && current.Some? && current.value < average.value then
      Some(Row(symbol, current.value, average.value,
               (average.value - current.value) / average.value * 100.0))
    else
      None
  }

  /** A qualifying row's discount is a genuine percentage in (0, 100], and gives back the current price. */
  lemma QualifyingDiscount(row: Row)
    requires Qualifies(row)
    ensures 0.0 < row.discount <= 100.0
    ensures row.current == row.average * (100.0 - row.discount) / 100.0
  {
    var a, c := row.average, row.current;
    assert a > 0.0;
    assert (a - c) / a <= 1.0 by {
      assert a - c <= a;
    }
    assert row.discount * a == (a - c) * 100.0;
  }

  /** The four steps of one loop iteration of `procesar_acciones`, from the instrument's prior history. */
  function Pipeline(symbol: string, prior: Option<seq<Price>>, history: Fetch<seq<Price>>,
                    quote: Fetch<seq<Price>>): (r: Option<Row>)
    ensures r.Some? ==> r.value.symbol == symbol && Qualifies(r.value)
    ensures r.Some? ==> prior.Some? || history.Fetched?
    ensures quote.Failed? ==> r == None
  {
    Evaluate(symbol, AverageOf(DataAfterFetch(prior, history)), CurrentOf(quote))
  }

  /** When a symbol yields a row: it has a non-empty history and a quote, and the quote's last close is below the mean. */
  lemma PipelineRow(symbol: string, prior: Option<seq<Price>>, history: Fetch<seq<Price>>,
                    quote: Fetch<seq<Price>>)
    ensures var data := DataAfterFetch(prior, history);
            Pipeline(symbol, prior, history, quote).Some? <==>
              data.Some? && |data.value| > 0 && quote.Fetched? && |quote.value| > 0
              && quote.value[|quote.value| - 1] < Mean(data.value)
  {
  }

  /** On a fresh instrument a failed history download leaves no average, so the symbol is excluded whatever its quote. */
  lemma FreshHistoryFailureExcluded(symbol: string, quote: Fetch<seq<Price>>)
    ensures Pipeline(symbol, None, Failed, quote) == None
  {
  }

  /**
   * A worked case: closes 100, 110 and 105 over the week average 105; a quote
   * closing at 95 is 200/21 (about 9.52) percent below it.
   */
  lemma PipelineExample()
    ensures Pipeline("XYZ", None, Fetched([100.0, 110.0, 105.0]), Fetched([95.0]))
            == Some(Row("XYZ", 95.0, 105.0, 200.0 / 21.0))
  {
    var closes: seq<Price> := [100.0, 110.0, 105.0];
    assert closes[..2][..1] == [100.0] && closes[..2][..1][..0] == [];
    assert Sum(closes[..2][..1]) == 100.0;
    assert Sum(closes[..2]) == 210.0;
    assert Sum(closes) == 315.0;
  }

  /** A quote closing exactly at the week average yields no row: the comparison is strict. */
  lemma PipelineExampleEqual()
    ensures Pipeline("ABC", None, Fetched([100.0, 110.0, 105.0]), Fetched([104.0, 105.0])) == None
  {
    var closes: seq<Price> := [100.0, 110.0, 105.0];
    assert closes[..2][..1] == [100.0] && closes[..2][..1][..0] == [];
    assert Sum(closes[..2][..1]) == 100.0;
    assert Sum(closes[..2]) == 210.0;
    assert Sum(closes) == 315.0;
  }

  /** A quote closing above the week average yields no row. */
  lemma PipelineExampleAbove()
    ensures Pipeline("ABC", None, Fetched([100.0, 110.0, 105.0]), Fetched([120.0])) == None
  {
    var closes: seq<Price> := [100.0, 110.0, 105.0];
    assert closes[..2][..1] == [100.0] && closes[..2][..1][..0] == [];
    assert Sum(closes[..2][..1]) == 100.0;
    assert Sum(closes[..2]) == 210.0;
    assert Sum(closes) == 315.0;
  }
}
