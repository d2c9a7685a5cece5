/**
 * What one run of `GestorAcciones.procesar_acciones` returns, as a function of
 * the symbols, the instruments' histories before the run, the date window and
 * the answers of the price source.
 */
module Scanner {
  import opened Wrappers
  import opened Prices

  /** The history download: symbol, start date and end date to the closes in that window, or a failure. */
  type History = (string, string, string) -> Fetch<seq<Price>>

  /** The one-day quote: symbol to that day's closes, or a failure. */
  type Quote = string -> Fetch<seq<Price>>

  /** The row (if any) that the instrument at position `i` contributes. */
  function Outcome(symbols: seq<string>, priors: seq<Option<seq<Price>>>, start: string, end: string,
                   history: History, quote: Quote, i: nat): Option<Row>
    requires |priors| == |symbols| && i < |symbols|
  {
    Pipeline(symbols[i], priors[i], history(symbols[i], start, end), quote(symbols[i]))
  }

  /**
   * The rows in symbol order, each non-`None` outcome appended as the loop meets it;
   * there are at most as many rows as symbols.
   */
  function Scan(symbols: seq<string>, priors: seq<Option<seq<Price>>>, start: string, end: string,
                history: History, quote: Quote): (rows: seq<Row>)
    requires |priors| == |symbols|
    ensures |rows| <= |symbols|
  {
    if symbols == [] then []
    else
      var n := |symbols| - 1;
      Scan(symbols[..n], priors[..n], start, end, history, quote)
      + match Outcome(symbols, priors, start, end, history, quote, n)
        case Some(row) => [row]
        case None => []
  }

  /** One more loop iteration appends the outcome of the next symbol, if it has one. */
  lemma ScanStep(symbols: seq<string>, priors: seq<Option<seq<Price>>>, start: string, end: string,
                 history: History, quote: Quote, i: nat)
    requires |priors| == |symbols| && i < |symbols|
    ensures Scan(symbols[..i + 1], priors[..i + 1], start, end, history, quote)
            == Scan(symbols[..i], priors[..i], start, end, history, quote)
               + match Outcome(symbols, priors, start, end, history, quote, i)
                 case Some(row) => [row]
                 case None => []
  {
    assert symbols[..i + 1][..i] == symbols[..i] && priors[..i + 1][..i] == priors[..i];
  }

  /** Cutting the symbol list after position `n` leaves the outcomes before `n` unchanged. */
  lemma OutcomePrefix(symbols: seq<string>, priors: seq<Option<seq<Price>>>, start: string, end: string,
                      history: History, quote: Quote, n: nat)
    requires |priors| == |symbols| && n <= |symbols|
    ensures forall i :: 0 <= i < n ==>
              Outcome(symbols[..n], priors[..n], start, end, history, quote, i)
              == Outcome(symbols, priors, start, end, history, quote, i)
  {
  }

  /** The positions of the symbols that yield a row, in increasing order. */
  function Picks(symbols: seq<string>, priors: seq<Option<seq<Price>>>, start: string, end: string,
                 history: History, quote: Quote): (idx: seq<nat>)
    requires |priors| == |symbols|
    ensures forall k :: 0 <= k < |idx| ==> idx[k] < |symbols|
    ensures forall k, l :: 0 <= k < l < |idx| ==> idx[k] < idx[l]
    ensures forall i :: 0 <= i < |symbols| ==>
              (Outcome(symbols, priors, start, end, history, quote, i).Some? <==> i in idx)
  {
    if symbols == [] then []
    else
      var n := |symbols| - 1;
      var front := Picks(symbols[..n], priors[..n], start, end, history, quote);
      OutcomePrefix(symbols, priors, start, end, history, quote, n);
      front + if Outcome(symbols, priors, start, end, history, quote, n).Some? then [n] else []
  }

  /**
   * The scan is an order-preserving filter-map: its k-th row is the outcome of
   * the k-th qualifying symbol, and every qualifying symbol is represented.
   */
  lemma {:induction false} ScanIsFilterMap(symbols: seq<string>, priors: seq<Option<seq<Price>>>,
                                           start: string, end: string, history: History, quote: Quote)
    requires |priors| == |symbols|
    ensures var rows, idx := Scan(symbols, priors, start, end, history, quote),
                             Picks(symbols, priors, start, end, history, quote);
            |rows| == |idx|
            && forall k :: 0 <= k < |rows| ==>
                 Outcome(symbols, priors, start, end, history, quote, idx[k]) == Some(rows[k])
  {
    if symbols != [] {
      var n := |symbols| - 1;
      ScanIsFilterMap(symbols[..n], priors[..n], start, end, history, quote);
      OutcomePrefix(symbols, priors, start, end, history, quote, n);
      var front := Scan(symbols[..n], priors[..n], start, end, history, quote);
      var picked := Picks(symbols[..n], priors[..n], start, end, history, quote);
      assert Scan(symbols, priors, start, end, history, quote) == front
        + match Outcome(symbols, priors, start, end, history, quote, n)
          case Some(row) => [row]
          case None => [];
      assert Picks(symbols, priors, start, end, history, quote) == picked
        + if Outcome(symbols, priors, start, end, history, quote, n).Some? then [n] else [];
    }
  }

  /** Every row belongs to one of the scanned symbols and qualifies. */
  lemma ScanRows(symbols: seq<string>, priors: seq<Option<seq<Price>>>, start: string, end: string,
                 history: History, quote: Quote)
    requires |priors| == |symbols|
    ensures var rows := Scan(symbols, priors, start, end, history, quote);
            forall row :: row in rows ==> row.symbol in symbols && Qualifies(row)
  {
    var rows, idx := Scan(symbols, priors, start, end, history, quote),
                     Picks(symbols, priors, start, end, history, quote);
    ScanIsFilterMap(symbols, priors, start, end, history, quote);
    forall row | row in rows
      ensures row.symbol in symbols && Qualifies(row)
    {
      var k :| 0 <= k < |rows| && rows[k] == row;
      assert symbols[idx[k]] in symbols;
    }
  }

  /**
   * Isolation: a symbol's row depends only on that symbol's own fetches. Whatever
   * the price source answers (or fails to answer) for the other symbols, the row is in the result.
   */
  lemma ScanIsolation(symbols: seq<string>, priors: seq<Option<seq<Price>>>, start: string, end: string,
                      history: History, quote: Quote, history': History, quote': Quote, i: nat)
    requires |priors| == |symbols| && i < |symbols|
    requires history'(symbols[i], start, end) == history(symbols[i], start, end)
    requires quote'(symbols[i]) == quote(symbols[i])
    requires Outcome(symbols, priors, start, end, history, quote, i).Some?
    ensures Outcome(symbols, priors, start, end, history, quote, i).value
            in Scan(symbols, priors, start, end, history', quote')
  {
    var rows, idx := Scan(symbols, priors, start, end, history', quote'),
                     Picks(symbols, priors, start, end, history', quote');
    ScanIsFilterMap(symbols, priors, start, end, history', quote');
    assert i in idx;
    var k :| 0 <= k < |idx| && idx[k] == i;
    assert rows[k] == Outcome(symbols, priors, start, end, history, quote, i).value;
  }
}
