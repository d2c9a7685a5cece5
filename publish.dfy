/**
 * The report step of `main` (acciones.py): when some instrument trades below its
 * weekly average, rank the rows, splice the rendered table between the report's
 * markers and chart the five largest discounts; otherwise do neither.
 */
module Publish {
  import opened Wrappers
  import opened Prices
  import opened Ranking
  import opened Report
  import opened Scanner

  /** The table renderer (`tabulate(..., tablefmt="html")`), taken as a parameter. */
  type Render = seq<Row> -> string

  /** What one run of the report step does. */
  datatype Run =
    | NoneBelowAverage
      // the splice raised: the report file is not rewritten and nothing is charted
    | ReportFailed(error: SpliceError)
      // the ranked rows, the rewritten report and the rows whose symbols are charted
    | Reported(ranked: seq<Row>, document: string, chart: seq<Row>)

  /**
   * The report step on the rows of one scan and the current content of the
   * report file.
   */
  function Publish(results: seq<Row>, document: string, render: Render): (run: Run)
    ensures run.NoneBelowAverage? <==> results == []
    ensures run.ReportFailed? <==> results != [] && forall k :: !Occurs(document, EndMarker, k)
    ensures run.Reported? ==>
              multiset(run.ranked) == multiset(results)
              && |run.ranked| == |results|
              && SortedByDiscount(run.ranked)
              && |run.chart| == (if |results| < 5 then |results| else 5)
              && run.chart == run.ranked[..|run.chart|]
              && Splice(document, render(run.ranked), StartMarker, EndMarker) == Ok(run.document)
  {
    if results == [] then
      NoneBelowAverage
    else
      var ranked := Rank(results);
      RankSorted(results);
      assert |ranked| == |multiset(ranked)| == |multiset(results)| == |results|;
      match Splice(document, render(ranked), StartMarker, EndMarker)
      case Err(e) => ReportFailed(e)
      case Ok(updated) => Reported(ranked, updated, TopFive(ranked))
  }

  /** Rows of equal discount are reported in the order the scan produced them. */
  lemma PublishStable(results: seq<Row>, document: string, render: Render, d: real)
    ensures var run := Publish(results, document, render);
            run.Reported? ==> WithDiscount(run.ranked, d) == WithDiscount(results, d)
  {
    RankStable(results, d);
  }

  /** Every charted row has at least the discount of every row left out of the chart. */
  lemma PublishChartLargest(results: seq<Row>, document: string, render: Render)
    ensures var run := Publish(results, document, render);
            run.Reported? ==>
              forall x, y :: x in run.chart && y in run.ranked[|run.chart|..] ==> x.discount >= y.discount
  {
    if results != [] {
      RankSorted(results);
      TopFiveLargest(Rank(results));
    }
  }

  /**
   * On a report with one start marker followed by one end marker, the step keeps
   * everything outside the markers and puts the freshly rendered table between them.
   */
  lemma PublishDocument(results: seq<Row>, document: string, render: Render, i: nat, j: nat)
    requires results != []
    requires OnlyAt(document, StartMarker, i) && OnlyAt(document, EndMarker, j)
    requires i + |StartMarker| <= j
    ensures var run := Publish(results, document, render);
            run.Reported?
            && run.document == document[..i] + StartMarker + "\n" + render(run.ranked) + "\n"
                               + EndMarker + document[j + |EndMarker|..]
  {
    SpliceWellFormed(document, render(Rank(results)), StartMarker, EndMarker, i, j);
  }

  /**
   * A report without a start marker is not refused: the whole old content is kept
   * in front of the new table, and what followed the end marker after it.
   */
  lemma PublishMissingStart(results: seq<Row>, document: string, render: Render, j: nat)
    requires results != []
    requires forall k :: !Occurs(document, StartMarker, k)
    requires OnlyAt(document, EndMarker, j)
    ensures var run := Publish(results, document, render);
            run.Reported?
            && run.document == document + StartMarker + "\n" + render(run.ranked) + "\n"
                               + EndMarker + document[j + |EndMarker|..]
  {
    SpliceMissingStart(document, render(Rank(results)), StartMarker, EndMarker, j);
  }

  /**
   * Running the step twice on the same rows gives the same report as running it
   * once, provided the rendered table contains neither marker.
   */
  lemma PublishIdempotent(results: seq<Row>, document: string, render: Render, i: nat, j: nat)
    requires results != []
    requires OnlyAt(document, StartMarker, i) && OnlyAt(document, EndMarker, j)
    requires i + |StartMarker| <= j
    requires forall k :: !Occurs(render(Rank(results)), StartMarker, k)
                         && !Occurs(render(Rank(results)), EndMarker, k)
    ensures var once := Publish(results, document, render);
            once.Reported? && Publish(results, once.document, render) == once
  {
    var table := render(Rank(results));
    ReportMarkersOneLine();
    SpliceIdempotent(document, table, StartMarker, EndMarker, i, j);
  }

  /**
   * End to end: the step reports "no instrument below its average" exactly when
   * no scanned symbol yields a row, and every ranked row belongs to a scanned
   * symbol and trades below its weekly average by the discount it shows.
   */
  lemma {:induction false} PublishScan(symbols: seq<string>, priors: seq<Option<seq<Price>>>,
                                       start: string, end: string, history: History, quote: Quote,
                                       document: string, render: Render)
    requires |priors| == |symbols|
    ensures var run := Publish(Scan(symbols, priors, start, end, history, quote), document, render);
            (run.NoneBelowAverage? <==>
               forall i :: 0 <= i < |symbols| ==> Outcome(symbols, priors, start, end, history, quote, i).None?)
            && (run.Reported? ==>
                  forall row :: row in run.ranked ==> row.symbol in symbols && Qualifies(row))
  {
    var rows := Scan(symbols, priors, start, end, history, quote);
    var idx := Picks(symbols, priors, start, end, history, quote);
    ScanIsFilterMap(symbols, priors, start, end, history, quote);
    if rows != [] {
      assert Outcome(symbols, priors, start, end, history, quote, idx[0]).Some?;
    }
    var run := Publish(rows, document, render);
    if run.Reported? {
      forall row | row in run.ranked
        ensures row.symbol in symbols && Qualifies(row)
      {
        assert row in multiset(run.ranked);
      }
    }
  }
}
