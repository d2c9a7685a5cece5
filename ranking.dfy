/**
 * The ordering step of `main` (acciones.py): `sorted(resultados, key=lambda x: x[3],
 * reverse=True)`, a stable sort by discount, largest first, and the `[:5]` slice
 * that chooses the symbols to chart.
 */
module Ranking {
  import opened Prices

  /** Non-increasing in the discount column. */
  ghost predicate SortedByDiscount(rows: seq<Row>)
  {
    forall i, j :: 0 <= i < j < |rows| ==> rows[i].discount >= rows[j].discount
  }

  /** The rows whose discount is exactly `d`, in their order of appearance. */
  function WithDiscount(rows: seq<Row>, d: real): seq<Row>
  {
    if rows == [] then []
    else (if rows[0].discount == d then [rows[0]] else []) + WithDiscount(rows[1..], d)
  }

  /**
   * Put `row` in front of the first row whose discount is not larger, so that it
   * precedes every row of equal discount.
   */
  function Insert(row: Row, ranked: seq<Row>): (r: seq<Row>)
    ensures multiset(r) == multiset(ranked) + multiset{row}
  {
    if ranked == [] || row.discount >= ranked[0].discount then
      [row] + ranked
    else
      assert ranked == [ranked[0]] + ranked[1..];
      [ranked[0]] + Insert(row, ranked[1..])
  }

  /** Inserting into a ranked list gives a ranked list. */
  lemma {:induction false} InsertSorted(row: Row, ranked: seq<Row>)
    requires SortedByDiscount(ranked)
    ensures SortedByDiscount(Insert(row, ranked))
  {
    if ranked != [] && row.discount < ranked[0].discount {
      var head, rest := ranked[0], Insert(row, ranked[1..]);
      InsertSorted(row, ranked[1..]);
      forall x | x in rest
        ensures x.discount <= head.discount
      {
        assert x in multiset(rest);
        if x != row {
          assert x in ranked[1..];
        }
      }
      ConsSorted(head, rest);
    }
  }

  /** A ranked list stays ranked under a head whose discount is at least every other row's. */
  lemma ConsSorted(head: Row, rest: seq<Row>)
    requires SortedByDiscount(rest)
    requires forall x :: x in rest ==> x.discount <= head.discount
    ensures SortedByDiscount([head] + rest)
  {
    var r := [head] + rest;
    forall i, j | 0 <= i < j < |r|
      ensures r[i].discount >= r[j].discount
    {
      assert r[j] == rest[j - 1];
      if i > 0 {
        assert r[i] == rest[i - 1];
      }
    }
  }

  /** The ranked result list: the rows by discount, largest first, equal discounts in their original order. */
  function Rank(rows: seq<Row>): (r: seq<Row>)
    ensures multiset(r) == multiset(rows)
  {
    if rows == [] then []
    else
      assert rows == [rows[0]] + rows[1..];
      Insert(rows[0], Rank(rows[1..]))
  }

  /** The ranked list is ordered by discount, largest first. */
  lemma {:induction false} RankSorted(rows: seq<Row>)
    ensures SortedByDiscount(Rank(rows))
  {
    if rows != [] {
      RankSorted(rows[1..]);
      InsertSorted(rows[0], Rank(rows[1..]));
    }
  }

  /** Inserting a row adds it in front of the rows of equal discount and leaves the others' relative order alone. */
  lemma {:induction false} InsertStable(row: Row, ranked: seq<Row>, d: real)
    ensures WithDiscount(Insert(row, ranked), d)
            == (if row.discount == d then [row] else []) + WithDiscount(ranked, d)
  {
    if ranked == [] || row.discount >= ranked[0].discount {
      assert ([row] + ranked)[1..] == ranked;
    } else {
      var rest := Insert(row, ranked[1..]);
      InsertStable(row, ranked[1..], d);
      assert ([ranked[0]] + rest)[1..] == rest;
    }
  }

  /**
   * Stability: for every discount value, the rows carrying it appear in the ranked
   * list in exactly the order they had in the input.
   */
  lemma {:induction false} RankStable(rows: seq<Row>, d: real)
    ensures WithDiscount(Rank(rows), d) == WithDiscount(rows, d)
  {
    if rows != [] {
      RankStable(rows[1..], d);
      InsertStable(rows[0], Rank(rows[1..]), d);
    }
  }

  /** `resultados[:5]`: the first five ranked rows, or all of them when there are fewer. */
  function TopFive(ranked: seq<Row>): (top: seq<Row>)
    ensures |top| == if |ranked| < 5 then |ranked| else 5
    ensures top == ranked[..|top|]
  {
    if |ranked| < 5 then ranked else ranked[..5]
  }

  /** On a ranked list, no row left out of the top five has a larger discount than a row in it. */
  lemma TopFiveLargest(ranked: seq<Row>)
    requires SortedByDiscount(ranked)
    ensures forall x, y :: x in TopFive(ranked) && y in ranked[|TopFive(ranked)|..] ==> x.discount >= y.discount
  {
    var top := TopFive(ranked);
    forall x, y | x in top && y in ranked[|top|..]
      ensures x.discount >= y.discount
    {
      var i :| 0 <= i < |top| && top[i] == x;
      var j :| 0 <= j < |ranked| - |top| && ranked[|top|..][j] == y;
      assert ranked[i] == x && ranked[|top| + j] == y;
    }
  }
}
