/**
 * The master filter of the dashboard: a boolean mask over the table that keeps
 * the rows of the selected currency whose date lies in the closed interval
 * [start, end], in table order. Also the bounds of the date picker (the
 * earliest and latest date of the whole table).
 */
module Filter {
  import opened Rows

  /** The date half of the mask: both bounds are inclusive. */
  predicate InRange(r: Row, start: int, end: int)
    ensures InRange(r, start, end) ==> start <= end
  {
    start <= r.fecha <= end
  }

  /** The mask: currency matches exactly and the date is within [start, end]. */
  predicate Matches(r: Row, moneda: string, start: int, end: int)
    ensures Matches(r, moneda, start, end) ==> start <= end
  {
    r.moneda == moneda && InRange(r, start, end)
  }

  /** `df[mask]`: the rows whose mask entry is true, in their original order. */
  function FilterRows(rows: seq<Row>, moneda: string, start: int, end: int): (f: seq<Row>)
    ensures |f| <= |rows|
    ensures forall k :: 0 <= k < |f| ==> Matches(f[k], moneda, start, end)
  {
    if rows == [] then []
    else
      var prefix := FilterRows(rows[..|rows| - 1], moneda, start, end);
      if Matches(rows[|rows| - 1], moneda, start, end) then prefix + [rows[|rows| - 1]] else prefix
  }

  /** The filter on the currency alone, with no date condition. */
  function CurrencyRows(rows: seq<Row>, moneda: string): (f: seq<Row>)
    ensures |f| <= |rows|
    ensures forall k :: 0 <= k < |f| ==> f[k].moneda == moneda
    ensures forall i :: 0 <= i < |rows| && rows[i].moneda == moneda ==> rows[i] in f
  {
    if rows == [] then []
    else
      var prefix := CurrencyRows(rows[..|rows| - 1], moneda);
      assert forall i :: 0 <= i < |rows| - 1 ==> rows[..|rows| - 1][i] == rows[i];
      if rows[|rows| - 1].moneda == moneda then prefix + [rows[|rows| - 1]] else prefix
  }

  /**
   * The positions in the table where the mask is true, ascending: the index
   * labels the filtered frame keeps from the table.
   */
  function Positions(rows: seq<Row>, moneda: string, start: int, end: int): (p: seq<nat>)
    ensures forall k :: 0 <= k < |p| ==> p[k] < |rows|
  {
    if rows == [] then []
    else
      var n := |rows| - 1;
      var prefix := Positions(rows[..n], moneda, start, end);
      if Matches(rows[n], moneda, start, end) then prefix + [n] else prefix
  }

  /**
   * The mask positions are strictly ascending, and a table position is among
   * them exactly when its row matches.
   */
  lemma {:induction false} PositionsAreExactlyTheMatches(rows: seq<Row>, moneda: string, start: int, end: int)
    ensures var p := Positions(rows, moneda, start, end);
      && (forall a, b :: 0 <= a < b < |p| ==> p[a] < p[b])
      && (forall i :: 0 <= i < |rows| ==> (i in p <==> Matches(rows[i], moneda, start, end)))
  {
    if rows != [] {
      var n := |rows| - 1;
      PositionsAreExactlyTheMatches(rows[..n], moneda, start, end);
      assert forall i :: 0 <= i < n ==> rows[..n][i] == rows[i];
    }
  }

  /**
   * The filtered rows are exactly the table rows at the mask's positions, in
   * the same order: nothing that matches is dropped, nothing is reordered.
   */
  lemma {:induction false} FilterIsMaskSelection(rows: seq<Row>, moneda: string, start: int, end: int)
    ensures |FilterRows(rows, moneda, start, end)| == |Positions(rows, moneda, start, end)|
    ensures forall k :: 0 <= k < |Positions(rows, moneda, start, end)| ==>
      FilterRows(rows, moneda, start, end)[k] == rows[Positions(rows, moneda, start, end)[k]]
  {
    if rows != [] {
      var n := |rows| - 1;
      var init := rows[..n];
      FilterIsMaskSelection(init, moneda, start, end);
      var f, p := FilterRows(init, moneda, start, end), Positions(init, moneda, start, end);
      var f', p' := FilterRows(rows, moneda, start, end), Positions(rows, moneda, start, end);
      if Matches(rows[n], moneda, start, end) {
        assert f' == f + [rows[n]] && p' == p + [n];
      } else {
        assert f' == f && p' == p;
      }
      forall k | 0 <= k < |p'|
        ensures f'[k] == rows[p'[k]]
      {
        if k < |p| {
          assert f'[k] == f[k] == init[p[k]];
          assert p'[k] == p[k] < n;
        }
      }
    }
  }

  /**
   * One entry of the mask selection: the k-th filtered row is the table row
   * at the k-th mask position (for k the last index, `iloc[-1]`).
   */
  lemma FilterAtPosition(rows: seq<Row>, moneda: string, start: int, end: int, k: nat)
    requires k < |FilterRows(rows, moneda, start, end)|
    ensures |Positions(rows, moneda, start, end)| == |FilterRows(rows, moneda, start, end)|
    ensures FilterRows(rows, moneda, start, end)[k] == rows[Positions(rows, moneda, start, end)[k]]
  {
    FilterIsMaskSelection(rows, moneda, start, end);
  }

  /** No row strictly between two consecutive mask positions matches. */
  lemma NoMatchBetweenPositions(rows: seq<Row>, moneda: string, start: int, end: int, a: nat)
    requires a + 1 < |Positions(rows, moneda, start, end)|
    ensures var p := Positions(rows, moneda, start, end);
      forall j :: p[a] < j < p[a + 1] ==> !Matches(rows[j], moneda, start, end)
  {
    PositionsAreExactlyTheMatches(rows, moneda, start, end);
  }

  /** No row after the last mask position matches. */
  lemma NoMatchAfterLastPosition(rows: seq<Row>, moneda: string, start: int, end: int)
    requires Positions(rows, moneda, start, end) != []
    ensures var p := Positions(rows, moneda, start, end);
      forall j :: p[|p| - 1] < j < |rows| ==> !Matches(rows[j], moneda, start, end)
  {
    PositionsAreExactlyTheMatches(rows, moneda, start, end);
  }

  /** An interval whose start lies after its end selects nothing. */
  lemma {:induction false} InvertedRangeIsEmpty(rows: seq<Row>, moneda: string, start: int, end: int)
    requires start > end
    ensures FilterRows(rows, moneda, start, end) == []
  {
    if rows != [] {
      InvertedRangeIsEmpty(rows[..|rows| - 1], moneda, start, end);
    }
  }

  /** When every table date lies in [start, end], the date part of the mask is always true. */
  lemma {:induction false} CoveringRangeIsCurrencyFilter(rows: seq<Row>, moneda: string, start: int, end: int)
    requires forall i :: 0 <= i < |rows| ==> InRange(rows[i], start, end)
    ensures FilterRows(rows, moneda, start, end) == CurrencyRows(rows, moneda)
  {
    if rows != [] {
      var n := |rows| - 1;
      assert forall i :: 0 <= i < n ==> rows[..n][i] == rows[i];
      CoveringRangeIsCurrencyFilter(rows[..n], moneda, start, end);
    }
  }

  /**
   * If each currency's rows are in date order, every filtered view is in date
   * order: it holds one currency only.
   */
  lemma FilterKeepsDateOrder(rows: seq<Row>, moneda: string, start: int, end: int)
    requires SortedWithinCurrency(rows)
    ensures SortedByDate(FilterRows(rows, moneda, start, end))
  {
    var f, p := FilterRows(rows, moneda, start, end), Positions(rows, moneda, start, end);
    FilterIsMaskSelection(rows, moneda, start, end);
    PositionsAreExactlyTheMatches(rows, moneda, start, end);
    forall a, b | 0 <= a < b < |f|
      ensures f[a].fecha <= f[b].fecha
    {
      assert f[a] == rows[p[a]] && f[b] == rows[p[b]] && p[a] < p[b];
      assert f[a].moneda == moneda == f[b].moneda;
    }
  }

  /** `df['fecha'].min()`: the earliest date of the table. */
  function MinDate(rows: seq<Row>): (d: int)
    requires |rows| > 0
    ensures forall i :: 0 <= i < |rows| ==> d <= rows[i].fecha
    ensures exists i :: 0 <= i < |rows| && rows[i].fecha == d
  {
    if |rows| == 1 then rows[0].fecha
    else
      var n := |rows| - 1;
      var m := MinDate(rows[..n]);
      assert forall i :: 0 <= i < n ==> rows[..n][i] == rows[i];
      if rows[n].fecha < m then rows[n].fecha else m
  }

  /** `df['fecha'].max()`: the latest date of the table. */
  function MaxDate(rows: seq<Row>): (d: int)
    requires |rows| > 0
    ensures forall i :: 0 <= i < |rows| ==> rows[i].fecha <= d
    ensures exists i :: 0 <= i < |rows| && rows[i].fecha == d
  {
    if |rows| == 1 then rows[0].fecha
    else
      var n := |rows| - 1;
      var m := MaxDate(rows[..n]);
      assert forall i :: 0 <= i < n ==> rows[..n][i] == rows[i];
      if rows[n].fecha > m then rows[n].fecha else m
  }

  /** The picker's default interval, [earliest, latest], leaves only the currency condition. */
  lemma DefaultRangeIsCurrencyFilter(rows: seq<Row>, moneda: string)
    requires |rows| > 0
    ensures FilterRows(rows, moneda, MinDate(rows), MaxDate(rows)) == CurrencyRows(rows, moneda)
  {
    CoveringRangeIsCurrencyFilter(rows, moneda, MinDate(rows), MaxDate(rows));
  }
}
