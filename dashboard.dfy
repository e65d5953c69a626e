/**
 * One render of the dashboard, from the loaded table, the selected currency
 * and the dates the picker returned, to what the page ends with: a prompt for
 * the missing end date, a no-data warning, or a report (the rows the charts
 * plot, the KPI row and the findings narrative).
 */
module Dashboard {
  import opened Rows
  import opened Wrappers
  import opened Filter
  import opened Metrics
  import opened Trend

  datatype Outcome =
    | NeedEndDate
    | NoData
    | Report(series: seq<Row>, kpis: Kpis, narrative: Narrative)

  /** `rangoFechas` is the picker's tuple: it may hold zero, one or two dates. */
  function Run(table: seq<Row>, moneda: string, rangoFechas: seq<int>): (o: Outcome)
    ensures o.NeedEndDate? <==> |rangoFechas| != 2
    ensures |rangoFechas| == 2 ==>
      (o.NoData? <==> FilterRows(table, moneda, rangoFechas[0], rangoFechas[1]) == [])
    ensures o.Report? ==> |rangoFechas| == 2 && o.series == FilterRows(table, moneda, rangoFechas[0], rangoFechas[1])
  {
    if |rangoFechas| != 2 then NeedEndDate
    else
      var dfFiltrado := FilterRows(table, moneda, rangoFechas[0], rangoFechas[1]);
      match MetricStage(dfFiltrado)
      case None => NoData
      case Some(kpis) => Report(dfFiltrado, kpis, Narrate(moneda, dfFiltrado[|dfFiltrado| - 1]))
  }

  /** Every row a report shows is of the selected currency and inside the picked interval. */
  lemma ReportRowsMatchSelection(table: seq<Row>, moneda: string, rangoFechas: seq<int>)
    requires Run(table, moneda, rangoFechas).Report?
    ensures forall k :: 0 <= k < |Run(table, moneda, rangoFechas).series| ==>
      var r := Run(table, moneda, rangoFechas).series[k];
      r.moneda == moneda && rangoFechas[0] <= r.fecha <= rangoFechas[1]
  {
  }

  /** A start date after the end date always ends in the no-data warning. */
  lemma InvertedRangeIsNoData(table: seq<Row>, moneda: string, start: int, end: int)
    requires start > end
    ensures Run(table, moneda, [start, end]) == NoData
  {
    InvertedRangeIsEmpty(table, moneda, start, end);
  }

  /**
   * A report is built from the last filtered row: current price, volatility,
   * model value and the verdict on price against monthly trend.
   */
  lemma ReportReadsLastRow(table: seq<Row>, moneda: string, rangoFechas: seq<int>)
    requires Run(table, moneda, rangoFechas).Report?
    ensures var o := Run(table, moneda, rangoFechas);
      var ultimo := o.series[|o.series| - 1];
      && |o.series| > 0
      && o.kpis.precioActual == ultimo.precio_usd
      && o.kpis.volatilidad == ultimo.volatilidad
      && o.kpis.prediccionModelo == ultimo.modelo_mineria
      && (o.narrative.verdict == Bullish <==> ultimo.precio_usd - ultimo.tendencia_mensual > 0.0)
      && o.narrative == Narrate(moneda, ultimo)
  {
  }

  /** Deltas are zero for a single filtered row and last minus second-to-last otherwise. */
  lemma ReportDeltas(table: seq<Row>, moneda: string, rangoFechas: seq<int>)
    requires Run(table, moneda, rangoFechas).Report?
    ensures var o := Run(table, moneda, rangoFechas);
      var s := o.series;
      && (|s| == 1 ==> o.kpis.variacionPrecio == 0.0 && o.kpis.variacionModelo == 0.0)
      && (|s| >= 2 ==>
            && o.kpis.variacionPrecio == s[|s| - 1].precio_usd - s[|s| - 2].precio_usd
            && o.kpis.variacionModelo == s[|s| - 1].modelo_mineria - s[|s| - 2].modelo_mineria)
  {
  }

  /** The metric stage on the filtered view reads the last two matching table rows. */
  lemma MetricsFromLastMatchingRows(table: seq<Row>, moneda: string, start: int, end: int)
    requires FilterRows(table, moneda, start, end) != []
    ensures var k, p := MetricStage(FilterRows(table, moneda, start, end)).value, Positions(table, moneda, start, end);
      && |p| > 0
      && k.precioActual == table[p[|p| - 1]].precio_usd
      && k.volatilidad == table[p[|p| - 1]].volatilidad
      && k.prediccionModelo == table[p[|p| - 1]].modelo_mineria
      && (|p| >= 2 ==>
            && k.variacionPrecio == table[p[|p| - 1]].precio_usd - table[p[|p| - 2]].precio_usd
            && k.variacionModelo == table[p[|p| - 1]].modelo_mineria - table[p[|p| - 2]].modelo_mineria)
  {
    var f, p := FilterRows(table, moneda, start, end), Positions(table, moneda, start, end);
    var k := MetricStage(f).value;
    FilterAtPosition(table, moneda, start, end, |f| - 1);
    var ultimo := f[|f| - 1];
    assert ultimo == table[p[|p| - 1]];
    assert k.precioActual == ultimo.precio_usd && k.volatilidad == ultimo.volatilidad;
    assert k.prediccionModelo == ultimo.modelo_mineria;
    if |f| >= 2 {
      FilterAtPosition(table, moneda, start, end, |f| - 2);
      var anteultimo := f[|f| - 2];
      assert anteultimo == table[p[|p| - 2]];
      assert k.variacionPrecio == ultimo.precio_usd - anteultimo.precio_usd;
      assert k.variacionModelo == ultimo.modelo_mineria - anteultimo.modelo_mineria;
    }
  }

  /**
   * In terms of the table itself: the current values come from the last table
   * row that matches the selection (no later row matches), and the deltas are
   * measured against the matching row before it.
   */
  lemma ReportUsesLastMatchingRows(table: seq<Row>, moneda: string, rangoFechas: seq<int>)
    requires Run(table, moneda, rangoFechas).Report?
    ensures var o, p := Run(table, moneda, rangoFechas), Positions(table, moneda, rangoFechas[0], rangoFechas[1]);
      && |p| > 0
      && o.kpis.precioActual == table[p[|p| - 1]].precio_usd
      && o.kpis.volatilidad == table[p[|p| - 1]].volatilidad
      && o.kpis.prediccionModelo == table[p[|p| - 1]].modelo_mineria
      && o.narrative == Narrate(moneda, table[p[|p| - 1]])
      && (forall j :: p[|p| - 1] < j < |table| ==> !Matches(table[j], moneda, rangoFechas[0], rangoFechas[1]))
    ensures var o, p := Run(table, moneda, rangoFechas), Positions(table, moneda, rangoFechas[0], rangoFechas[1]);
      |p| >= 2 ==>
        && o.kpis.variacionPrecio == table[p[|p| - 1]].precio_usd - table[p[|p| - 2]].precio_usd
        && o.kpis.variacionModelo == table[p[|p| - 1]].modelo_mineria - table[p[|p| - 2]].modelo_mineria
        && (forall j :: p[|p| - 2] < j < p[|p| - 1] ==> !Matches(table[j], moneda, rangoFechas[0], rangoFechas[1]))
  {
    var start, end := rangoFechas[0], rangoFechas[1];
    var o, f := Run(table, moneda, rangoFechas), FilterRows(table, moneda, start, end);
    var p := Positions(table, moneda, start, end);
    assert f != [] && o.kpis == MetricStage(f).value;
    FilterAtPosition(table, moneda, start, end, |f| - 1);
    var ultimo := table[p[|p| - 1]];
    assert f[|f| - 1] == ultimo && o.narrative == Narrate(moneda, ultimo);
    MetricsFromLastMatchingRows(table, moneda, start, end);
    NoMatchAfterLastPosition(table, moneda, start, end);
    if |p| >= 2 {
      NoMatchBetweenPositions(table, moneda, start, end, |p| - 2);
    }
  }

  /**
   * On a table whose rows are in date order within each currency, the
   * report's current row carries the latest date shown.
   */
  lemma ReportIsLatestWhenSorted(table: seq<Row>, moneda: string, rangoFechas: seq<int>)
    requires SortedWithinCurrency(table)
    requires Run(table, moneda, rangoFechas).Report?
    ensures var s := Run(table, moneda, rangoFechas).series;
      forall k :: 0 <= k < |s| ==> s[k].fecha <= s[|s| - 1].fecha
  {
    FilterKeepsDateOrder(table, moneda, rangoFechas[0], rangoFechas[1]);
  }

  /**
   * With the picker left at its default, [earliest date, latest date] of the
   * whole table, the dashboard shows every row of the selected currency.
   */
  lemma DefaultSelectionShowsWholeCurrency(table: seq<Row>, moneda: string)
    requires |table| > 0
    ensures var o := Run(table, moneda, [MinDate(table), MaxDate(table)]);
      && !o.NeedEndDate?
      && (o.NoData? <==> CurrencyRows(table, moneda) == [])
      && (o.Report? ==> o.series == CurrencyRows(table, moneda))
  {
    DefaultRangeIsCurrencyFilter(table, moneda);
  }

  /** Three BTC days at 100, 105 and 110 with a monthly trend of 108 on the last: 110, +5, bullish. */
  lemma ThreeBtcDaysExample()
    ensures var table := [
        Row("BTC", 1, 100.0, 99.0, 0.02, 10.0, 100.0, 101.0),
        Row("BTC", 2, 105.0, 101.0, 0.03, 12.0, 102.0, 104.0),
        Row("BTC", 3, 110.0, 104.0, 0.01, 11.0, 105.0, 108.0)];
      var o := Run(table, "BTC", [1, 3]);
      && o.Report?
      && o.kpis.precioActual == 110.0
      && o.kpis.variacionPrecio == 5.0
      && o.kpis.variacionModelo == 3.0
      && o.narrative.verdict == Bullish
  {
  }
}
