/**
 * The KPI row of the dashboard: current price, volatility and model value
 * from the last filtered row, with price and model deltas against the
 * second-to-last row when there is one. An empty filtered table yields no
 * metrics at all (the page stops with a warning).
 */
module Metrics {
  import opened Rows
  import opened Wrappers

  datatype Kpis = Kpis(
    precioActual: real,
    volatilidad: real,
    prediccionModelo: real,
    variacionPrecio: real,
    variacionModelo: real)

  function MetricStage(f: seq<Row>): (m: Option<Kpis>)
    ensures m.None? <==> |f| == 0
    ensures m.Some? ==>
      && m.value.precioActual == f[|f| - 1].precio_usd
      && m.value.volatilidad == f[|f| - 1].volatilidad
      && m.value.prediccionModelo == f[|f| - 1].modelo_mineria
    ensures |f| == 1 ==> m.Some? && m.value.variacionPrecio == 0.0 && m.value.variacionModelo == 0.0
    ensures |f| >= 2 ==>
      && m.Some?
      && m.value.variacionPrecio == f[|f| - 1].precio_usd - f[|f| - 2].precio_usd
      && m.value.variacionModelo == f[|f| - 1].modelo_mineria - f[|f| - 2].modelo_mineria
  {
    if |f| == 0 then None
    else
      var ultimo := f[|f| - 1];
      var variacionPrecio := if |f| > 1 then ultimo.precio_usd - f[|f| - 2].precio_usd else 0.0;
      var variacionModelo := if |f| > 1 then ultimo.modelo_mineria - f[|f| - 2].modelo_mineria else 0.0;
      Some(Kpis(ultimo.precio_usd, ultimo.volatilidad, ultimo.modelo_mineria, variacionPrecio, variacionModelo))
  }

  /**
   * Read as a history: when one more row joins the end of the view, the new
   * current values are that row's and the deltas are measured from the row
   * that was current before.
   */
  lemma AppendedRowBecomesCurrent(f: seq<Row>, r: Row)
    requires |f| > 0
    ensures MetricStage(f + [r]) == Some(Kpis(
      r.precio_usd, r.volatilidad, r.modelo_mineria,
      r.precio_usd - MetricStage(f).value.precioActual,
      r.modelo_mineria - MetricStage(f).value.prediccionModelo))
  {
  }
}
