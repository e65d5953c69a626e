/**
 * The dashboard's table: one observation of one cryptocurrency on one day,
 * with the columns the CSV file carries. Dates are day numbers (the value of
 * `fecha` after it has been cut down to a calendar date); prices and the
 * precomputed statistics are reals.
 */
module Rows {

  datatype Row = Row(
    moneda: string,
    fecha: int,
    precio_usd: real,
    modelo_mineria: real,
    volatilidad: real,
    volumen: real,
    tendencia_semanal: real,
    tendencia_mensual: real)

  /**
   * Within each currency, dates never go backwards along the table (assumed
   * of the data, not enforced by the dashboard). Rows of different
   * currencies may interleave or come in groups.
   */
  predicate SortedWithinCurrency(rows: seq<Row>) {
    forall i, j :: 0 <= i < j < |rows| && rows[i].moneda == rows[j].moneda ==> rows[i].fecha <= rows[j].fecha
  }

  /** Dates never go backwards along the sequence. */
  predicate SortedByDate(rows: seq<Row>) {
    forall i, j :: 0 <= i < j < |rows| ==> rows[i].fecha <= rows[j].fecha
  }
}
