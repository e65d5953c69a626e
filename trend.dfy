/**
 * The findings block: the sign of the last price minus its monthly trend
 * decides between a bullish and a bearish narrative. There is no neutral
 * case: a price equal to its monthly trend reads as bearish.
 */
module Trend {
  import opened Rows

  datatype Verdict = Bullish | Bearish

  /** The styled boxes the block is made of. */
  datatype Tone = Success | Info | Warning | Error

  /**
   * The narrative: the verdict, the tone of its headline, the currency and the
   * two amounts it quotes, and the tone of the interpretation that closes it.
   */
  datatype Narrative = Narrative(
    verdict: Verdict,
    moneda: string,
    headline: Tone,
    precio: real,
    promedioMensual: real,
    interpretation: Tone)

  /** How far the price sits above its monthly trend (negative when below). */
  function Diferencia(r: Row): (d: real)
    ensures d > 0.0 <==> r.precio_usd > r.tendencia_mensual
    ensures r.tendencia_mensual + d == r.precio_usd
  {
    r.precio_usd - r.tendencia_mensual
  }

  function Classify(diferencia: real): (v: Verdict)
    ensures v == Bullish <==> diferencia > 0.0
    ensures v == Bearish <==> diferencia <= 0.0
  {
    if diferencia > 0.0 then Bullish else Bearish
  }

  function Narrate(moneda: string, ultimo: Row): (n: Narrative)
    ensures n.verdict == Bullish <==> ultimo.precio_usd > ultimo.tendencia_mensual
    ensures n.verdict == Bullish ==> n.headline == Success && n.interpretation == Info
    ensures n.verdict == Bearish ==> n.headline == Warning && n.interpretation == Error
    ensures n.moneda == moneda
    ensures n.precio == ultimo.precio_usd && n.promedioMensual == ultimo.tendencia_mensual
  {
    match Classify(Diferencia(ultimo))
    case Bullish => Narrative(Bullish, moneda, Success, ultimo.precio_usd, ultimo.tendencia_mensual, Info)
    case Bearish => Narrative(Bearish, moneda, Warning, ultimo.precio_usd, ultimo.tendencia_mensual, Error)
  }

  /** A price that exactly meets its monthly trend is bearish. */
  lemma EqualityIsBearish(moneda: string, ultimo: Row)
    requires ultimo.precio_usd == ultimo.tendencia_mensual
    ensures Narrate(moneda, ultimo).verdict == Bearish
  {
  }
}
