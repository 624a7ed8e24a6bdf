/** The application shell's one piece of logic: the `scale` URL parameter, validated
    to the downscale range (0,1] with 1 as the fallback. */
module App {

  /** What `parseFloat` can return: NaN (for a missing or unparsable parameter), a
      finite number, or an infinity. */
  datatype ParsedNumber = NotANumber | Finite(value: real) | PositiveInfinity | NegativeInfinity

  predicate InScaleRange(x: real) {
    0.0 < x <= 1.0
  }

  /** `getScaleFromUrl` after parsing: the parsed value when it lies in (0,1], else 1. */
  function ScaleFromUrl(parsed: ParsedNumber): (scale: real)
    ensures InScaleRange(scale)
    ensures parsed.Finite? && InScaleRange(parsed.value) ==> scale == parsed.value
    ensures !(parsed.Finite? && InScaleRange(parsed.value)) ==> scale == 1.0
  {
    match parsed
    case NotANumber => 1.0
    case PositiveInfinity => 1.0   // Infinity > 1
    case NegativeInfinity => 1.0   // -Infinity <= 0
    case Finite(x) => if x <= 0.0 || x > 1.0 then 1.0 else x
  }

  /** Validating the result again returns it unchanged. */
  lemma ScaleFromUrlIdempotent(parsed: ParsedNumber)
    ensures ScaleFromUrl(Finite(ScaleFromUrl(parsed))) == ScaleFromUrl(parsed)
  {
  }

  /** The fallback is taken exactly for NaN, the infinities and values outside (0,1]. */
  lemma ScaleFallback(parsed: ParsedNumber)
    ensures ScaleFromUrl(parsed) == 1.0 <==> !parsed.Finite? || parsed.value <= 0.0 || parsed.value >= 1.0
  {
  }
}
