/** The colour classes the report gives coverage percentages and branch strengths. */
module CssClasses {

  datatype CssClass = Green | Yellow | Red {
    /** The CSS class name written into the page. */
    function Name(): string {
      match this
      case Green => "green"
      case Yellow => "yellow"
      case Red => "red"
    }

    /** How good a class is: red below yellow below green. */
    function Rank(): nat {
      match this
      case Red => 0
      case Yellow => 1
      case Green => 2
    }
  }

  /** coverage_css_class: above 90 percent is green, above 80 yellow, anything else red. */
  function CoverageCssClass(coveredPercent: real): (r: CssClass)
    ensures r == Green <==> coveredPercent > 90.0
    ensures r == Yellow <==> 80.0 < coveredPercent <= 90.0
    ensures r == Red <==> coveredPercent <= 80.0
  {
    if coveredPercent > 90.0 then Green
    else if coveredPercent > 80.0 then Yellow
    else Red
  }

  /** strength_css_class: above one covered branch per line is green, exactly one yellow,
      fewer red. */
  function StrengthCssClass(coveredStrength: real): (r: CssClass)
    ensures r == Green <==> coveredStrength > 1.0
    ensures r == Yellow <==> coveredStrength == 1.0
    ensures r == Red <==> coveredStrength < 1.0
  {
    if coveredStrength > 1.0 then Green
    else if coveredStrength == 1.0 then Yellow
    else Red
  }

  /** A higher percentage never gets a worse class. */
  lemma CoverageCssClassMonotone(p: real, q: real)
    requires p <= q
    ensures CoverageCssClass(p).Rank() <= CoverageCssClass(q).Rank()
  {
  }

  /** A higher strength never gets a worse class. */
  lemma StrengthCssClassMonotone(s: real, t: real)
    requires s <= t
    ensures StrengthCssClass(s).Rank() <= StrengthCssClass(t).Rank()
  {
  }

  /** The boundaries belong to the lower class: exactly 90 is yellow, exactly 80 is red. */
  lemma CoverageCssClassBoundaries()
    ensures CoverageCssClass(90.0) == Yellow && CoverageCssClass(90.01) == Green
    ensures CoverageCssClass(80.0) == Red && CoverageCssClass(80.01) == Yellow
  {
  }
}
