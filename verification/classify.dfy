/** The audit classifier of psi_accessibility_app.py: an audit's score and
    display mode decide which of five groups it is reported in. */
module Classify {
  import opened Json
  import opened Py

  datatype Category = Failed | ManualCheck | Passed | NotApplicable | Other {

    /** The label the app stores in an audit record's 'category' field. */
    function Name(): string {
      match this
      case Failed => "failed"
      case ManualCheck => "manual_check"
      case Passed => "passed"
      case NotApplicable => "not_applicable"
      case Other => "other"
    }
  }

  /** get_audit_category(score, display_mode). The rules are tried in order;
      because the manual/informative rule comes before the passed rule, the
      display mode alone decides a manual check, whatever the score, and
      "passed" needs a binary audit scoring exactly 1. */
  function CategoryOf(score: Json, displayMode: Json): (c: Category)
    ensures c == Failed <==> EqualsInt(score, 0) && displayMode == Str("binary")
    ensures c == ManualCheck <==> displayMode == Str("manual") || displayMode == Str("informative")
    ensures c == Passed <==> EqualsInt(score, 1) && displayMode == Str("binary")
    ensures c == NotApplicable <==> displayMode == Str("notApplicable")
    ensures c == Other <==>
              || !(displayMode in [Str("binary"), Str("manual"), Str("informative"), Str("notApplicable")])
              || (displayMode == Str("binary") && !EqualsInt(score, 0) && !EqualsInt(score, 1))
  {
    if EqualsInt(score, 0) && displayMode == Str("binary") then Failed
    else if displayMode in [Str("manual"), Str("informative")] then ManualCheck
    else if EqualsInt(score, 1) && displayMode == Str("binary") then Passed
    else if displayMode == Str("notApplicable") then NotApplicable
    else Other
  }

  /** The stored labels tell the categories apart, so the view's string
      comparisons select by category. */
  lemma NamesDistinct(a: Category, b: Category)
    ensures a.Name() == b.Name() <==> a == b
  {
  }
}
