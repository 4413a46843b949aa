/** The finding taxonomy every component shares. */
module Taxonomy {
  datatype Category =
    TYPOGRAPHY | HIERARCHY | READABILITY | CONSISTENCY | CHART | NARRATIVE | SPEECH_MISMATCH | DELIVERY

  datatype Severity = CRITICAL | MAJOR | MINOR

  /** Most severe first. */
  function SeverityOrder(severity: Severity): int {
    match severity
    case CRITICAL => 0
    case MAJOR => 1
    case MINOR => 2
  }

  /** CRITICAL before MAJOR before MINOR. */
  predicate AtLeastAsSevere(a: Severity, b: Severity) {
    a == CRITICAL || b == MINOR || (a == MAJOR && b == MAJOR)
  }

  lemma {:induction false} OrderIsBySeverity(a: Severity, b: Severity)
    ensures SeverityOrder(a) <= SeverityOrder(b) <==> AtLeastAsSevere(a, b)
    ensures SeverityOrder(a) == SeverityOrder(b) <==> a == b
  {
  }
}
