/** The firing condition shared by the alert monitor and the Price Alerts page. */
module AlertRule {

  /** An alert of the given type fires at `current`: 'above' at or over the target,
      'below' at or under it; any other type never fires. */
  predicate Fires(alertType: string, current: real, target: real)
  {
    || (alertType == "above" && current >= target)
    || (alertType == "below" && current <= target)
  }

  /** Only the two recognised types can ever fire. */
  lemma OnlyKnownTypesFire(alertType: string, current: real, target: real)
    requires Fires(alertType, current, target)
    ensures alertType == "above" || alertType == "below"
  {
  }

  /** Once an 'above' alert fires, it fires at every higher price; a 'below' alert at every lower one. */
  lemma FiresMonotone(current: real, higher: real, target: real)
    requires current <= higher
    ensures Fires("above", current, target) ==> Fires("above", higher, target)
    ensures Fires("below", higher, target) ==> Fires("below", current, target)
  {
  }
}
