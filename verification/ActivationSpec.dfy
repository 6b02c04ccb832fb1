/** What a client of the controller sees: an activation is pending until it is done, once, with one
    result. */
module ActivationSpec {
  import opened Seuss

  datatype Status = Pending(am: ActivationMessage) | Done(am: ActivationMessage, report: Report)

  type State = map<Tid, Status>

  ghost predicate Submit(a: State, a': State) {
    exists t: Tid, am :: t !in a && a' == a[t := Pending(am)]
  }

  ghost predicate Complete(a: State, a': State, results: set<Report>) {
    exists r: Report :: r.tid in a && a[r.tid].Pending? && r in results && a' == a[r.tid := Done(a[r.tid].am, r)]
  }

  /** One step, given the results that sessions have produced so far. */
  ghost predicate Next(a: State, a': State, results: set<Report>) {
    a' == a || Submit(a, a') || Complete(a, a', results)
  }
}
