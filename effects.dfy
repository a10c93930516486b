/**
 * The request's handle on the outside world's writable side: the database
 * cursor (`UpdateLabel_UPD`, `UpdateModelTraining_UDP`) and the training
 * client's `publish_iteration`. Each write either takes effect, and is
 * appended to `log`, or raises. Nothing is rolled back: writes that took
 * effect before a raise stay in `log`.
 */
module Effects {
  import opened Records

  class Session {
    /** When set, the position in `log` at which the next write raises instead of taking effect. */
    const failAt: Option<nat>
    /** Every write that took effect, in order. */
    var log: seq<Command>

    constructor (failAt: Option<nat>)
      ensures this.failAt == failAt && log == []
    {
      this.failAt := failAt;
      log := [];
    }

    /** The write at `failAt`, if any, is not yet behind the log. */
    predicate Healthy()
      reads this
    {
      failAt.None? || failAt.value >= |log|
    }

    /** Attempt one write; `ok` is false when it raised. */
    method Issue(c: Command) returns (ok: bool)
      modifies this
      ensures ok <==> failAt != Some(|old(log)|)
      ensures log == if ok then old(log) + [c] else old(log)
      ensures old(Healthy()) ==> Healthy()
    {
      ok := failAt != Some(|log|);
      if ok {
        log := log + [c];
      }
    }
  }
}
