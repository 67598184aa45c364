/** The optimistic-update protocol the dashboards share: show the expected
    result at once, send the request, then keep what is shown when it
    succeeds or put back a restored value when it fails. */
module Optimistic {

  /** Where an optimistic update stands. `Pending` keeps the value shown
      before the change as the snapshot a rollback may restore. */
  datatype Phase<S> =
    | Idle(shown: S)
    | Pending(shown: S, snapshot: S)
    | Committed(shown: S)
    | RolledBack(shown: S)
  {
    predicate Settled() {
      Committed? || RolledBack?
    }
  }

  /** Show `optimistic` at once, remembering what was shown before. */
  function Begin<S>(p: Phase<S>, optimistic: S): (r: Phase<S>)
    requires !p.Pending?
    ensures r.Pending? && r.shown == optimistic && r.snapshot == p.shown
  {
    Pending(optimistic, p.shown)
  }

  /** The request settled: on success keep the optimistic value, on failure
      show `restored`, which the caller computes from the phase (the whole
      snapshot, or the current value with one field put back). */
  function Settle<S>(p: Phase<S>, ok: bool, restored: S): (r: Phase<S>)
    requires p.Pending?
    ensures r.Settled()
    ensures r.Committed? <==> ok
    ensures ok ==> r.shown == p.shown
    ensures !ok ==> r.shown == restored
  {
    if ok then Committed(p.shown) else RolledBack(restored)
  }

  /** Rolling back to the snapshot shows exactly what was shown before the
      optimistic change, whatever that change was. */
  lemma SnapshotRollback<S>(shown: S, optimistic: S)
    ensures var p := Begin(Idle(shown), optimistic);
      Settle(p, false, p.snapshot).shown == shown
  {
  }
}
