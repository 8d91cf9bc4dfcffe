/**
 * The status changes the catalog services make on questions, answers and products.
 * Each one reads the stored status and either writes its target or leaves the row alone.
 */
module Lifecycle {
  import opened Catalog

  /**
   * `Publish` and `Disable` are guarded: they act only from draft, respectively from
   * published. `ForcePublish` sets published from any status (questions have no guard).
   */
  datatype StatusChange = Publish | Disable | ForcePublish

  /** The status after the change. */
  function Apply(change: StatusChange, status: string): (r: string)
    ensures change.Publish? ==> (r == PUBLISHED <==> status == DRAFT || status == PUBLISHED)
    ensures change.Disable? ==> (r == DISABLED <==> status == PUBLISHED || status == DISABLED)
    ensures change.ForcePublish? ==> r == PUBLISHED
    ensures r != status ==> (change.Publish? && status == DRAFT) || (change.Disable? && status == PUBLISHED) || change.ForcePublish?
  {
    match change
    case Publish => if status == DRAFT then PUBLISHED else status
    case Disable => if status == PUBLISHED then DISABLED else status
    case ForcePublish => PUBLISHED
  }

  /** The status after a series of changes, applied in order. */
  function ApplyAll(changes: seq<StatusChange>, status: string): string {
    if changes == [] then status else ApplyAll(changes[1..], Apply(changes[0], status))
  }

  predicate Known(status: string) {
    status == DRAFT || status == PUBLISHED || status == DISABLED
  }

  /** Position along draft, published, disabled. */
  function Rank(status: string): int {
    if status == DRAFT then 0 else if status == PUBLISHED then 1 else if status == DISABLED then 2 else -1
  }

  predicate Guarded(changes: seq<StatusChange>) {
    forall i :: 0 <= i < |changes| ==> !changes[i].ForcePublish?
  }

  /** No change leads out of the three known statuses. */
  lemma {:induction false} KnownStaysKnown(changes: seq<StatusChange>, status: string)
    requires Known(status)
    ensures Known(ApplyAll(changes, status))
  {
    if changes != [] {
      KnownStaysKnown(changes[1..], Apply(changes[0], status));
    }
  }

  /** The guarded changes only move a status forward (an unknown status is never touched). */
  lemma {:induction false} GuardedMovesForward(changes: seq<StatusChange>, status: string)
    requires Guarded(changes)
    ensures Rank(ApplyAll(changes, status)) >= Rank(status)
    ensures !Known(status) ==> ApplyAll(changes, status) == status
  {
    if changes != [] {
      assert Guarded(changes[1..]) by {
        forall i | 0 <= i < |changes[1..]| ensures !changes[1..][i].ForcePublish? {
          assert changes[1..][i] == changes[i + 1];
        }
      }
      GuardedMovesForward(changes[1..], Apply(changes[0], status));
    }
  }

  /** Under the guarded changes, disabled is final: nothing brings it back. */
  lemma DisabledIsFinal(changes: seq<StatusChange>)
    requires Guarded(changes)
    ensures ApplyAll(changes, DISABLED) == DISABLED
  {
    GuardedMovesForward(changes, DISABLED);
  }

  /** The unguarded question publish revives a disabled question. */
  lemma ForcePublishRevives()
    ensures ApplyAll([Publish], DISABLED) == DISABLED
    ensures ApplyAll([Publish, Disable, ForcePublish], DRAFT) == PUBLISHED
  {
    assert [Publish, Disable, ForcePublish][1..] == [Disable, ForcePublish];
    assert [Disable, ForcePublish][1..] == [ForcePublish];
  }
}
