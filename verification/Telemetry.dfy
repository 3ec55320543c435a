/** Reclaiming sole ownership of the telemetry session before the process exits. */
module Telemetry {

  const SHUTDOWN_ATTEMPTS: nat := 40

  /** How many clones each check finds; between two checks clones are only released. */
  predicate OnlyReleases(counts: seq<nat>) {
    && |counts| == SHUTDOWN_ATTEMPTS && (forall i :: 0 <= i < |counts| ==> counts[i] >= 1)
    && forall i, j :: 0 <= i <= j < |counts| ==> counts[j] <= counts[i]
  }

  /**
   * Checks until it is the only owner or the attempts run out. Against anyone who only releases clones it flushes at
   * most once, exactly when the last check would have found it the only owner, and as soon as one does.
   */
  method Reclaim(counts: seq<nat>) returns (checks: nat, flushes: nat)
    requires OnlyReleases(counts)
    ensures checks <= 40 && flushes <= 1
    ensures flushes == 1 <==> exists i :: 0 <= i < |counts| && counts[i] == 1
    ensures flushes == 1 <==> counts[|counts| - 1] == 1
    ensures flushes == 1 ==> checks >= 1 && counts[checks - 1] == 1
    ensures forall i :: 0 <= i < checks - flushes ==> counts[i] > 1
    ensures flushes == 0 ==> checks == 40
  {
    checks, flushes := 0, 0;
    for attempt := 0 to SHUTDOWN_ATTEMPTS
      invariant checks == attempt && flushes == 0
      invariant forall i :: 0 <= i < attempt ==> counts[i] > 1
    {
      checks := checks + 1;
      if counts[attempt] == 1 {
        flushes := flushes + 1;
        assert counts[|counts| - 1] <= counts[attempt];
        return;
      }
    }
    assert counts[|counts| - 1] > 1;
  }
}
