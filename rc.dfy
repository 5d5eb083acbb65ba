/** The release-candidate report (src/cli/cyborg-rc.js): the same four directory
    counts as the kernel check, scored with "below 1" in place of "equal to 0". */
module ReleaseCandidate {
  import Kernel

  /** `score`: 100, less 20 for each count below 1, counts taken in report order
      telemetry, state, snapshot, heartbeat. */
  function RcScore(telemetry: nat, state: nat, snapshot: nat, heartbeat: nat): (score: int)
    ensures score == 100 - 20 * Kernel.Zeros([telemetry, state, snapshot, heartbeat])
    ensures 20 <= score <= 100
    ensures score == 100 <==> telemetry >= 1 && state >= 1 && snapshot >= 1 && heartbeat >= 1
  {
    var s0 := 100;
    var s1 := if telemetry < 1 then s0 - 20 else s0;
    var s2 := if state < 1 then s1 - 20 else s1;
    var s3 := if snapshot < 1 then s2 - 20 else s2;
    var s4 := if heartbeat < 1 then s3 - 20 else s3;
    Kernel.ZerosOfFour(telemetry, state, snapshot, heartbeat);
    s4
  }

  /** A count above zero affects the score only by being non-zero. */
  lemma RcOnlyPositivity(t1: nat, st1: nat, sn1: nat, h1: nat, t2: nat, st2: nat, sn2: nat, h2: nat)
    requires (t1 == 0 <==> t2 == 0) && (st1 == 0 <==> st2 == 0)
    requires (sn1 == 0 <==> sn2 == 0) && (h1 == 0 <==> h2 == 0)
    ensures RcScore(t1, st1, sn1, h1) == RcScore(t2, st2, sn2, h2)
  {
  }

  /** On the same directories the release-candidate score equals the kernel's
      health score. */
  lemma RcAgreesWithKernel(c: Kernel.Counts)
    ensures RcScore(c.telemetry, c.state, c.snapshot, c.heartbeat) == Kernel.HealthScore(c)
  {
  }
}
