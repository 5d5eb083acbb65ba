/** The autonomous kernel check (src/cli/cyborg-kernel.js): a health score and a
    list of suggested actions from the number of `.json` files in the telemetry,
    heartbeat, snapshot and sync-state directories (a missing directory counts
    0). Counting the files is left to the caller. */
module Kernel {
  datatype Counts = Counts(telemetry: nat, heartbeat: nat, snapshot: nat, state: nat)

  const HeartbeatMissing := "heartbeat_missing"
  const CreateSnapshot := "create_snapshot"
  const RequestSync := "request_sync"

  /** The actions in the order they are checked. */
  const AllActions := [HeartbeatMissing, CreateSnapshot, RequestSync]

  /** How many entries of `s` are zero. */
  function Zeros(s: seq<nat>): nat {
    if s == [] then 0 else (if s[0] == 0 then 1 else 0) + Zeros(s[1..])
  }

  /** `Zeros` on four counts, one term per count. */
  lemma ZerosOfFour(a: nat, b: nat, c: nat, d: nat)
    ensures Zeros([a, b, c, d]) ==
      (if a == 0 then 1 else 0) + (if b == 0 then 1 else 0) + (if c == 0 then 1 else 0) + (if d == 0 then 1 else 0)
  {
    assert [a, b, c, d][1..] == [b, c, d];
    assert [b, c, d][1..] == [c, d];
    assert [c, d][1..] == [d];
    assert [d][1..] == [];
    assert Zeros([d]) == (if d == 0 then 1 else 0);
    assert Zeros([c, d]) == (if c == 0 then 1 else 0) + Zeros([d]);
    assert Zeros([b, c, d]) == (if b == 0 then 1 else 0) + Zeros([c, d]);
  }

  /** The four counts in report order. */
  function AsList(c: Counts): seq<nat> {
    [c.telemetry, c.heartbeat, c.snapshot, c.state]
  }

  /** `healthScore`: 100, less 20 for each empty directory. */
  function HealthScore(c: Counts): (score: int)
    ensures score == 100 - 20 * Zeros(AsList(c))
    ensures 20 <= score <= 100
    ensures score == 100 <==> c.telemetry > 0 && c.heartbeat > 0 && c.snapshot > 0 && c.state > 0
  {
    var s0 := 100;
    var s1 := if c.telemetry == 0 then s0 - 20 else s0;
    var s2 := if c.heartbeat == 0 then s1 - 20 else s1;
    var s3 := if c.snapshot == 0 then s2 - 20 else s2;
    var s4 := if c.state == 0 then s3 - 20 else s3;
    ZerosOfFour(c.telemetry, c.heartbeat, c.snapshot, c.state);
    s4
  }

  /** `actions`: one suggestion per empty heartbeat, snapshot or state directory,
      in that order; an empty telemetry directory suggests nothing. */
  function Actions(c: Counts): (r: seq<string>)
    ensures HeartbeatMissing in r <==> c.heartbeat == 0
    ensures CreateSnapshot in r <==> c.snapshot == 0
    ensures RequestSync in r <==> c.state == 0
    ensures |r| == Zeros(AsList(c)) - (if c.telemetry == 0 then 1 else 0)
    ensures forall i, j :: 0 <= i < j < |r| ==>
      exists a, b :: 0 <= a < b < |AllActions| && r[i] == AllActions[a] && r[j] == AllActions[b]
  {
    var heartbeat := if c.heartbeat == 0 then [HeartbeatMissing] else [];
    var snapshot := if c.snapshot == 0 then [CreateSnapshot] else [];
    var sync := if c.state == 0 then [RequestSync] else [];
    ZerosOfFour(c.telemetry, c.heartbeat, c.snapshot, c.state);
    assert AllActions[0] == HeartbeatMissing && AllActions[1] == CreateSnapshot && AllActions[2] == RequestSync;
    heartbeat + snapshot + sync
  }

  /** The telemetry count moves the score and never the actions. */
  lemma TelemetryOnlyScores(c: Counts, telemetry: nat)
    ensures Actions(c.(telemetry := telemetry)) == Actions(c)
    ensures c.telemetry == 0 && telemetry > 0 ==> HealthScore(c.(telemetry := telemetry)) == HealthScore(c) + 20
  {
  }

  /** Every action costs the score 20 points, and one more 20 may come from an empty
      telemetry directory. */
  lemma ScoreAndActions(c: Counts)
    ensures HealthScore(c) == 100 - 20 * |Actions(c)| - (if c.telemetry == 0 then 20 else 0)
  {
  }
}
