/** The migrate-pulsar job (daemon/workers/migrate_pulsar.py) over the state each
    peer's `apply_pulsar_host_change` touches (daemon/handlers.py, lib/render.sh). */
module MigratePulsar {
  import opened Text
  import opened NodeNames

  /** `env` is the PULSAR_HOST the peer's cluster.env resolves to, `points` the broker
      its running Milvus containers use, `broker` whether its own Pulsar container
      runs. */
  datatype Peer = Peer(ip: string, env: string, points: string, broker: bool)

  type Peers = map<string, Peer>

  /** How one sync call ends: done; answered 200 without any effect; or failed,
      leaving the peer in some state. */
  datatype Call = Applied | Swallowed | Failed(env: string, points: string, broker: bool)

  datatype Result =
    | Refused
    | NothingToDo
    | Unreachable
    | Aborted(at: string)
    | Mismatch
    | Migrated

  /** Write PULSAR_HOST, re-render, recreate: the Pulsar service is rendered on the
      named host only and pruned as an orphan elsewhere. */
  function SyncHost(name: string, p: Peer, target: string): Peer {
    p.(env := target, points := target, broker := name == target)
  }

  function AfterCall(peers: Peers, name: string, target: string, call: Call): Peers
    requires name in peers
  {
    match call
    case Applied => peers[name := SyncHost(name, peers[name], target)]
    case Swallowed => peers
    case Failed(env, points, broker) => peers[name := Peer(peers[name].ip, env, points, broker)]
  }

  // ----- what the claims speak about

  /** Every peer agrees on one running broker. */
  ghost predicate Uniform(peers: Peers, host: string) {
    && host in peers
    && forall n :: n in peers ==> peers[n].env == host && peers[n].points == host && (peers[n].broker <==> n == host)
  }

  /** Every peer with an IP, the excepted one aside, uses a broker that is running. */
  ghost predicate Served(peers: Peers, except: Option<string>) {
    forall n :: n in peers && peers[n].ip != "" && except != Some(n) ==>
      peers[n].points in peers && peers[peers[n].points].broker
  }

  ghost predicate Distinct(xs: seq<string>) {
    forall i, j :: 0 <= i < j < |xs| ==> xs[i] != xs[j]
  }

  /** Target first, then the others by (suffix, name), old host last; every peer with
      an IP exactly once. */
  ghost predicate IsOrder(order: seq<string>, peers: Peers, target: string, oldHost: string) {
    && Distinct(order)
    && (forall n :: n in order <==> n in peers && peers[n].ip != "")
    && |order| > 0 && order[0] == target
    && (forall i, j :: 1 <= i < j < |order| && order[j] != oldHost ==> Precedes(order[i], order[j]))
    && (oldHost in peers && peers[oldHost].ip != "" ==> order[|order| - 1] == oldHost)
  }

  lemma Assembled(first: string, middle: seq<string>, last: seq<string>, current: string)
    requires Ascending(middle) && first !in middle && current !in middle && first != current
    requires last == [] || last == [current]
    ensures var order := [first] + middle + last;
            && Distinct(order)
            && forall i, j :: 1 <= i < j < |order| && order[j] != current ==> Precedes(order[i], order[j])
  {
    AscendingDistinct(middle);
    var order := [first] + middle + last;
    forall i, j | 1 <= i < j < |order| && order[j] != current ensures Precedes(order[i], order[j]) {
      assert order[i] == middle[i - 1] && order[j] == middle[j - 1];
    }
  }

  /** Building `sequenced`. */
  method BuildOrder(peers: Peers, target: string, current: string, skipCurrent: bool) returns (order: seq<string>)
    requires target in peers && peers[target].ip != "" && target != current
    ensures !skipCurrent ==> IsOrder(order, peers, target, current)
    ensures skipCurrent ==> IsOrder(order, peers - {current}, target, current)
  {
    var milvusOnly := set n | n in peers && n != target && n != current && peers[n].ip != "";
    var middle := KeepSorted(peers.Keys, milvusOnly);
    order := [target] + middle;
    if current in peers && peers[current].ip != "" && !skipCurrent {
      order := order + [current];
      Assembled(target, middle, [current], current);
    } else {
      Assembled(target, middle, [], current);
      assert order + [] == order;
    }
  }

  /** A run of calls along `order` that stops at the first one that fails. */
  ghost predicate IsRun(trace: seq<Peers>, order: seq<string>, target: string, call: string -> Call) {
    && 0 < |trace| <= |order| + 1
    && (forall k {:trigger trace[k], order[k]} :: 0 <= k < |trace| - 1 ==>
          order[k] in trace[k] && trace[k + 1] == AfterCall(trace[k], order[k], target, call(order[k])))
    && (forall k :: 0 <= k < |trace| - 2 ==> !call(order[k]).Failed?)
  }

  ghost predicate SamePeers(a: Peers, b: Peers) {
    a.Keys == b.Keys && forall n :: n in a ==> a[n].ip == b[n].ip
  }

  lemma RunGrows(trace: seq<Peers>, order: seq<string>, target: string, call: string -> Call)
    requires IsRun(trace, order, target, call) && |trace| <= |order|
    requires forall k :: 0 <= k < |trace| - 1 ==> !call(order[k]).Failed?
    requires order[|trace| - 1] in trace[|trace| - 1]
    ensures var k := |trace| - 1;
            IsRun(trace + [AfterCall(trace[k], order[k], target, call(order[k]))], order, target, call)
  {
  }

  lemma SameAfterCall(start: Peers, peers: Peers, name: string, target: string, call: Call)
    requires SamePeers(start, peers) && name in peers
    ensures SamePeers(start, AfterCall(peers, name, target, call))
  {
  }

  lemma NoneFailed(order: seq<string>, call: string -> Call)
    requires forall k :: 0 <= k < |order| ==> !call(order[k]).Failed?
    ensures forall n :: n in order ==> !call(n).Failed?
  {
  }

  /** The apply sweep: one call per peer in order, fail-loud. */
  method ApplySweep(start: Peers, order: seq<string>, target: string, call: string -> Call)
    returns (failed: bool, trace: seq<Peers>)
    requires forall n :: n in order ==> n in start
    ensures IsRun(trace, order, target, call) && trace[0] == start
    ensures SamePeers(start, trace[|trace| - 1])
    ensures forall n :: n in start && n !in order ==> trace[|trace| - 1][n] == start[n]
    ensures failed ==> |trace| > 1 && call(order[|trace| - 2]).Failed?
    ensures !failed ==> |trace| == |order| + 1 && forall n :: n in order ==> !call(n).Failed?
  {
    var peers := start;
    trace := [peers];
    for i := 0 to |order|
      invariant |trace| == i + 1 && trace[0] == start && trace[i] == peers
      invariant SamePeers(start, peers)
      invariant forall n :: n in start && n !in order ==> peers[n] == start[n]
      invariant IsRun(trace, order, target, call)
      invariant forall k :: 0 <= k < i ==> !call(order[k]).Failed?
    {
      var name := order[i];
      assert name in order && name in peers;
      RunGrows(trace, order, target, call);
      SameAfterCall(start, peers, name, target, call(name));
      peers := AfterCall(peers, name, target, call(name));
      trace := trace + [peers];
      if call(name).Failed? {
        return true, trace;
      }
    }
    failed := false;
    NoneFailed(order, call);
  }

  /** `_verify_pulsar_host_everywhere` on the peers not excluded. */
  method Verify(peers: Peers, target: string, excluded: set<string>, answers: set<string>) returns (ok: bool)
    ensures ok <==> forall n :: n in peers && peers[n].ip != "" && n !in excluded ==>
      n in answers && peers[n].env == target
  {
    var mismatches := set n | n in peers && peers[n].ip != "" && n !in excluded
                              && (n !in answers || peers[n].env != target);
    ok := mismatches == {};
    assert !ok ==> exists n :: n in mismatches;
    assert ok ==> forall n :: n in peers ==> n !in mismatches;
  }

  function MissedBy(peers: Peers, reachable: set<string>): set<string> {
    set n | n in peers && peers[n].ip != "" && n !in reachable
  }

  /** A forced run leaves out an old host whose probe failed. */
  function Skips(start: Peers, reachable: set<string>, current: string, force: bool): bool {
    force && current in MissedBy(start, reachable)
  }

  /** The peers a run calls and reads back. */
  function Called(start: Peers, reachable: set<string>, current: string, force: bool): Peers {
    if Skips(start, reachable, current, force) then start - {current} else start
  }

  /** Every called peer with an IP resolves PULSAR_HOST to the target. */
  ghost predicate AllOn(last: Peers, called: Peers, target: string) {
    forall n :: n in called && called[n].ip != "" ==> n in last && last[n].env == target
  }

  /** The preflight fails on any peer with an IP that does not answer, in a forced run on
      any but the old host. */
  lemma PreflightFails(start: Peers, reachable: set<string>, current: string, force: bool)
    ensures var missed := MissedBy(start, reachable);
            missed != {} && !(force && missed == {current}) <==>
              exists n :: n in start && start[n].ip != "" && n !in reachable && !(force && n == current)
  {
    var missed := MissedBy(start, reachable);
    if missed != {} && !(force && missed == {current}) {
      if !force || current !in missed {
        var n :| n in missed;
        assert n in start && start[n].ip != "" && n !in reachable && !(force && n == current);
      } else {
        OnlyOne(missed, current);
        var n :| n in missed - {current};
        assert n in start && start[n].ip != "" && n !in reachable && !(force && n == current);
      }
    }
    if n :| n in start && start[n].ip != "" && n !in reachable && !(force && n == current) {
      assert n in missed;
    }
  }

  lemma OnlyOne(s: set<string>, x: string)
    requires x in s && s != {x}
    ensures s - {x} != {}
  {
    assert s == {x} + (s - {x});
  }

  /** The calls along the order, then the read-back of the called peers. */
  method SweepAndVerify(start: Peers, called: Peers, order: seq<string>, target: string, call: string -> Call,
                        answers: set<string>)
    returns (result: Result, trace: seq<Peers>)
    requires called.Keys <= start.Keys && (forall n :: n in called ==> called[n] == start[n])
    requires forall n :: n in order ==> n in start
    ensures result.Aborted? || result.Mismatch? || result.Migrated?
    ensures IsRun(trace, order, target, call) && trace[0] == start && SamePeers(start, trace[|trace| - 1])
    ensures forall n :: n in start && n !in order ==> trace[|trace| - 1][n] == start[n]
    ensures result.Aborted? ==>
      1 < |trace| && order[|trace| - 2] == result.at && call(result.at).Failed?
    ensures result.Mismatch? || result.Migrated? ==>
      |trace| == |order| + 1 && forall n :: n in order ==> !call(n).Failed?
    ensures result.Migrated? ==> AllOn(trace[|trace| - 1], called, target)
    ensures result.Mismatch? ==>
      !AllOn(trace[|trace| - 1], called, target) || exists n :: n in called && called[n].ip != "" && n !in answers
  {
    var failed;
    failed, trace := ApplySweep(start, order, target, call);
    if failed {
      return Aborted(order[|trace| - 2]), trace;
    }
    var last := trace[|trace| - 1];
    var ok := Verify(last, target, start.Keys - called.Keys, answers);
    return if ok then Migrated else Mismatch, trace;
  }

  /** `run_migrate_pulsar`.  `current` is PULSAR_HOST in the leader's own file,
      `reachable` the peers whose preflight probe answers, `call` how the sync call to
      each peer ends, `answers` the peers whose post-verify read answers.  Refusals,
      the early exit and a failed preflight change nothing and call nobody; a run past
      them follows the order, stops at the first failing call, and reports success
      only after every peer with an IP was read back on the target. */
  method RunMigratePulsar(
      start: Peers, target: string, current: string, force: bool, isPulsar: bool, isLeader: bool,
      reachable: set<string>, call: string -> Call, answers: set<string>)
    returns (result: Result, order: seq<string>, trace: seq<Peers>)
    ensures |trace| > 0 && trace[0] == start
    ensures result.Refused? <==> !isPulsar || !isLeader || target !in start || start[target].ip == ""
    ensures result.NothingToDo? <==> !result.Refused? && current == target
    ensures result.Unreachable? <==>
      && !result.Refused? && !result.NothingToDo? && MissedBy(start, reachable) != {}
      && !(force && MissedBy(start, reachable) == {current})
    ensures result.Refused? || result.NothingToDo? || result.Unreachable? ==> trace == [start] && order == []
    ensures SamePeers(start, trace[|trace| - 1])
    ensures result.Aborted? || result.Mismatch? || result.Migrated? ==>
      IsRun(trace, order, target, call) && IsOrder(order, Called(start, reachable, current, force), target, current)
    ensures result.Aborted? ==>
      1 < |trace| && order[|trace| - 2] == result.at && call(result.at).Failed?
    ensures result.Mismatch? || result.Migrated? ==>
      |trace| == |order| + 1 && forall n :: n in order ==> !call(n).Failed?
    ensures result.Migrated? ==>
      AllOn(trace[|trace| - 1], Called(start, reachable, current, force), target)
    ensures !result.Refused? && !result.NothingToDo? ==>
      (result.Unreachable? <==>
        exists n :: n in start && start[n].ip != "" && n !in reachable && !(force && n == current))
    ensures result.Aborted? || result.Mismatch? || result.Migrated? ==>
      && (forall n :: n in order <==>
            n in start && start[n].ip != "" && !(force && n == current && n !in reachable))
      && (forall n :: n in start && n !in order ==> trace[|trace| - 1][n] == start[n])
    ensures result.Migrated? ==> forall n :: n in order ==> n in trace[|trace| - 1] && trace[|trace| - 1][n].env == target
    ensures result.Mismatch? ==>
      var called := Called(start, reachable, current, force);
      !AllOn(trace[|trace| - 1], called, target) || exists n :: n in called && called[n].ip != "" && n !in answers
  {
    order, trace := [], [start];
    PreflightFails(start, reachable, current, force);
    if !isPulsar || !isLeader || target !in start || start[target].ip == "" {
      return Refused, order, trace;
    }
    if current == target {
      return NothingToDo, order, trace;
    }
    var unreachable := MissedBy(start, reachable);
    if !(force && unreachable == {current}) && unreachable != {} {
      return Unreachable, order, trace;
    }
    var skipCurrent := force && current in unreachable;
    order := BuildOrder(start, target, current, skipCurrent);
    var called := if skipCurrent then start - {current} else start;
    assert called == Called(start, reachable, current, force);
    result, trace := SweepAndVerify(start, called, order, target, call, answers);
  }

  // ----- brokers stay up

  /** The state after the first k calls of a run whose calls take effect. */
  ghost predicate Rolled(m: Peers, start: Peers, order: seq<string>, k: nat, target: string)
    requires k <= |order|
  {
    && m.Keys == start.Keys
    && forall n :: n in start ==> m[n] == if n in order[..k] then SyncHost(n, start[n], target) else start[n]
  }

  lemma NotBefore(order: seq<string>, k: nat, j: nat)
    requires Distinct(order) && k <= j < |order|
    ensures order[j] !in order[..k]
  {
  }

  lemma RolledIsServed(m: Peers, start: Peers, order: seq<string>, k: nat, target: string, current: string)
    requires Uniform(start, current) && target in start && target != current
    requires IsOrder(order, start, target, current) && k <= |order| && Rolled(m, start, order, k, target)
    ensures Served(m, None)
  {
    forall n | n in m && m[n].ip != "" ensures m[n].points in m && m[m[n].points].broker {
      assert n in order;
      if n in order[..k] {
        assert order[0] in order[..k];
      } else {
        assert k < |order| by { assert order[..|order|] == order; }
        OldHostWaits(start, order, k, target, current);
      }
    }
  }

  /** Until the last call the old host has not been touched. */
  lemma OldHostWaits(start: Peers, order: seq<string>, k: nat, target: string, current: string)
    requires current in start && IsOrder(order, start, target, current) && k < |order|
    ensures current !in order[..k]
  {
    if start[current].ip != "" {
      NotBefore(order, k, |order| - 1);
    } else {
      assert current !in order;
    }
  }

  lemma FailedIsServed(m: Peers, start: Peers, order: seq<string>, k: nat, target: string, current: string,
                       after: Peer)
    requires Uniform(start, current) && target in start && target != current
    requires IsOrder(order, start, target, current) && k < |order| && Rolled(m, start, order, k, target)
    ensures order[k] in m && Served(m[order[k] := after], Some(order[k]))
  {
    var x := order[k];
    assert x in order;
    var m' := m[x := after];
    OldHostWaits(start, order, k, target, current);
    forall n | n in m' && m'[n].ip != "" && n != x ensures m'[n].points in m' && m'[m'[n].points].broker {
      assert n in order;
      var j :| 0 <= j < |order| && order[j] == n;
      if j < k {
        assert n in order[..k] && order[0] in order[..k];
      } else {
        NotBefore(order, k, j);
        assert j > k;
        assert x != current;
      }
    }
  }

  lemma RollOne(m: Peers, start: Peers, order: seq<string>, k: nat, target: string)
    requires k < |order| && Distinct(order) && order[k] in m && Rolled(m, start, order, k, target)
    ensures Rolled(m[order[k] := SyncHost(order[k], m[order[k]], target)], start, order, k + 1, target)
  {
    assert order[..k + 1] == order[..k] + [order[k]];
  }

  lemma {:induction false} RollsTo(start: Peers, trace: seq<Peers>, order: seq<string>, target: string,
                                   call: string -> Call, k: nat)
    requires IsRun(trace, order, target, call) && trace[0] == start && Distinct(order)
    requires k < |trace| && (forall i :: 0 <= i < k ==> call(order[i]).Applied?)
    ensures Rolled(trace[k], start, order, k, target)
  {
    if k > 0 {
      RollsTo(start, trace, order, target, call, k - 1);
      RollOne(trace[k - 1], start, order, k - 1, target);
    }
  }

  /** Starting from a uniform PULSAR_HOST, when every call that answers 200 took
      effect, every peer with an IP uses a running broker at every step of a
      non-forced run, and after an abort every such peer but the one whose call
      failed. */
  lemma EveryStepIsServed(start: Peers, trace: seq<Peers>, order: seq<string>, target: string, current: string,
                          call: string -> Call, k: nat)
    requires Uniform(start, current) && target in start && target != current
    requires IsOrder(order, start, target, current)
    requires IsRun(trace, order, target, call) && trace[0] == start && k < |trace|
    requires forall n :: n in order ==> !call(n).Swallowed?
    ensures k < |trace| - 1 || k == 0 || call(order[k - 1]).Applied? ==> Served(trace[k], None)
    ensures k > 0 && call(order[k - 1]).Failed? ==> Served(trace[k], Some(order[k - 1]))
  {
    forall i | 0 <= i < |trace| - 2 ensures call(order[i]).Applied? { assert order[i] in order; }
    if k == 0 {
      RollsTo(start, trace, order, target, call, 0);
      RolledIsServed(trace[0], start, order, 0, target, current);
    } else {
      var c := call(order[k - 1]);
      assert order[k - 1] in order;
      RollsTo(start, trace, order, target, call, k - 1);
      if c.Failed? {
        FailedIsServed(trace[k - 1], start, order, k - 1, target, current,
                       Peer(trace[k - 1][order[k - 1]].ip, c.env, c.points, c.broker));
      } else {
        RollsTo(start, trace, order, target, call, k);
        RolledIsServed(trace[k], start, order, k, target, current);
      }
    }
  }

  /** A completed run whose calls took effect ends uniform again, when every peer has
      an IP. */
  lemma CompletedIsUniform(start: Peers, trace: seq<Peers>, order: seq<string>, target: string, current: string,
                           call: string -> Call)
    requires Uniform(start, current) && target in start && target != current
    requires IsOrder(order, start, target, current) && forall n :: n in start ==> start[n].ip != ""
    requires IsRun(trace, order, target, call) && trace[0] == start && |trace| == |order| + 1
    requires forall n :: n in order ==> call(n).Applied?
    ensures Uniform(trace[|order|], target)
  {
    forall i | 0 <= i < |order| ensures call(order[i]).Applied? { assert order[i] in order; }
    RollsTo(start, trace, order, target, call, |order|);
    assert order[..|order|] == order;
  }

  // ----- running it again after an abort

  /** A completed run whose calls took effect is read back on the target. */
  lemma EffectiveRunIsOn(start: Peers, trace: seq<Peers>, order: seq<string>, target: string, current: string,
                         call: string -> Call)
    requires IsOrder(order, start, target, current) && IsRun(trace, order, target, call) && trace[0] == start
    requires |trace| == |order| + 1 && forall n :: n in order ==> call(n).Applied?
    ensures AllOn(trace[|order|], start, target)
  {
    forall i | 0 <= i < |order| ensures call(order[i]).Applied? { assert order[i] in order; }
    RollsTo(start, trace, order, target, call, |order|);
    assert order[..|order|] == order;
  }

  /** A non-forced run whose probes, calls and reads all work. */
  method Rerun(m: Peers, target: string, leader: string) returns (result: Result, last: Peers)
    requires target in m && m[target].ip != "" && leader in m
    ensures result.NothingToDo? || result.Migrated?
    ensures result.NothingToDo? <==> m[leader].env == target
    ensures result.NothingToDo? ==> last == m
    ensures SamePeers(m, last) && (result.Migrated? ==> AllOn(last, m, target))
  {
    var all, works := m.Keys, (n: string) => Applied;
    var order, trace;
    result, order, trace := RunMigratePulsar(m, target, m[leader].env, false, true, true, all, works, all);
    last := trace[|trace| - 1];
    assert MissedBy(m, all) == {};
    if order != [] && |trace| == |order| + 1 {
      EffectiveRunIsOn(m, trace, order, target, m[leader].env, works);
    }
  }

  /** The peer's file names the target after an abort at position j. */
  ghost predicate Switched(order: seq<string>, j: nat, target: string, call: string -> Call, n: string)
    requires j < |order|
  {
    n in order[..j] || (n == order[j] && call(n).Failed? && call(n).env == target)
  }

  lemma AbortLeaves(start: Peers, trace: seq<Peers>, order: seq<string>, target: string, current: string,
                    call: string -> Call, j: nat)
    requires Uniform(start, current) && target in start && target != current && IsOrder(order, start, target, current)
    requires IsRun(trace, order, target, call) && trace[0] == start && j == |trace| - 2 && call(order[j]).Failed?
    requires forall n :: n in order ==> !call(n).Swallowed?
    ensures forall n :: n in start && start[n].ip != "" ==>
      n in trace[j + 1] && (trace[j + 1][n].env == target <==> Switched(order, j, target, call, n))
  {
    forall i | 0 <= i < j ensures call(order[i]).Applied? { assert order[i] in order; }
    RollsTo(start, trace, order, target, call, j);
    assert order[j] in order;
    NotBefore(order, j, j);
  }

  lemma AbortLeavesSome(start: Peers, m: Peers, order: seq<string>, target: string, current: string,
                        call: string -> Call, j: nat)
    requires j < |order| && IsOrder(order, start, target, current)
    requires forall n :: n in start && start[n].ip != "" ==>
      n in m && (m[n].env == target <==> Switched(order, j, target, call, n))
    ensures AllOn(m, start, target) <==> j == |order| - 1 && Switched(order, j, target, call, order[j])
  {
    NotBefore(order, j, j);
    assert order[j] in order;
    if j < |order| - 1 {
      NotBefore(order, j, j + 1);
      assert order[j + 1] in order && !Switched(order, j, target, call, order[j + 1]);
    } else {
      assert order == order[..j] + [order[j]];
    }
  }

  /** The abort's advice is to run the job again.  After an abort at position j the rerun,
      even if everything works, ends with every peer's file on the target if and only if
      the leader's own file had not been switched yet -- or only the last peer's call had
      failed, after switching its file.  Otherwise the rerun finds nothing to do. */
  method RerunAfterAbort(start: Peers, target: string, current: string, leader: string, reachable: set<string>,
                         call: string -> Call, answers: set<string>)
    returns (first: Result, second: Result, order: seq<string>, trace: seq<Peers>, last: Peers)
    requires Uniform(start, current) && leader in start && start[leader].ip != ""
    requires forall n :: n in start ==> !call(n).Swallowed?
    ensures first.Aborted? ==>
      var j := |trace| - 2;
      && 0 <= j < |order| && order[j] == first.at && IsOrder(order, start, target, current)
      && (AllOn(last, start, target) <==>
            !Switched(order, j, target, call, leader)
            || (j == |order| - 1 && Switched(order, j, target, call, order[j])))
      && (second.NothingToDo? <==> Switched(order, j, target, call, leader))
  {
    first, order, trace := RunMigratePulsar(start, target, start[leader].env, false, true, true, reachable, call, answers);
    last, second := trace[|trace| - 1], first;
    if first.Aborted? {
      var j, m := |trace| - 2, last;
      AbortLeaves(start, trace, order, target, current, call, j);
      AbortLeavesSome(start, m, order, target, current, call, j);
      second, last := Rerun(m, target, leader);
    }
  }

  // ----- calls that answer 200 without effect

  /** The state after the first k calls, the swallowed ones without effect. */
  ghost predicate RolledBy(m: Peers, start: Peers, order: seq<string>, k: nat, target: string, call: string -> Call)
    requires k <= |order|
  {
    && m.Keys == start.Keys
    && forall n :: n in start ==>
         m[n] == if n in order[..k] && call(n).Applied? then SyncHost(n, start[n], target) else start[n]
  }

  lemma RollByOne(m: Peers, start: Peers, order: seq<string>, k: nat, target: string, call: string -> Call)
    requires k < |order| && Distinct(order) && order[k] in m && !call(order[k]).Failed?
    requires RolledBy(m, start, order, k, target, call)
    ensures RolledBy(AfterCall(m, order[k], target, call(order[k])), start, order, k + 1, target, call)
  {
    assert order[..k + 1] == order[..k] + [order[k]];
    NotBefore(order, k, k);
  }

  lemma StepOfRun(trace: seq<Peers>, order: seq<string>, target: string, call: string -> Call, k: nat)
    requires IsRun(trace, order, target, call) && k + 1 < |trace|
    ensures k < |order| && order[k] in trace[k]
    ensures trace[k + 1] == AfterCall(trace[k], order[k], target, call(order[k]))
  {
  }

  lemma RollsStep(start: Peers, trace: seq<Peers>, order: seq<string>, target: string, call: string -> Call, k: nat)
    requires IsRun(trace, order, target, call) && Distinct(order) && k + 1 < |trace| && !call(order[k]).Failed?
    requires RolledBy(trace[k], start, order, k, target, call)
    ensures RolledBy(trace[k + 1], start, order, k + 1, target, call)
  {
    StepOfRun(trace, order, target, call, k);
    RollByOne(trace[k], start, order, k, target, call);
  }

  lemma NothingRolled(start: Peers, order: seq<string>, target: string, call: string -> Call)
    ensures RolledBy(start, start, order, 0, target, call)
  {
  }

  lemma {:induction false} RollsByTo(start: Peers, trace: seq<Peers>, order: seq<string>, target: string,
                                     call: string -> Call, k: nat)
    requires IsRun(trace, order, target, call) && trace[0] == start && Distinct(order)
    requires k < |trace| && (forall i :: 0 <= i < k ==> !call(order[i]).Failed?)
    ensures RolledBy(trace[k], start, order, k, target, call)
  {
    if k == 0 {
      NothingRolled(start, order, target, call);
    } else {
      RollsByTo(start, trace, order, target, call, k - 1);
      RollsStep(start, trace, order, target, call, k - 1);
    }
  }

  /** The swallowed calls do no harm: all were swallowed, or the target's was not and
      either the old host keeps its broker or nobody is left on it. */
  ghost predicate Harmless(order: seq<string>, target: string, current: string, call: string -> Call) {
    || (forall n :: n in order ==> !call(n).Applied?)
    || (&& call(target).Applied?
        && (current !in order || !call(current).Applied? || forall n :: n in order ==> call(n).Applied?))
  }

  /** While some peer still uses it. */
  lemma OldHostKeepsBroker(start: Peers, order: seq<string>, k: nat, target: string, current: string,
                           call: string -> Call, n: string)
    requires current in start && IsOrder(order, start, target, current) && k <= |order|
    requires Harmless(order, target, current, call)
    requires n in order && !(n in order[..k] && call(n).Applied?)
    ensures current in order[..k] ==> !call(current).Applied?
  {
    if k < |order| {
      OldHostWaits(start, order, k, target, current);
    } else {
      assert order[..k] == order;
    }
  }

  lemma HarmlessIsServed(m: Peers, start: Peers, order: seq<string>, k: nat, target: string, current: string,
                         call: string -> Call)
    requires Uniform(start, current) && target in start && target != current
    requires IsOrder(order, start, target, current) && k <= |order| && RolledBy(m, start, order, k, target, call)
    requires Harmless(order, target, current, call)
    ensures Served(m, None)
  {
    forall n | n in m && m[n].ip != "" ensures m[n].points in m && m[m[n].points].broker {
      assert n in order;
      if n in order[..k] && call(n).Applied? {
        assert order[0] in order[..k] && order[0] in order;
      } else {
        OldHostKeepsBroker(start, order, k, target, current, call, n);
      }
    }
  }

  lemma HarmfulIsUnserved(m: Peers, start: Peers, order: seq<string>, target: string, current: string,
                          call: string -> Call)
    requires Uniform(start, current) && target in start && target != current
    requires IsOrder(order, start, target, current) && RolledBy(m, start, order, |order|, target, call)
    requires !Harmless(order, target, current, call)
    ensures !Served(m, None)
  {
    assert order[..|order|] == order;
    if !call(target).Applied? {
      var x :| x in order && call(x).Applied?;
      assert x in m && m[x].ip != "" && m[x].points == target && !m[target].broker;
    } else {
      var y :| y in order && !call(y).Applied?;
      assert y in m && m[y].ip != "" && m[y].points == current && !m[current].broker;
    }
  }

  /** Of a run that completes although some calls were swallowed: every peer uses a
      running broker at every step if and only if the swallowed calls are harmless; one
      swallowed by the old host alone strands nobody.  The post-verify passes if and
      only if none was swallowed. */
  lemma SwallowedCallsStrandExactly(start: Peers, trace: seq<Peers>, order: seq<string>, target: string,
                                    current: string, call: string -> Call)
    requires Uniform(start, current) && target in start && target != current
    requires IsOrder(order, start, target, current)
    requires IsRun(trace, order, target, call) && trace[0] == start && |trace| == |order| + 1
    requires forall n :: n in order ==> !call(n).Failed?
    ensures (forall k :: 0 <= k < |trace| ==> Served(trace[k], None)) <==> Harmless(order, target, current, call)
    ensures AllOn(trace[|order|], start, target) <==> forall n :: n in order ==> call(n).Applied?
  {
    forall k | 0 <= k < |trace| ensures RolledBy(trace[k], start, order, k, target, call) {
      forall i | 0 <= i < k ensures !call(order[i]).Failed? { assert order[i] in order; }
      RollsByTo(start, trace, order, target, call, k);
    }
    if Harmless(order, target, current, call) {
      forall k | 0 <= k < |trace| ensures Served(trace[k], None) {
        HarmlessIsServed(trace[k], start, order, k, target, current, call);
      }
    } else {
      HarmfulIsUnserved(trace[|order|], start, order, target, current, call);
    }
    VerifySeesSwallowed(trace[|order|], start, order, target, current, call);
  }

  lemma VerifySeesSwallowed(m: Peers, start: Peers, order: seq<string>, target: string, current: string,
                            call: string -> Call)
    requires Uniform(start, current) && target in start && target != current
    requires IsOrder(order, start, target, current) && RolledBy(m, start, order, |order|, target, call)
    ensures AllOn(m, start, target) <==> forall n :: n in order ==> call(n).Applied?
  {
    assert order[..|order|] == order;
    if AllOn(m, start, target) {
      forall n | n in order ensures call(n).Applied? {
        assert n in start && start[n].ip != "" && m[n].env == target;
      }
    }
  }
}
