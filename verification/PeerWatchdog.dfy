/** The peer reachability watchdog (daemon/watchdog.py): DOWN and UP alerts, and the
    opt-in migration of the Pulsar singleton off a host that stays down. */
module PeerWatchdog {
  import opened Text
  import opened NodeNames
  import opened PulsarDeploy

  datatype Config = Config(downAt: nat, migrateAt: nat, autoMigrate: bool, localIp: string)

  // ----- one peer

  /** The entries kept under one peer name. */
  datatype Cell = Cell(misses: nat, downSince: Option<real>, fired: bool)

  const FRESH := Cell(0, None, false)

  datatype Alert = Down | Up

  /** What the auto-migrate gate sees while a peer is down: whether this daemon leads,
      MQ_TYPE, MILVUS_IMAGE_TAG and PULSAR_HOST in its file, the peers that have an IP,
      and whether creating the job succeeds. */
  datatype Gate = Gate(
    leads: bool, mqType: string, tag: string, host: string, withIp: set<string>, creates: bool)

  datatype Seen = Skipped | Reached | Missed

  datatype Result = Result(cell: Cell, alert: Option<Alert>, job: Option<string>)

  /** `_maybe_auto_migrate_pulsar`: the target of the job it creates, if it does. */
  function JobFor(name: string, g: Gate): (job: Option<string>)
    ensures job.Some? ==> IsLeast(job.value, g.withIp - {name})
  {
    var survivors := g.withIp - {name};
    if WatchdogSaysPulsar(g.mqType, g.tag) && name == g.host && survivors != {} && g.creates then Some(Least(survivors)) else None
  }

  function Step(name: string, c: Cell, seen: Seen, now: real, g: Gate, cfg: Config): Result {
    match seen
    case Skipped => Result(c, None, None)
    case Reached =>
      if c.misses >= cfg.downAt then Result(FRESH, Some(Up), None)
      else Result(Cell(0, c.downSince, false), None, None)
    case Missed =>
      var m := c.misses + 1;
      var c' := c.(misses := m, downSince := if m == cfg.downAt then Some(now) else c.downSince);
      var alert := if m == cfg.downAt then Some(Down) else None;
      if cfg.autoMigrate && g.leads && !c.fired && m >= cfg.migrateAt then
        var job := JobFor(name, g);
        Result(c'.(fired := job.Some?), alert, job)
      else Result(c', alert, None)
  }

  // ----- the object

  function Get<V>(m: map<string, V>, name: string): Option<V> {
    if name in m then Some(m[name]) else None
  }

  ghost predicate DistinctNames(peers: seq<(string, string)>) {
    forall i, j :: 0 <= i < j < |peers| ==> peers[i].0 != peers[j].0
  }

  /** Peers without an IP and this host itself are not probed. */
  function SeenOf(ip: string, up: bool, cfg: Config): Seen {
    if ip == "" || ip == cfg.localIp then Skipped else if up then Reached else Missed
  }

  /** A tick in the words of one probe: a peer that is not probed is left alone; one that
      answers starts over, with an UP if it had been down; one that does not gets one more
      miss, with a DOWN at the threshold. */
  ghost predicate InWords(ip: string, up: bool, before: Cell, after: Cell, alert: Option<Alert>, job: Option<string>,
                          cfg: Config) {
    if ip == "" || ip == cfg.localIp then after == before && alert.None? && job.None?
    else if up then
      && after.misses == 0 && !after.fired && job.None?
      && alert == (if before.misses >= cfg.downAt then Some(Up) else None)
    else
      && after.misses == before.misses + 1
      && alert == (if before.misses + 1 == cfg.downAt then Some(Down) else None)
      && (after.fired <==> before.fired || job.Some?)
  }

  lemma StepInWords(name: string, ip: string, up: bool, c: Cell, now: real, g: Gate, cfg: Config)
    ensures var r := Step(name, c, SeenOf(ip, up, cfg), now, g, cfg); InWords(ip, up, c, r.cell, r.alert, r.job, cfg)
  {
  }

  /** A tick took the peer from `before` to `after`, with this alert and this job. */
  ghost predicate Stepped(name: string, before: Cell, after: Cell, seen: Seen,
                          alerts: map<string, Alert>, jobs: map<string, string>, now: real, g: Gate, cfg: Config) {
    Result(after, Get(alerts, name), Get(jobs, name)) == Step(name, before, seen, now, g, cfg)
  }

  class PeerReachabilityWatchdog {
    const cfg: Config
    var misses: map<string, nat>
    var downSince: map<string, real>
    var fired: set<string>

    constructor (cfg: Config)
      ensures this.cfg == cfg && forall n :: CellOf(n) == FRESH
    {
      this.cfg := cfg;
      misses, downSince, fired := map[], map[], {};
    }

    ghost function CellOf(name: string): Cell
      reads this
    {
      Cell(if name in misses then misses[name] else 0,
           if name in downSince then Some(downSince[name]) else None,
           name in fired)
    }

    /** `_maybe_auto_migrate_pulsar`: the mark is set before the job is created and
        taken back when creation fails. */
    method MaybeAutoMigrate(name: string, g: Gate) returns (job: Option<string>)
      requires name !in fired
      modifies this`fired
      ensures job == JobFor(name, g)
      ensures fired == old(fired) + (if job.Some? then {name} else {})
    {
      var mqType := g.mqType;
      if mqType == "" {
        mqType := if "v2.5" <= g.tag then "pulsar" else "woodpecker";
      }
      if mqType != "pulsar" || name != g.host {
        return None;
      }
      var survivors := Sorted(g.withIp - {name});
      if |survivors| == 0 {
        assert forall n :: n in g.withIp - {name} ==> n in survivors;
        return None;
      }
      var target := survivors[0];
      assert target in survivors;
      assert IsLeast(target, g.withIp - {name}) by {
        forall n | n in g.withIp - {name} && n != target ensures Precedes(target, n) {
          assert n in survivors;
        }
      }
      LeastUnique(target, Least(g.withIp - {name}), g.withIp - {name});
      fired := fired + {name};
      if !g.creates {
        fired := fired - {name};
        return None;
      }
      return Some(target);
    }

    /** The probe of one peer and what follows from it. */
    method Probe(name: string, reached: bool, now: real, g: Gate) returns (alert: Option<Alert>, job: Option<string>)
      modifies this
      ensures Result(CellOf(name), alert, job)
              == Step(name, old(CellOf(name)), if reached then Reached else Missed, now, g, cfg)
      ensures forall n :: n != name ==> CellOf(n) == old(CellOf(n))
    {
      alert, job := None, None;
      if reached {
        if (if name in misses then misses[name] else 0) >= cfg.downAt {
          downSince := downSince - {name};
          alert := Some(Up);
        }
        misses := misses[name := 0];
        fired := fired - {name};
      } else {
        misses := misses[name := (if name in misses then misses[name] else 0) + 1];
        if misses[name] == cfg.downAt {
          downSince := downSince[name := now];
          alert := Some(Down);
        }
        if cfg.autoMigrate && g.leads && name !in fired && misses[name] >= cfg.migrateAt {
          job := MaybeAutoMigrate(name, g);
        }
      }
    }

    /** The loop over the topology mirror. */
    method ProbeAll(peers: seq<(string, string)>, reached: string -> bool, now: real, g: Gate)
      returns (alerts: map<string, Alert>, jobs: map<string, string>)
      requires DistinctNames(peers)
      modifies this
      ensures forall i :: 0 <= i < |peers| ==>
        Stepped(peers[i].0, old(CellOf(peers[i].0)), CellOf(peers[i].0), SeenOf(peers[i].1, reached(peers[i].0), cfg),
                alerts, jobs, now, g, cfg)
      ensures forall n :: (forall i :: 0 <= i < |peers| ==> peers[i].0 != n) ==>
        CellOf(n) == old(CellOf(n)) && n !in alerts && n !in jobs
    {
      alerts, jobs := map[], map[];
      for i := 0 to |peers|
        invariant forall k :: 0 <= k < i ==>
          Stepped(peers[k].0, old(CellOf(peers[k].0)), CellOf(peers[k].0), SeenOf(peers[k].1, reached(peers[k].0), cfg),
                  alerts, jobs, now, g, cfg)
        invariant forall n :: (forall k :: 0 <= k < i ==> peers[k].0 != n) ==>
          CellOf(n) == old(CellOf(n)) && n !in alerts && n !in jobs
      {
        var (name, ip) := peers[i];
        if ip == "" || ip == cfg.localIp {
          continue;
        }
        label before:
        ghost var alerts0, jobs0 := alerts, jobs;
        var alert, job := Probe(name, reached(name), now, g);
        if alert.Some? { alerts := alerts[name := alert.value]; }
        if job.Some? { jobs := jobs[name := job.value]; }
        forall k | 0 <= k < i
          ensures Stepped(peers[k].0, old(CellOf(peers[k].0)), CellOf(peers[k].0), SeenOf(peers[k].1, reached(peers[k].0), cfg),
                          alerts, jobs, now, g, cfg)
        {
          assert peers[k].0 != name && CellOf(peers[k].0) == old@before(CellOf(peers[k].0));
          assert Get(alerts, peers[k].0) == Get(alerts0, peers[k].0) && Get(jobs, peers[k].0) == Get(jobs0, peers[k].0);
        }
      }
    }

    /** `_tick`: peers without an IP and this host itself are skipped, every other peer
        makes one step, and no other name is touched. */
    method Tick(peers: seq<(string, string)>, reached: string -> bool, now: real, g: Gate)
      returns (alerts: map<string, Alert>, jobs: map<string, string>)
      requires DistinctNames(peers)
      modifies this
      ensures forall i :: 0 <= i < |peers| ==>
        Stepped(peers[i].0, old(CellOf(peers[i].0)), CellOf(peers[i].0), SeenOf(peers[i].1, reached(peers[i].0), cfg),
                alerts, jobs, now, g, cfg)
      ensures forall i :: 0 <= i < |peers| ==>
        InWords(peers[i].1, reached(peers[i].0), old(CellOf(peers[i].0)), CellOf(peers[i].0),
                Get(alerts, peers[i].0), Get(jobs, peers[i].0), cfg)
      ensures forall n :: (forall i :: 0 <= i < |peers| ==> peers[i].0 != n) ==>
        CellOf(n) == old(CellOf(n)) && n !in alerts && n !in jobs
    {
      alerts, jobs := ProbeAll(peers, reached, now, g);
      forall i | 0 <= i < |peers|
        ensures InWords(peers[i].1, reached(peers[i].0), old(CellOf(peers[i].0)), CellOf(peers[i].0),
                        Get(alerts, peers[i].0), Get(jobs, peers[i].0), cfg)
      {
        StepInWords(peers[i].0, peers[i].1, reached(peers[i].0), old(CellOf(peers[i].0)), now, g, cfg);
      }
    }
  }

  // ----- runs of one peer

  /** What one tick is given: the peer's IP in the mirror, whether it would answer, the
      time, and the gate. */
  datatype Input = Input(ip: string, up: bool, now: real, gate: Gate)

  ghost predicate Probed(i: Input, cfg: Config) {
    i.ip != "" && i.ip != cfg.localIp
  }

  ghost predicate Answered(i: Input, cfg: Config) {
    Probed(i, cfg) && i.up
  }

  ghost predicate Silent(i: Input, cfg: Config) {
    Probed(i, cfg) && !i.up
  }

  function After(name: string, run: seq<Input>, cfg: Config): Cell {
    if run == [] then FRESH
    else var i := run[|run| - 1];
         Step(name, After(name, run[..|run| - 1], cfg), SeenOf(i.ip, i.up, cfg), i.now, i.gate, cfg).cell
  }

  /** What tick k of the run does. */
  function At(name: string, run: seq<Input>, k: nat, cfg: Config): Result
    requires k < |run|
  {
    Step(name, After(name, run[..k], cfg), SeenOf(run[k].ip, run[k].up, cfg), run[k].now, run[k].gate, cfg)
  }

  lemma AfterNext(name: string, run: seq<Input>, k: nat, cfg: Config)
    requires k < |run|
    ensures After(name, run[..k + 1], cfg) == At(name, run, k, cfg).cell
    ensures InWords(run[k].ip, run[k].up, After(name, run[..k], cfg), After(name, run[..k + 1], cfg),
                    At(name, run, k, cfg).alert, At(name, run, k, cfg).job, cfg)
  {
    assert run[..k + 1][..k] == run[..k];
    StepInWords(name, run[k].ip, run[k].up, After(name, run[..k], cfg), run[k].now, run[k].gate, cfg);
  }

  /** Failed probes among the first k ticks since the last one that got through. */
  ghost function Misses(run: seq<Input>, k: nat, cfg: Config): nat
    requires k <= |run|
  {
    if k == 0 || Answered(run[k - 1], cfg) then 0
    else Misses(run, k - 1, cfg) + (if Silent(run[k - 1], cfg) then 1 else 0)
  }

  lemma {:induction false} MissesExactly(name: string, run: seq<Input>, k: nat, cfg: Config)
    requires k <= |run|
    ensures After(name, run[..k], cfg).misses == Misses(run, k, cfg)
  {
    if k > 0 {
      MissesExactly(name, run, k - 1, cfg);
      AfterNext(name, run, k - 1, cfg);
    }
  }

  /** In every run, from the probes alone: DOWN is sent at the failed probe that reaches
      the threshold, UP at the successful one that ends an outage that long, nothing
      else. */
  lemma AlertsExactly(name: string, run: seq<Input>, k: nat, cfg: Config)
    requires k < |run|
    ensures At(name, run, k, cfg).alert ==
      if Silent(run[k], cfg) && Misses(run, k, cfg) + 1 == cfg.downAt then Some(Down)
      else if Answered(run[k], cfg) && Misses(run, k, cfg) >= cfg.downAt then Some(Up)
      else None
  {
    MissesExactly(name, run, k, cfg);
    AfterNext(name, run, k, cfg);
  }

  /** The last alert among the first k ticks. */
  function LastAlert(name: string, run: seq<Input>, k: nat, cfg: Config): Option<Alert>
    requires k <= |run|
  {
    if k == 0 then None
    else if At(name, run, k - 1, cfg).alert.Some? then At(name, run, k - 1, cfg).alert
    else LastAlert(name, run, k - 1, cfg)
  }

  /** Tick i is the failed probe that reaches the threshold. */
  ghost predicate WentDown(run: seq<Input>, i: nat, cfg: Config)
    requires i < |run|
  {
    Silent(run[i], cfg) && Misses(run, i, cfg) + 1 == cfg.downAt
  }

  /** In every run the entry holds the time of the failed probe that reached the
      threshold, until a probe gets through. */
  lemma {:induction false} DownSinceIsWhen(name: string, run: seq<Input>, i: nat, k: nat, cfg: Config)
    requires i < k <= |run| && WentDown(run, i, cfg) && forall m :: i < m < k ==> !Answered(run[m], cfg)
    ensures After(name, run[..k], cfg).downSince == Some(run[i].now)
    ensures Misses(run, k, cfg) >= cfg.downAt
  {
    DownSinceNext(name, run, k - 1, cfg);
    if i < k - 1 { DownSinceIsWhen(name, run, i, k - 1, cfg); }
  }

  lemma DownSinceNext(name: string, run: seq<Input>, k: nat, cfg: Config)
    requires k < |run| && !Answered(run[k], cfg)
    ensures After(name, run[..k + 1], cfg).downSince ==
      if WentDown(run, k, cfg) then Some(run[k].now) else After(name, run[..k], cfg).downSince
  {
    MissesExactly(name, run, k, cfg);
    assert run[..k + 1][..k] == run[..k];
  }

  /** In every run `_down_since` holds exactly the peers at or past the threshold, and
      those are exactly the peers whose last alert was DOWN. */
  lemma {:induction false} DownSinceIsExact(name: string, run: seq<Input>, k: nat, cfg: Config)
    requires k <= |run| && cfg.downAt >= 1
    ensures After(name, run[..k], cfg).downSince.Some? <==> Misses(run, k, cfg) >= cfg.downAt
    ensures LastAlert(name, run, k, cfg) == Some(Down) <==> Misses(run, k, cfg) >= cfg.downAt
  {
    MissesExactly(name, run, k, cfg);
    if k > 0 {
      DownSinceIsExact(name, run, k - 1, cfg);
      MissesExactly(name, run, k - 1, cfg);
      AfterNext(name, run, k - 1, cfg);
    }
  }

  /** In every run a peer's alerts strictly alternate and the first one is DOWN: an UP
      follows a DOWN, a DOWN follows an UP or opens. */
  lemma AlertsAlternate(name: string, run: seq<Input>, k: nat, cfg: Config)
    requires k < |run| && cfg.downAt >= 1
    ensures At(name, run, k, cfg).alert == Some(Up) ==> LastAlert(name, run, k, cfg) == Some(Down)
    ensures At(name, run, k, cfg).alert == Some(Down) ==> LastAlert(name, run, k, cfg) != Some(Down)
  {
    DownSinceIsExact(name, run, k, cfg);
    AlertsExactly(name, run, k, cfg);
  }

  /** A job was created before tick k, and no probe has got through since. */
  ghost predicate JobStands(name: string, run: seq<Input>, k: nat, cfg: Config)
    requires k <= |run|
  {
    exists i :: 0 <= i < k && At(name, run, i, cfg).job.Some? && forall m :: i < m < k ==> !Answered(run[m], cfg)
  }

  lemma JobLasts(name: string, run: seq<Input>, k: nat, cfg: Config)
    requires k < |run| && JobStands(name, run, k, cfg) && !Answered(run[k], cfg)
    ensures JobStands(name, run, k + 1, cfg)
  {
    var i :| 0 <= i < k && At(name, run, i, cfg).job.Some? && forall m :: i < m < k ==> !Answered(run[m], cfg);
    assert forall m :: i < m < k + 1 ==> !Answered(run[m], cfg);
  }

  lemma JobNext(name: string, run: seq<Input>, k: nat, cfg: Config)
    requires k < |run|
    ensures JobStands(name, run, k + 1, cfg) <==>
      At(name, run, k, cfg).job.Some? || (JobStands(name, run, k, cfg) && !Answered(run[k], cfg))
  {
    if JobStands(name, run, k, cfg) && !Answered(run[k], cfg) { JobLasts(name, run, k, cfg); }
  }

  lemma {:induction false} FiredExactly(name: string, run: seq<Input>, k: nat, cfg: Config)
    requires k <= |run|
    ensures After(name, run[..k], cfg).fired <==> JobStands(name, run, k, cfg)
  {
    if k > 0 {
      FiredExactly(name, run, k - 1, cfg);
      AfterNext(name, run, k - 1, cfg);
      JobNext(name, run, k - 1, cfg);
    }
  }

  /** In every run a job is created at exactly those failed probes at which this daemon
      leads and has opted in, its file says Pulsar and names this peer as the host, the
      peer has missed enough probes in a row, no job stands for it, another peer has an
      IP, and creating works; and it targets the least such peer. */
  lemma JobsExactly(name: string, run: seq<Input>, k: nat, cfg: Config)
    requires k < |run|
    ensures var g := run[k].gate;
            At(name, run, k, cfg).job.Some? <==>
              && Silent(run[k], cfg) && cfg.autoMigrate && g.leads
              && Misses(run, k, cfg) + 1 >= cfg.migrateAt && !JobStands(name, run, k, cfg)
              && WatchdogSaysPulsar(g.mqType, g.tag) && g.host == name
              && (exists n :: n in g.withIp && n != name) && g.creates
    ensures At(name, run, k, cfg).job.Some? ==>
      IsLeast(At(name, run, k, cfg).job.value, run[k].gate.withIp - {name})
  {
    MissesExactly(name, run, k, cfg);
    FiredExactly(name, run, k, cfg);
    var survivors := run[k].gate.withIp - {name};
    assert survivors != {} <==> exists n :: n in run[k].gate.withIp && n != name by {
      if n :| n in run[k].gate.withIp && n != name { assert n in survivors; }
      if n :| n in survivors { assert n in run[k].gate.withIp && n != name; }
    }
  }

  /** One watchdog creates at most one migrate job per peer between two successful
      probes of it. */
  lemma OneJobPerOutage(name: string, run: seq<Input>, i: nat, j: nat, cfg: Config)
    requires i < j < |run| && At(name, run, i, cfg).job.Some? && At(name, run, j, cfg).job.Some?
    ensures exists m :: i < m < j && Answered(run[m], cfg)
  {
    JobsExactly(name, run, j, cfg);
  }
}
