/** The local component watchdog (daemon/watchdog.py): per-container counters, a
    restart history and a loop guard. */
module LocalWatchdog {
  import opened Text

  datatype Config = Config(threshold: nat, loopMax: nat, auto: bool)

  /** One row of `docker ps`. */
  datatype Row = Row(name: string, state: string, status: string)

  predicate Watched(name: string) {
    name != "milvus-onprem-cp" && "milvus" <= name
  }

  // ----- one container

  /** What a tick sees of a container; `Other` is starting or no health check. */
  datatype Obs = Absent | Restarting | Unhealthy | Healthy | Other

  function Observe(row: Row): (o: Obs)
    ensures !o.Absent?
  {
    if row.state == "restarting" then Restarting
    else if Contains(row.status, "(healthy)") then Healthy
    else if Contains(row.status, "(unhealthy)") then Unhealthy
    else Other
  }

  // ----- what docker says, in its own words; None when the container is not listed

  ghost predicate SaysHealthy(row: Option<Row>) {
    row.Some? && row.value.state != "restarting" && Contains(row.value.status, "(healthy)")
  }

  ghost predicate SaysUnhealthy(row: Option<Row>) {
    row.Some? && row.value.state != "restarting"
    && Contains(row.value.status, "(unhealthy)") && !Contains(row.value.status, "(healthy)")
  }

  /** A healthy container, or none. */
  ghost predicate Resets(row: Option<Row>) {
    row.None? || SaysHealthy(row)
  }

  function ObsOf(row: Option<Row>): Obs {
    match row
    case None => Absent
    case Some(r) => Observe(r)
  }

  lemma ObserveInWords(row: Option<Row>)
    ensures ObsOf(row).Absent? <==> row.None?
    ensures ObsOf(row).Healthy? <==> SaysHealthy(row)
    ensures ObsOf(row).Unhealthy? <==> SaysUnhealthy(row)
  {
  }

  /** The three entries the watchdog keeps under one name. */
  datatype Cell = Cell(misses: nat, history: seq<real>, alerted: bool)

  const FRESH := Cell(0, [], false)

  datatype Out = Quiet | Restarted | RestartFailed | LoopAlert

  /** `_maybe_restart`; `ok` is whether `docker restart` succeeds. */
  function MaybeRestart(c: Cell, ok: bool, now: real, cfg: Config): (Cell, Out) {
    if c.alerted then (c, Quiet)
    else if |c.history| >= cfg.loopMax then (c.(alerted := true), LoopAlert)
    else if !cfg.auto then (c, Quiet)
    else if ok then (c.(misses := 0, history := c.history + [now]), Restarted)
    else (c, RestartFailed)
  }

  function Step(c: Cell, obs: Obs, ok: bool, now: real, cfg: Config): (Cell, Out) {
    match obs
    case Absent => (Cell(0, if c.alerted then [] else c.history, false), Quiet)
    case Restarting => (c.(misses := 0), Quiet)
    case Unhealthy =>
      var c' := c.(misses := c.misses + 1);
      if c'.misses >= cfg.threshold then MaybeRestart(c', ok, now, cfg) else (c', Quiet)
    case Healthy => (Cell(0, if c.alerted then [] else c.history, false), Quiet)
    case Other => (c.(misses := 0), Quiet)
  }

  /** One tick over one row in docker's words: only an unhealthy row gets more than
      silence, it adds a miss or is restarted; a healthy one ends without misses and
      without an alert; any other ends the row of misses. */
  ghost predicate InWords(row: Option<Row>, before: Cell, after: Cell, out: Out) {
    && (!out.Quiet? ==> SaysUnhealthy(row))
    && (SaysUnhealthy(row) ==> after.misses == if out.Restarted? then 0 else before.misses + 1)
    && (!SaysUnhealthy(row) ==> after.misses == 0)
    && (SaysHealthy(row) ==> !after.alerted && after.history == if before.alerted then [] else before.history)
    && (!Resets(row) ==> (after.alerted <==> before.alerted || out.LoopAlert?))
  }

  lemma StepInWords(c: Cell, row: Option<Row>, ok: bool, now: real, cfg: Config)
    ensures InWords(row, c, Step(c, ObsOf(row), ok, now, cfg).0, Step(c, ObsOf(row), ok, now, cfg).1)
  {
    ObserveInWords(row);
  }

  // ----- the object

  ghost predicate DistinctNames(rows: seq<Row>) {
    forall i, j :: 0 <= i < j < |rows| ==> rows[i].name != rows[j].name
  }

  function Names(rows: seq<Row>): (s: set<string>)
    ensures forall i :: 0 <= i < |rows| ==> rows[i].name in s
    ensures forall n :: n in s ==> exists i :: 0 <= i < |rows| && rows[i].name == n
  {
    set i | 0 <= i < |rows| :: rows[i].name
  }

  lemma NamesNext(rows: seq<Row>, i: nat)
    requires i < |rows| && DistinctNames(rows)
    ensures rows[i].name !in Names(rows[..i]) && Names(rows[..i + 1]) == Names(rows[..i]) + {rows[i].name}
  {
    assert rows[..i + 1] == rows[..i] + [rows[i]];
  }

  /** A tick took this row's container from `before` to `after`. */
  ghost predicate Stepped(row: Row, before: Cell, after: Cell, outs: map<string, Out>, ok: bool, now: real, cfg: Config) {
    row.name in outs && (after, outs[row.name]) == Step(before, Observe(row), ok, now, cfg)
  }

  class LocalComponentWatchdog {
    const cfg: Config
    var misses: map<string, nat>
    var history: map<string, seq<real>>
    var alerted: set<string>

    constructor (cfg: Config)
      ensures this.cfg == cfg && Valid() && forall n :: CellOf(n) == FRESH
    {
      this.cfg := cfg;
      misses, history, alerted := map[], map[], {};
    }

    ghost predicate Valid()
      reads this
    {
      && (forall n :: n in misses ==> Watched(n))
      && (forall n :: n in alerted ==> Watched(n))
    }

    ghost function CellOf(name: string): Cell
      reads this
    {
      Cell(if name in misses then misses[name] else 0,
           if name in history then history[name] else [],
           name in alerted)
    }

    /** `_maybe_restart`. */
    method TryRestart(name: string, ok: bool, now: real) returns (out: Out)
      requires Valid() && Watched(name) && name in misses
      modifies this
      ensures Valid() && misses.Keys == old(misses.Keys)
      ensures (CellOf(name), out) == MaybeRestart(old(CellOf(name)), ok, now, cfg)
      ensures forall n :: n != name ==> CellOf(n) == old(CellOf(n))
    {
      if name in alerted {
        return Quiet;
      }
      if name !in history {
        history := history[name := []];
      }
      if |history[name]| >= cfg.loopMax {
        alerted := alerted + {name};
        return LoopAlert;
      }
      if !cfg.auto {
        return Quiet;
      }
      if !ok {
        return RestartFailed;
      }
      history := history[name := history[name] + [now]];
      misses := misses[name := 0];
      return Restarted;
    }

    /** The body of the loop over containers, for a watched one. */
    method Inspect(row: Row, ok: bool, now: real) returns (out: Out)
      requires Valid() && Watched(row.name)
      modifies this
      ensures Valid()
      ensures (CellOf(row.name), out) == Step(old(CellOf(row.name)), Observe(row), ok, now, cfg)
      ensures forall n :: n != row.name ==> CellOf(n) == old(CellOf(n))
    {
      var name := row.name;
      out := Quiet;
      var seen := Observe(row);
      if seen.Restarting? {
        misses := misses[name := 0];
        return;
      }
      if seen.Unhealthy? {
        misses := misses[name := (if name in misses then misses[name] else 0) + 1];
        if misses[name] >= cfg.threshold {
          out := TryRestart(name, ok, now);
        }
      } else {
        misses := misses[name := 0];
        if seen.Healthy? && name in alerted {
          alerted := alerted - {name};
          history := history[name := []];
        }
      }
    }

    /** Dropping what belongs to containers that are gone. */
    method Forget(seen: set<string>)
      requires Valid()
      modifies this
      ensures Valid()
      ensures forall n :: n in seen ==> CellOf(n) == old(CellOf(n))
      ensures forall n :: n !in seen ==> CellOf(n) == Step(old(CellOf(n)), Absent, false, 0.0, cfg).0
    {
      misses := map n | n in misses && n in seen :: misses[n];
      var gone := alerted - seen;
      history := history - gone;
      alerted := alerted * seen;
    }

    /** The loop over the containers listed. */
    method Sweep(rows: seq<Row>, ok: string -> bool, now: real) returns (outs: map<string, Out>)
      requires Valid() && DistinctNames(rows)
      modifies this
      ensures Valid()
      ensures forall i :: 0 <= i < |rows| && Watched(rows[i].name) ==>
        Stepped(rows[i], old(CellOf(rows[i].name)), CellOf(rows[i].name), outs, ok(rows[i].name), now, cfg)
      ensures forall n :: n !in Names(rows) || !Watched(n) ==> CellOf(n) == old(CellOf(n))
    {
      outs := map[];
      for i := 0 to |rows|
        invariant Valid()
        invariant forall k :: 0 <= k < i && Watched(rows[k].name) ==>
          Stepped(rows[k], old(CellOf(rows[k].name)), CellOf(rows[k].name), outs, ok(rows[k].name), now, cfg)
        invariant forall n :: n !in Names(rows[..i]) || !Watched(n) ==> CellOf(n) == old(CellOf(n))
      {
        var row := rows[i];
        NamesNext(rows, i);
        label before:
        if Watched(row.name) {
          var out := Inspect(row, ok(row.name), now);
          outs := outs[row.name := out];
        }
        forall k | 0 <= k < i && Watched(rows[k].name)
          ensures Stepped(rows[k], old(CellOf(rows[k].name)), CellOf(rows[k].name), outs, ok(rows[k].name), now, cfg)
        {
          assert CellOf(rows[k].name) == old@before(CellOf(rows[k].name));
        }
      }
      assert rows[..|rows|] == rows;
    }

    /** `_tick` over one `docker ps` listing (empty when the command failed): every
        watched container makes the step its observation calls for, a container that
        is not listed the step for absence, and no other name is touched. */
    method Tick(rows: seq<Row>, ok: string -> bool, now: real) returns (outs: map<string, Out>)
      requires Valid() && DistinctNames(rows)
      modifies this
      ensures Valid()
      ensures forall i :: 0 <= i < |rows| && Watched(rows[i].name) ==>
        Stepped(rows[i], old(CellOf(rows[i].name)), CellOf(rows[i].name), outs, ok(rows[i].name), now, cfg)
      ensures forall i :: 0 <= i < |rows| && "milvus" <= rows[i].name && rows[i].name != "milvus-onprem-cp" ==>
        && rows[i].name in outs
        && InWords(Some(rows[i]), old(CellOf(rows[i].name)), CellOf(rows[i].name), outs[rows[i].name])
      ensures forall i :: 0 <= i < |rows| && !("milvus" <= rows[i].name && rows[i].name != "milvus-onprem-cp") ==>
        CellOf(rows[i].name) == old(CellOf(rows[i].name))
      ensures forall n :: n !in Names(rows) ==> CellOf(n) == Step(old(CellOf(n)), Absent, false, now, cfg).0
    {
      outs := Sweep(rows, ok, now);
      Forget(Names(rows));
      forall i | 0 <= i < |rows| && Watched(rows[i].name)
        ensures InWords(Some(rows[i]), old(CellOf(rows[i].name)), CellOf(rows[i].name), outs[rows[i].name])
      {
        StepInWords(old(CellOf(rows[i].name)), Some(rows[i]), ok(rows[i].name), now, cfg);
      }
    }

    /** A failed `docker ps` lists nothing, so to a tick every container has vanished:
        all counters restart, and a guard that had tripped is armed again with an
        empty history. */
    method TickAfterFailure(now: real)
      requires Valid()
      modifies this
      ensures Valid()
      ensures forall n :: CellOf(n) == if n in old(alerted) then FRESH else old(CellOf(n)).(misses := 0)
    {
      var _ := Tick([], _ => false, now);
    }
  }

  // ----- runs of one container

  /** What one tick is given: the container's row, whether `docker restart` works, the
      time. */
  datatype Input = Input(row: Option<Row>, ok: bool, now: real)

  function After(run: seq<Input>, cfg: Config): Cell {
    if run == [] then FRESH
    else var i := run[|run| - 1]; Step(After(run[..|run| - 1], cfg), ObsOf(i.row), i.ok, i.now, cfg).0
  }

  /** What tick k of the run emits. */
  function OutAt(run: seq<Input>, k: nat, cfg: Config): Out
    requires k < |run|
  {
    Step(After(run[..k], cfg), ObsOf(run[k].row), run[k].ok, run[k].now, cfg).1
  }

  lemma AfterNext(run: seq<Input>, k: nat, cfg: Config)
    requires k < |run|
    ensures After(run[..k + 1], cfg) == Step(After(run[..k], cfg), ObsOf(run[k].row), run[k].ok, run[k].now, cfg).0
    ensures InWords(run[k].row, After(run[..k], cfg), After(run[..k + 1], cfg), OutAt(run, k, cfg))
  {
    assert run[..k + 1][..k] == run[..k];
    StepInWords(After(run[..k], cfg), run[k].row, run[k].ok, run[k].now, cfg);
  }

  /** A loop alert before tick k, and since then neither a healthy row nor an absence. */
  ghost predicate Alarmed(run: seq<Input>, k: nat, cfg: Config)
    requires k <= |run|
  {
    exists i :: 0 <= i < k && OutAt(run, i, cfg).LoopAlert? && forall m :: i < m < k ==> !Resets(run[m].row)
  }

  lemma AlarmLasts(run: seq<Input>, k: nat, cfg: Config)
    requires k < |run| && Alarmed(run, k, cfg) && !Resets(run[k].row)
    ensures Alarmed(run, k + 1, cfg)
  {
    var i :| 0 <= i < k && OutAt(run, i, cfg).LoopAlert? && forall m :: i < m < k ==> !Resets(run[m].row);
    assert forall m :: i < m < k + 1 ==> !Resets(run[m].row);
  }

  lemma AlarmNext(run: seq<Input>, k: nat, cfg: Config)
    requires k < |run|
    ensures Alarmed(run, k + 1, cfg) <==>
      OutAt(run, k, cfg).LoopAlert? || (Alarmed(run, k, cfg) && !Resets(run[k].row))
  {
    if Alarmed(run, k, cfg) && !Resets(run[k].row) { AlarmLasts(run, k, cfg); }
  }

  lemma {:induction false} AlertedExactly(run: seq<Input>, k: nat, cfg: Config)
    requires k <= |run|
    ensures After(run[..k], cfg).alerted <==> Alarmed(run, k, cfg)
  {
    if k > 0 {
      AlertedExactly(run, k - 1, cfg);
      AfterNext(run, k - 1, cfg);
      AlarmNext(run, k - 1, cfg);
    }
  }

  /** Tick k clears the history: a healthy row or an absence, but only after the loop
      alert. */
  ghost predicate ClearsAt(run: seq<Input>, k: nat, cfg: Config)
    requires k < |run|
  {
    Resets(run[k].row) && Alarmed(run, k, cfg)
  }

  /** The tick after the last one that cleared the history, 0 if none did. */
  ghost function LastClear(run: seq<Input>, k: nat, cfg: Config): (c: nat)
    requires k <= |run|
    ensures c <= k
  {
    if k == 0 then 0 else if ClearsAt(run, k - 1, cfg) then k else LastClear(run, k - 1, cfg)
  }

  /** The times of the successful restarts among the ticks from `from` up to k. */
  ghost function Restarts(run: seq<Input>, from: nat, k: nat, cfg: Config): seq<real>
    requires from <= k <= |run|
  {
    if k == from then []
    else Restarts(run, from, k - 1, cfg) + (if OutAt(run, k - 1, cfg).Restarted? then [run[k - 1].now] else [])
  }

  lemma HistoryStep(c: Cell, row: Option<Row>, ok: bool, now: real, cfg: Config)
    requires |c.history| <= cfg.loopMax
    ensures var (c', out) := Step(c, ObsOf(row), ok, now, cfg);
            && |c'.history| <= cfg.loopMax
            && c'.history == if Resets(row) && c.alerted then []
                             else c.history + (if out.Restarted? then [now] else [])
  {
    ObserveInWords(row);
  }

  /** In every run the history holds the times of the successful restarts since it was
      last cleared, and never more than the maximum. */
  lemma {:induction false} HistoryCountsRestarts(run: seq<Input>, k: nat, cfg: Config)
    requires k <= |run|
    ensures After(run[..k], cfg).history == Restarts(run, LastClear(run, k, cfg), k, cfg)
    ensures |After(run[..k], cfg).history| <= cfg.loopMax
  {
    if k > 0 {
      HistoryCountsRestarts(run, k - 1, cfg);
      HistoryNext(run, k - 1, cfg);
    }
  }

  lemma HistoryNext(run: seq<Input>, k: nat, cfg: Config)
    requires k < |run| && |After(run[..k], cfg).history| <= cfg.loopMax
    ensures var was := After(run[..k], cfg).history; var now := After(run[..k + 1], cfg).history;
            && |now| <= cfg.loopMax
            && now == if ClearsAt(run, k, cfg) then []
                      else was + (if OutAt(run, k, cfg).Restarted? then [run[k].now] else [])
  {
    AfterNext(run, k, cfg);
    AlertedExactly(run, k, cfg);
    HistoryStep(After(run[..k], cfg), run[k].row, run[k].ok, run[k].now, cfg);
  }

  /** The n ticks before tick k all show the container unhealthy, and none of them
      restarted it. */
  ghost predicate Streak(run: seq<Input>, k: nat, n: nat, cfg: Config)
    requires k <= |run|
  {
    n <= k && forall j :: k - n <= j < k ==> SaysUnhealthy(run[j].row) && !OutAt(run, j, cfg).Restarted?
  }

  lemma {:induction false} MissesExactly(run: seq<Input>, k: nat, n: nat, cfg: Config)
    requires k <= |run|
    ensures After(run[..k], cfg).misses >= n <==> Streak(run, k, n, cfg)
  {
    if k > 0 {
      AfterNext(run, k - 1, cfg);
      if n > 0 {
        MissesExactly(run, k - 1, n - 1, cfg);
      }
    }
  }

  /** The streak before tick k and its own row reach the threshold. */
  ghost predicate Due(run: seq<Input>, k: nat, cfg: Config)
    requires k < |run|
  {
    SaysUnhealthy(run[k].row) && (cfg.threshold == 0 || Streak(run, k, cfg.threshold - 1, cfg))
  }

  /** What every tick of every run does, from docker's rows alone: nothing unless the
      streak has reached the threshold with no alert standing; then the loop alert once
      the restarts since the last clearing have reached the maximum; else, when
      restarting is on, a restart. */
  lemma ActsExactly(run: seq<Input>, k: nat, cfg: Config)
    requires k < |run|
    ensures OutAt(run, k, cfg) ==
      if !Due(run, k, cfg) || Alarmed(run, k, cfg) then Quiet
      else if |Restarts(run, LastClear(run, k, cfg), k, cfg)| >= cfg.loopMax then LoopAlert
      else if !cfg.auto then Quiet
      else if run[k].ok then Restarted else RestartFailed
  {
    ObserveInWords(run[k].row);
    AlertedExactly(run, k, cfg);
    HistoryCountsRestarts(run, k, cfg);
    if cfg.threshold > 0 { MissesExactly(run, k, cfg.threshold - 1, cfg); }
  }

  /** Two successful restarts are at least the unhealthy threshold in ticks apart. */
  lemma RestartsAreSpaced(run: seq<Input>, i: nat, j: nat, cfg: Config)
    requires i < j < |run| && OutAt(run, i, cfg).Restarted? && OutAt(run, j, cfg).Restarted?
    ensures j - i >= cfg.threshold
  {
    ActsExactly(run, j, cfg);
  }

  /** The watchdog restarts a container, tries to, or raises the alert only at the end
      of at least `threshold` ticks in a row whose rows say unhealthy. */
  lemma ActsOnlyOnConsecutiveMisses(run: seq<Input>, k: nat, cfg: Config)
    requires k < |run| && !OutAt(run, k, cfg).Quiet?
    ensures cfg.threshold <= k + 1
    ensures SaysUnhealthy(run[k].row) && forall j :: k + 1 - cfg.threshold <= j <= k ==> SaysUnhealthy(run[j].row)
  {
    ActsExactly(run, k, cfg);
  }

  /** After a loop alert neither a restart, successful or not, nor a second alert
      happens until a healthy or an absent tick. */
  lemma AlertSilences(run: seq<Input>, i: nat, j: nat, cfg: Config)
    requires i < j < |run| && OutAt(run, i, cfg).LoopAlert? && !OutAt(run, j, cfg).Quiet?
    ensures exists m :: i < m < j && Resets(run[m].row)
  {
    ActsExactly(run, j, cfg);
  }

  // ----- what the comments promise and the code does not do

  /** The tick after the last healthy one, 0 if there was none. */
  ghost function LastHealthy(run: seq<Input>, k: nat): (h: nat)
    requires k <= |run|
    ensures h <= k
  {
    if k == 0 then 0 else if SaysHealthy(run[k - 1].row) then k else LastHealthy(run, k - 1)
  }

  ghost predicate NoRestart(run: seq<Input>, from: nat, to: nat, cfg: Config)
    requires to <= |run|
  {
    forall j :: from <= j < to ==> !OutAt(run, j, cfg).Restarted?
  }

  /** How many of the numbers from `from` up to k satisfy p. */
  ghost function Count(p: nat -> bool, from: nat, k: nat): nat
    requires from <= k
  {
    if k == from then 0 else Count(p, from, k - 1) + (if p(k - 1) then 1 else 0)
  }

  lemma {:induction false} RestartsAreCounted(run: seq<Input>, p: nat -> bool, from: nat, k: nat, cfg: Config)
    requires from <= k <= |run| && forall j: nat :: j < |run| ==> p(j) == OutAt(run, j, cfg).Restarted?
    ensures |Restarts(run, from, k, cfg)| == Count(p, from, k)
  {
    if k > from { RestartsAreCounted(run, p, from, k - 1, cfg); }
  }

  /** Counting from a later number gives the same exactly when there is none between. */
  lemma {:induction false} CountsAgree(p: nat -> bool, from: nat, mid: nat, k: nat)
    requires from <= mid <= k
    ensures Count(p, from, k) >= Count(p, mid, k)
    ensures Count(p, from, k) == Count(p, mid, k) <==> forall j: nat :: from <= j < mid ==> !p(j)
    decreases k
  {
    if mid < k {
      CountsAgree(p, from, mid, k - 1);
    } else if from < mid {
      CountsAgree(p, from, mid - 1, k - 1);
    }
  }

  /** The comments count restarts "since the container last reached healthy".  In every
      run the history is that count exactly when no restart lies between the last tick
      that cleared it and the last healthy tick, whichever came first: a healthy tick
      clears only after the alert, and an absent one clears too. */
  lemma HistoryCountsSinceHealthyExactly(run: seq<Input>, k: nat, cfg: Config)
    requires k <= |run|
    ensures var c, h := LastClear(run, k, cfg), LastHealthy(run, k);
            |After(run[..k], cfg).history| == |Restarts(run, h, k, cfg)| <==>
              NoRestart(run, if c < h then c else h, if c < h then h else c, cfg)
  {
    HistoryCountsRestarts(run, k, cfg);
    var c, h := LastClear(run, k, cfg), LastHealthy(run, k);
    var p := (j: nat) => j < |run| && OutAt(run, j, cfg).Restarted?;
    RestartsAreCounted(run, p, c, k, cfg);
    RestartsAreCounted(run, p, h, k, cfg);
    CountsAgree(p, if c < h then c else h, if c < h then h else c, k);
  }

  /** So a container that recovers after each restart still trips the guard: with a
      threshold of 1 and a maximum of 1, unhealthy, healthy, unhealthy alerts. */
  lemma RecoveryDoesNotReset(bad: Row, good: Row)
    requires SaysUnhealthy(Some(bad)) && SaysHealthy(Some(good))
    ensures var run := [Input(Some(bad), true, 1.0), Input(Some(good), true, 2.0), Input(Some(bad), true, 3.0)];
            var cfg := Config(1, 1, true);
            OutAt(run, 0, cfg) == Restarted && OutAt(run, 2, cfg) == LoopAlert
  {
    var run := [Input(Some(bad), true, 1.0), Input(Some(good), true, 2.0), Input(Some(bad), true, 3.0)];
    var cfg := Config(1, 1, true);
    ObserveInWords(Some(bad));
    ObserveInWords(Some(good));
    assert run[..0] == [];
    assert After(run[..0], cfg) == FRESH;
    AfterNext(run, 0, cfg);
    AfterNext(run, 1, cfg);
  }

  /** Docker's own texts are such rows. */
  lemma DockerTexts(name: string, up: string)
    requires !Contains(up + "(unhealthy)", "(healthy)")
    ensures SaysHealthy(Some(Row(name, "running", up + "(healthy)")))
    ensures SaysUnhealthy(Some(Row(name, "running", up + "(unhealthy)")))
  {
    ContainedAt(up + "(healthy)", "(healthy)", |up|);
    ContainedAt(up + "(unhealthy)", "(unhealthy)", |up|);
  }
}
