/** One job key in etcd, written by the daemon that executes the job and by any
    number of sweepers that read it and later write it back without a compare
    (daemon/jobs.py, daemon/main.py).

    Time is read on the owner's clock; every other clock is within `skew` of it.
    An owner's put, retries included, lands within `rpc` of being sent, possibly more
    than once, and returns only after it landed; once the owner has stopped nobody
    retries, and only the `attempt` then in the air may still land; a put the owner itself cancelled does not land
    later.  A sweeper's put may land at any time after its read, any number of
    times. */
module JobProtocol {
  import opened Text
  import opened JobRecords

  const FLUSH_PERIOD := 2.0

  datatype Config = Config(rpc: real, attempt: real, skew: real, timeout: real, interval: real, sweepTime: real) {
    ghost predicate Valid() {
      rpc >= attempt >= 0.0 && skew >= 0.0 && timeout >= 0.0 && interval >= 0.0 && sweepTime >= 0.0
    }

    /** The timeout leaves room for one flush period, three slow puts and the
        clock skew. */
    ghost predicate HasMargin() { 2.0 + 3.0 * rpc + skew <= timeout }
  }

  /** An owner's put in the air. */
  datatype Flight = Flight(rec: Record, sent: real, landed: bool)

  /** Where the owner's `_execute` is; `Gone` covers a crash and a cancellation
      before the handler runs. */
  datatype Phase =
    | Creating | Scheduled | Starting
    | Sleeping(wake: real) | Flushing
    | Finishing | Ended
    | Gone(at: real)

  /** The loop of the daemon that holds leadership throughout, when there is one. */
  datatype Sweep =
    | NoLeader
    | Waiting(until: real)
    | Sweeping(began: real, cutoff: real, looked: bool, mark: Option<Record>)

  datatype World = World(
    now: real, phase: Phase, job: Record, flight: Option<Flight>, written: seq<string>,
    store: Option<Record>, cutoffs: set<real>, marks: set<Record>, pruning: bool, sweep: Sweep)

  datatype Event =
    | Tick(dt: real)
    | Lands | Acked | Starts | FlushDue
    | Logs(line: string) | Progresses(p: real)
    | Finishes(outcome: State, error: string)
    | Stops | FlightLost
    | SweepBegins(clock: real) | SweepLooks(cutoff: real, error: string, clock: real)
    | MarkLands(mark: Record)
    | PruneLooks(cutoff: real) | PruneLands
    | LeaderBegins(clock: real) | LeaderLooks(error: string, clock: real)
    | LeaderLands | LeaderEnds

  ghost predicate OnTime(w: World, now: real, cfg: Config) {
    && (w.flight.Some? ==> now <= w.flight.value.sent + cfg.rpc)
    && (w.flight.Some? && w.phase.Gone? ==> now <= w.phase.at + cfg.attempt)
    && (w.phase.Sleeping? ==> now <= w.phase.wake)
    && (w.sweep.Waiting? ==> now <= w.sweep.until)
    && (w.sweep.Sweeping? ==> now <= w.sweep.began + cfg.sweepTime)
  }

  ghost predicate Enabled(w: World, e: Event, cfg: Config) {
    match e
    case Tick(dt) => dt >= 0.0 && OnTime(w, w.now + dt, cfg)
    case Lands => w.flight.Some?
    case Acked => w.flight.Some? && w.flight.value.landed && !w.phase.Gone?
    case Starts => w.phase.Scheduled?
    case FlushDue => w.phase.Sleeping? && w.phase.wake <= w.now
    case Logs(_) => w.phase.Sleeping? || w.phase.Flushing?
    case Progresses(_) => w.phase.Sleeping? || w.phase.Flushing?
    case Finishes(outcome, _) => (w.phase.Sleeping? || w.phase.Flushing?) && Terminal(outcome)
    case Stops => !w.phase.Gone? && !w.phase.Ended?
    case FlightLost => w.phase.Gone? && w.flight.Some?
    case SweepBegins(clock) => w.now - cfg.skew <= clock <= w.now + cfg.skew
    case SweepLooks(cutoff, _, _) => cutoff in w.cutoffs
    case MarkLands(mark) => mark in w.marks
    case PruneLooks(_) => true
    case PruneLands => w.pruning
    case LeaderBegins(clock) =>
      && w.sweep.Waiting? && w.sweep.until <= w.now
      && w.now - cfg.skew <= clock <= w.now + cfg.skew
    case LeaderLooks(_, _) => w.sweep.Sweeping? && !w.sweep.looked
    case LeaderLands => w.sweep.Sweeping? && w.sweep.mark.Some?
    case LeaderEnds => w.sweep.Sweeping? && w.sweep.looked && w.sweep.mark.None?
  }

  /** The owner sends a put of its current record. */
  function Send(w: World, job: Record, phase: Phase): World {
    w.(job := job, phase := phase, flight := Some(Flight(job, w.now, false)))
  }

  function AfterAck(phase: Phase, now: real): Phase {
    match phase
    case Creating => Scheduled
    case Starting => Sleeping(now + FLUSH_PERIOD)
    case Flushing => Sleeping(now + FLUSH_PERIOD)
    case _ => Ended
  }

  ghost function Apply(w: World, e: Event, cfg: Config): World
    requires Enabled(w, e, cfg)
  {
    match e
    case Tick(dt) => w.(now := w.now + dt)
    case Lands =>
      w.(store := Some(w.flight.value.rec), flight := Some(w.flight.value.(landed := true)))
    case Acked => w.(phase := AfterAck(w.phase, w.now), flight := None)
    case Starts => Send(w, w.job.(state := Running, heartbeat := Some(w.now)), Starting)
    case FlushDue => Send(w, w.job.(heartbeat := Some(w.now)), Flushing)
    case Logs(line) =>
      w.(job := w.job.(logs := AppendLog(w.job.logs, line)), written := w.written + [line])
    case Progresses(p) => w.(job := w.job.(progress := Clamp(p)))
    case Finishes(outcome, error) => Send(w, Conclude(w.job, outcome, error, w.now), Finishing)
    case Stops => w.(phase := Gone(w.now))
    case FlightLost => w.(flight := None)
    case SweepBegins(clock) => w.(cutoffs := w.cutoffs + {clock - cfg.timeout})
    case SweepLooks(cutoff, error, clock) =>
      if w.store.Some? && Stale(w.store.value, cutoff)
      then w.(marks := w.marks + {MarkFailed(w.store.value, error, clock)}) else w
    case MarkLands(mark) => w.(store := Some(mark))
    case PruneLooks(cutoff) =>
      w.(pruning := w.pruning || (w.store.Some? && Expired(w.store.value, cutoff)))
    case PruneLands => w.(store := None)
    case LeaderBegins(clock) => w.(sweep := Sweeping(w.now, clock - cfg.timeout, false, None))
    case LeaderLooks(error, clock) =>
      if w.store.Some? && Stale(w.store.value, w.sweep.cutoff)
      then var m := MarkFailed(w.store.value, error, clock);
           w.(marks := w.marks + {m}, sweep := w.sweep.(looked := true, mark := Some(m)))
      else w.(sweep := w.sweep.(looked := true))
    case LeaderLands => w.(store := w.sweep.mark, sweep := w.sweep.(mark := None))
    case LeaderEnds => w.(sweep := Waiting(w.now + cfg.interval))
  }

  // ----- runs

  ghost predicate Initial(w: World, cfg: Config) {
    && w.phase.Creating? && w.written == [] && w.job.logs == []
    && w.job.state.Pending? && w.job.progress == 0.0 && w.job.error.None?
    && w.job.finishedAt.None? && w.job.heartbeat.None?
    && w.flight == Some(Flight(w.job, w.now, false))
    && w.store.None? && w.cutoffs == {} && w.marks == {} && !w.pruning
    && !w.sweep.Sweeping? && (w.sweep.Waiting? ==> w.now <= w.sweep.until <= w.now + cfg.interval)
  }

  ghost predicate Legal(w: World, run: seq<Event>, cfg: Config)
    decreases run
  {
    run == [] || (Enabled(w, run[0], cfg) && Legal(Apply(w, run[0], cfg), run[1..], cfg))
  }

  ghost function After(w: World, run: seq<Event>, cfg: Config): World
    requires Legal(w, run, cfg)
    decreases run
  {
    if run == [] then w else After(Apply(w, run[0], cfg), run[1..], cfg)
  }

  // ----- every record that is ever stored is well formed

  ghost predicate ShowsPrefix(logs: seq<string>, written: seq<string>) {
    exists n :: 0 <= n <= |written| && logs == LogTail(written[..n])
  }

  ghost predicate GoodRecord(r: Record, written: seq<string>) {
    WellFormed(r) && ShowsPrefix(r.logs, written)
  }

  ghost predicate Concluded(phase: Phase) {
    phase.Finishing? || phase.Ended? || phase.Gone?
  }

  ghost predicate RecordsOk(w: World) {
    && w.job.logs == LogTail(w.written)
    && WellFormed(w.job)
    && (Concluded(w.phase) || (!Terminal(w.job.state) && w.job.error.None?))
    && (w.store.Some? ==> GoodRecord(w.store.value, w.written))
    && (w.flight.Some? ==> GoodRecord(w.flight.value.rec, w.written))
    && (forall m :: m in w.marks ==> GoodRecord(m, w.written))
    && (w.sweep.Sweeping? && w.sweep.mark.Some? ==> w.sweep.mark.value in w.marks)
  }

  lemma PrefixGrows(r: Record, written: seq<string>, line: string)
    requires GoodRecord(r, written)
    ensures GoodRecord(r, written + [line])
  {
    var n :| 0 <= n <= |written| && r.logs == LogTail(written[..n]);
    assert (written + [line])[..n] == written[..n];
  }

  lemma WholeIsPrefix(written: seq<string>)
    ensures ShowsPrefix(LogTail(written), written)
  {
    assert written[..|written|] == written;
  }

  lemma LogKeepsRecords(w: World, line: string, cfg: Config)
    requires RecordsOk(w) && Enabled(w, Logs(line), cfg)
    ensures RecordsOk(Apply(w, Logs(line), cfg))
  {
    AppendLogTracksTail(w.written, line);
    if w.store.Some? { PrefixGrows(w.store.value, w.written, line); }
    if w.flight.Some? { PrefixGrows(w.flight.value.rec, w.written, line); }
    forall m | m in w.marks ensures GoodRecord(m, w.written + [line]) {
      PrefixGrows(m, w.written, line);
    }
  }

  lemma SendKeepsRecords(w: World, e: Event, cfg: Config)
    requires RecordsOk(w) && Enabled(w, e, cfg) && (e.Starts? || e.FlushDue? || e.Finishes? || e.Progresses?)
    ensures RecordsOk(Apply(w, e, cfg))
  {
    WholeIsPrefix(w.written);
  }

  lemma MarkIsGood(r: Record, written: seq<string>, error: string, clock: real)
    requires GoodRecord(r, written)
    ensures GoodRecord(MarkFailed(r, error, clock), written)
  {
  }

  lemma LookKeepsRecords(w: World, e: Event, cfg: Config)
    requires RecordsOk(w) && Enabled(w, e, cfg) && (e.SweepLooks? || e.LeaderLooks?)
    ensures RecordsOk(Apply(w, e, cfg))
  {
    if w.store.Some? { MarkIsGood(w.store.value, w.written, e.error, e.clock); }
    var w' := Apply(w, e, cfg);
    assert w'.(marks := w.marks, sweep := w.sweep) == w;
    forall m | m in w'.marks ensures GoodRecord(m, w.written) {
      assert m in w.marks || m == MarkFailed(w.store.value, e.error, e.clock);
    }
  }

  lemma LandKeepsRecords(w: World, e: Event, cfg: Config)
    requires RecordsOk(w) && Enabled(w, e, cfg)
    requires e.Lands? || e.MarkLands? || e.LeaderLands? || e.PruneLands?
    ensures RecordsOk(Apply(w, e, cfg))
  {
  }

  lemma OwnerKeepsRecords(w: World, e: Event, cfg: Config)
    requires RecordsOk(w) && Enabled(w, e, cfg)
    requires e.Tick? || e.Acked? || e.Stops? || e.FlightLost?
    ensures RecordsOk(Apply(w, e, cfg))
  {
  }

  lemma SweeperKeepsRecords(w: World, e: Event, cfg: Config)
    requires RecordsOk(w) && Enabled(w, e, cfg)
    requires e.SweepBegins? || e.PruneLooks? || e.LeaderBegins? || e.LeaderEnds?
    ensures RecordsOk(Apply(w, e, cfg))
  {
  }

  lemma {:induction false} EveryRunKeepsRecords(w: World, run: seq<Event>, cfg: Config)
    requires RecordsOk(w) && Legal(w, run, cfg)
    ensures RecordsOk(After(w, run, cfg))
    decreases run
  {
    if run != [] {
      var e := run[0];
      if e.Logs? {
        LogKeepsRecords(w, e.line, cfg);
      } else if e.Starts? || e.FlushDue? || e.Finishes? || e.Progresses? {
        SendKeepsRecords(w, e, cfg);
      } else if e.SweepLooks? || e.LeaderLooks? {
        LookKeepsRecords(w, e, cfg);
      } else if e.Lands? || e.MarkLands? || e.LeaderLands? || e.PruneLands? {
        LandKeepsRecords(w, e, cfg);
      } else if e.Tick? || e.Acked? || e.Stops? || e.FlightLost? {
        OwnerKeepsRecords(w, e, cfg);
      } else {
        SweeperKeepsRecords(w, e, cfg);
      }
      EveryRunKeepsRecords(Apply(w, e, cfg), run[1..], cfg);
    }
  }

  lemma InitialRecordsOk(w: World, cfg: Config)
    requires Initial(w, cfg)
    ensures RecordsOk(w)
  {
    WholeIsPrefix(w.written);
  }

  /** In every run, whatever the timing, every record that reaches the store has a
      finish time exactly when it is terminal, progress in [0,1], progress 1 and no
      error when done, an error when failed, and the last 200 capped lines of what
      the worker had written when the record was taken. */
  lemma EveryStoredRecordIsGood(w: World, run: seq<Event>, cfg: Config)
    requires Initial(w, cfg) && Legal(w, run, cfg)
    ensures var m := After(w, run, cfg); m.store.Some? ==> GoodRecord(m.store.value, m.written)
  {
    InitialRecordsOk(w, cfg);
    EveryRunKeepsRecords(w, run, cfg);
  }

  // ----- timing

  ghost predicate Fresh(w: World, limit: real) {
    && w.store.Some? && w.store.value.state.Running? && w.store.value.heartbeat.Some?
    && limit <= w.store.value.heartbeat.value
  }

  ghost predicate StoredPending(w: World) {
    w.store.Some? && w.store.value.state.Pending?
  }

  ghost predicate StoredVerdict(w: World) {
    w.store.None? || (w.store == Some(w.job) && Terminal(w.job.state))
  }

  /** The put in the air against what is stored. */
  ghost predicate FlightOk(w: World, f: Flight, cfg: Config) {
    && f.sent <= w.now <= f.sent + cfg.rpc
    && w.marks == {}
    && match f.rec.state
       case Pending =>
         !w.pruning && w.store == (if f.landed then Some(f.rec) else None)
       case Running =>
         && !w.pruning && f.rec.heartbeat == Some(f.sent)
         && (if f.landed then w.store == Some(f.rec)
             else StoredPending(w) || Fresh(w, f.sent - cfg.rpc - FLUSH_PERIOD))
       case _ =>
         && f.rec == w.job
         && (if f.landed then StoredVerdict(w)
             else !w.pruning && Fresh(w, f.sent - 2.0 * cfg.rpc - FLUSH_PERIOD))
  }

  /** What the owner's phase says about the put in the air and the store. */
  ghost predicate PhaseOk(w: World, cfg: Config) {
    match w.phase
    case Creating => w.flight.Some? && w.flight.value.rec.state.Pending?
    case Scheduled => w.flight.None? && w.marks == {} && !w.pruning && StoredPending(w)
    case Starting => w.flight.Some? && w.flight.value.rec.state.Running? && w.job.state.Running?
    case Sleeping(wake) =>
      && w.flight.None? && w.marks == {} && !w.pruning && w.job.state.Running?
      && w.now <= wake && Fresh(w, wake - cfg.rpc - FLUSH_PERIOD)
    case Flushing =>
      && w.flight.Some? && w.flight.value.rec.state.Running? && w.job.state.Running?
      && (w.flight.value.landed || !StoredPending(w))
    case Finishing => w.flight.Some? && Terminal(w.flight.value.rec.state)
    case Ended => w.flight.None? && w.marks == {} && Terminal(w.job.state) && StoredVerdict(w)
    case Gone(at) =>
      && at <= w.now
      && (w.flight.Some? ==> w.flight.value.sent <= at)
      && (w.flight.None? && w.store.Some? && Terminal(w.store.value.state) ==>
            (w.store == Some(w.job) && w.marks == {}) || w.store.value in w.marks)
      && (w.flight.None? && w.pruning ==> w.store.None? || Terminal(w.store.value.state))
  }

  ghost predicate TimingOk(w: World, cfg: Config) {
    && cfg.Valid()
    && (w.flight.Some? ==> FlightOk(w, w.flight.value, cfg))
    && PhaseOk(w, cfg)
    && (w.store.Some? && w.store.value.state.Running? ==> w.store.value.heartbeat.Some?)
    && (forall c :: c in w.cutoffs ==> c <= w.now + cfg.skew - cfg.timeout)
    && (w.sweep.Sweeping? ==>
          && w.sweep.cutoff <= w.now + cfg.skew - cfg.timeout
          && (w.sweep.mark.Some? ==> w.sweep.mark.value in w.marks))
    && (forall m :: m in w.marks ==> m.state.Failed?)
    && (w.marks != {} ==> w.phase.Gone? && w.flight.None?)
  }

  /** A record that looks stale belongs to an owner that has stopped and has
      nothing left in the air. */
  lemma StaleMeansGone(w: World, cutoff: real, cfg: Config)
    requires TimingOk(w, cfg) && cfg.HasMargin()
    requires cutoff <= w.now + cfg.skew - cfg.timeout
    requires w.store.Some? && Stale(w.store.value, cutoff)
    ensures w.phase.Gone? && w.flight.None?
  {
  }

  lemma TimePasses(w: World, e: Event, cfg: Config)
    requires TimingOk(w, cfg) && Enabled(w, e, cfg) && e.Tick?
    ensures TimingOk(Apply(w, e, cfg), cfg)
  {
  }

  lemma PutLands(w: World, e: Event, cfg: Config)
    requires TimingOk(w, cfg) && Enabled(w, e, cfg) && (e.Lands? || e.FlightLost?)
    ensures TimingOk(Apply(w, e, cfg), cfg)
  {
  }

  lemma PutReturns(w: World, e: Event, cfg: Config)
    requires TimingOk(w, cfg) && Enabled(w, e, cfg) && e.Acked?
    ensures TimingOk(Apply(w, e, cfg), cfg)
  {
  }

  lemma OwnerSends(w: World, e: Event, cfg: Config)
    requires TimingOk(w, cfg) && Enabled(w, e, cfg)
    requires e.Starts? || e.FlushDue? || e.Finishes?
    ensures TimingOk(Apply(w, e, cfg), cfg)
  {
  }

  lemma OwnerWorksOrStops(w: World, e: Event, cfg: Config)
    requires TimingOk(w, cfg) && Enabled(w, e, cfg)
    requires e.Logs? || e.Progresses? || e.Stops?
    ensures TimingOk(Apply(w, e, cfg), cfg)
  {
  }

  lemma SweeperLooks(w: World, e: Event, cfg: Config)
    requires TimingOk(w, cfg) && cfg.HasMargin() && Enabled(w, e, cfg)
    requires e.SweepLooks? || e.LeaderLooks?
    ensures TimingOk(Apply(w, e, cfg), cfg)
  {
    var cutoff := if e.SweepLooks? then e.cutoff else w.sweep.cutoff;
    if w.store.Some? && Stale(w.store.value, cutoff) { StaleMeansGone(w, cutoff, cfg); }
  }

  lemma SweeperActs(w: World, e: Event, cfg: Config)
    requires TimingOk(w, cfg) && Enabled(w, e, cfg)
    requires e.SweepBegins? || e.MarkLands? || e.PruneLooks? || e.PruneLands?
             || e.LeaderBegins? || e.LeaderLands? || e.LeaderEnds?
    ensures TimingOk(Apply(w, e, cfg), cfg)
  {
  }

  lemma StepKeepsTiming(w: World, e: Event, cfg: Config)
    requires TimingOk(w, cfg) && cfg.HasMargin() && Enabled(w, e, cfg)
    ensures TimingOk(Apply(w, e, cfg), cfg)
  {
    match e
    case Tick(_) => TimePasses(w, e, cfg);
    case Lands => PutLands(w, e, cfg);
    case FlightLost => PutLands(w, e, cfg);
    case Acked => PutReturns(w, e, cfg);
    case Starts => OwnerSends(w, e, cfg);
    case FlushDue => OwnerSends(w, e, cfg);
    case Finishes(_, _) => OwnerSends(w, e, cfg);
    case Logs(_) => OwnerWorksOrStops(w, e, cfg);
    case Progresses(_) => OwnerWorksOrStops(w, e, cfg);
    case Stops => OwnerWorksOrStops(w, e, cfg);
    case SweepLooks(_, _, _) => SweeperLooks(w, e, cfg);
    case LeaderLooks(_, _) => SweeperLooks(w, e, cfg);
    case _ => SweeperActs(w, e, cfg);
  }

  // ----- terminal is final

  /** Nothing that is stored or in the air can reopen the job. */
  ghost predicate Settled(w: World) {
    && Concluded(w.phase)
    && (w.store.Some? ==> w.store.value.state == Verdict(w))
    && (w.flight.Some? ==> Terminal(w.flight.value.rec.state) && w.flight.value.landed)
    && Terminal(Verdict(w))
  }

  ghost function Verdict(w: World): State {
    if w.marks != {} then Failed else w.job.state
  }

  lemma TerminalIsSettled(w: World, cfg: Config)
    requires TimingOk(w, cfg) && w.store.Some? && Terminal(w.store.value.state)
    ensures Settled(w)
  {
  }

  lemma SettledOwner(w: World, e: Event, cfg: Config)
    requires TimingOk(w, cfg) && Settled(w) && Enabled(w, e, cfg)
    requires e.Tick? || e.Lands? || e.Acked? || e.Stops? || e.FlightLost?
    ensures Settled(Apply(w, e, cfg)) && Verdict(Apply(w, e, cfg)) == Verdict(w)
  {
  }

  lemma SettledSweep(w: World, e: Event, cfg: Config)
    requires TimingOk(w, cfg) && Settled(w) && Enabled(w, e, cfg)
    requires !e.Tick? && !e.Lands? && !e.Acked? && !e.Stops? && !e.FlightLost?
    ensures Settled(Apply(w, e, cfg)) && Verdict(Apply(w, e, cfg)) == Verdict(w)
  {
  }

  lemma SettledStep(w: World, e: Event, cfg: Config)
    requires TimingOk(w, cfg) && Settled(w) && Enabled(w, e, cfg)
    ensures Settled(Apply(w, e, cfg)) && Verdict(Apply(w, e, cfg)) == Verdict(w)
  {
    if e.Tick? || e.Lands? || e.Acked? || e.Stops? || e.FlightLost? {
      SettledOwner(w, e, cfg);
    } else {
      SettledSweep(w, e, cfg);
    }
  }

  lemma {:induction false} SettledRun(w: World, run: seq<Event>, cfg: Config)
    requires TimingOk(w, cfg) && cfg.HasMargin() && Settled(w) && Legal(w, run, cfg)
    ensures Settled(After(w, run, cfg)) && Verdict(After(w, run, cfg)) == Verdict(w)
    decreases run
  {
    if run != [] {
      StepKeepsTiming(w, run[0], cfg);
      SettledStep(w, run[0], cfg);
      SettledRun(Apply(w, run[0], cfg), run[1..], cfg);
    }
  }

  lemma {:induction false} EveryRunKeepsTiming(w: World, run: seq<Event>, cfg: Config)
    requires TimingOk(w, cfg) && cfg.HasMargin() && Legal(w, run, cfg)
    ensures TimingOk(After(w, run, cfg), cfg)
    decreases run
  {
    if run != [] {
      StepKeepsTiming(w, run[0], cfg);
      EveryRunKeepsTiming(Apply(w, run[0], cfg), run[1..], cfg);
    }
  }

  /** With the margin, in every run: no sweep marks a job whose owner still
      executes it, and once the stored record is terminal it is never pending or
      running again -- it keeps that very state until retention deletes it. */
  lemma TerminalIsFinal(w: World, run: seq<Event>, later: seq<Event>, cfg: Config)
    requires Initial(w, cfg) && cfg.Valid() && cfg.HasMargin()
    requires Legal(w, run, cfg) && Legal(After(w, run, cfg), later, cfg)
    ensures var m := After(w, run, cfg); var m' := After(m, later, cfg);
            && (m.marks != {} ==> m.phase.Gone?)
            && (m.store.Some? && Terminal(m.store.value.state) && m'.store.Some? ==>
                  m'.store.value.state == m.store.value.state)
  {
    EveryRunKeepsTiming(w, run, cfg);
    var m := After(w, run, cfg);
    if m.store.Some? && Terminal(m.store.value.state) {
      TerminalIsSettled(m, cfg);
      SettledRun(m, later, cfg);
    }
  }

  // ----- the verdict is the handler's

  /** The job record after the owner's verdict is never edited again. */
  lemma {:induction false} ConcludedStays(w: World, run: seq<Event>, cfg: Config)
    requires Concluded(w.phase) && Legal(w, run, cfg)
    ensures Concluded(After(w, run, cfg).phase) && After(w, run, cfg).job == w.job
    decreases run
  {
    if run != [] {
      ConcludedStays(Apply(w, run[0], cfg), run[1..], cfg);
    }
  }

  /** Between puts nothing is in the air. */
  ghost predicate AtRest(w: World) {
    w.phase.Scheduled? || w.phase.Sleeping? ==> w.flight.None?
  }

  /** The owner's record carries this outcome of a handler. */
  ghost predicate Carries(r: Record, e: Event) {
    && e.Finishes? && r.state == e.outcome && r.finishedAt.Some?
    && (e.outcome == Done ==> r.progress == 1.0)
    && (e.outcome == Failed ==> r.error == Some(e.error))
  }

  lemma {:induction false} VerdictFromHandler(w: World, run: seq<Event>, cfg: Config) returns (i: nat)
    requires !Concluded(w.phase) && AtRest(w) && Legal(w, run, cfg)
    requires After(w, run, cfg).phase.Finishing? || After(w, run, cfg).phase.Ended?
    ensures i < |run| && Carries(After(w, run, cfg).job, run[i])
    decreases run
  {
    var w' := Apply(w, run[0], cfg);
    if Concluded(w'.phase) {
      ConcludedStays(w', run[1..], cfg);
      StoppedStays(w', run[1..], cfg);
      i := 0;
    } else {
      i := VerdictFromHandler(w', run[1..], cfg);
      i := i + 1;
    }
  }

  lemma {:induction false} StoppedStays(w: World, run: seq<Event>, cfg: Config)
    requires Legal(w, run, cfg)
    ensures w.phase.Gone? ==> After(w, run, cfg).phase.Gone?
    decreases run
  {
    if run != [] && w.phase.Gone? {
      StoppedStays(Apply(w, run[0], cfg), run[1..], cfg);
    }
  }

  /** With the margin, in every run: once the owner has ended, what is stored, if retention
      has not deleted it, is the outcome with which the handler finished. */
  lemma StoredVerdictIsOutcome(w: World, run: seq<Event>, cfg: Config) returns (i: nat)
    requires Initial(w, cfg) && cfg.Valid() && cfg.HasMargin() && Legal(w, run, cfg)
    requires After(w, run, cfg).phase.Ended?
    ensures i < |run| && run[i].Finishes?
    ensures var m := After(w, run, cfg); m.store.Some? ==> Carries(m.store.value, run[i])
  {
    EveryRunKeepsTiming(w, run, cfg);
    i := VerdictFromHandler(w, run, cfg);
  }

  /** Once retention has deleted the record of a job whose owner has ended, nobody writes
      it again. */
  ghost predicate Deleted(w: World) {
    w.phase.Ended? && w.store.None? && w.flight.None? && w.marks == {} && (w.sweep.Sweeping? ==> w.sweep.mark.None?)
  }

  lemma {:induction false} DeletedStays(w: World, run: seq<Event>, cfg: Config)
    requires Deleted(w) && Legal(w, run, cfg)
    ensures Deleted(After(w, run, cfg))
    decreases run
  {
    if run != [] {
      DeletedStays(Apply(w, run[0], cfg), run[1..], cfg);
    }
  }

  /** Retention can delete a record exactly when it finds it terminated before the cutoff,
      or has found it so before. */
  lemma RetentionLooks(w: World, cutoff: real, cfg: Config)
    ensures Enabled(w, PruneLooks(cutoff), cfg)
    ensures Enabled(Apply(w, PruneLooks(cutoff), cfg), PruneLands, cfg) <==>
      || w.pruning
      || (&& w.store.Some? && w.store.value.state in {Done, Failed, Cancelled}
          && w.store.value.finishedAt.Some? && w.store.value.finishedAt.value < cutoff)
  {
  }

  lemma RetentionIsFinal(w: World, run: seq<Event>, later: seq<Event>, cfg: Config)
    requires Initial(w, cfg) && cfg.Valid() && cfg.HasMargin() && Legal(w, run, cfg)
    requires var m := After(w, run, cfg);
             m.phase.Ended? && Enabled(m, PruneLands, cfg) && Legal(Apply(m, PruneLands, cfg), later, cfg)
    ensures After(Apply(After(w, run, cfg), PruneLands, cfg), later, cfg).store.None?
  {
    EveryRunKeepsTiming(w, run, cfg);
    DeletedStays(Apply(After(w, run, cfg), PruneLands, cfg), later, cfg);
  }

  /** The progress a handler reported last, clamped, or p before the first report. */
  ghost function Reported(p: real, run: seq<Event>): real
    decreases run
  {
    if run == [] then p
    else
      var q := run[0];
      Reported(if !q.Progresses? then p else if q.p < 0.0 then 0.0 else if q.p > 1.0 then 1.0 else q.p, run[1..])
  }

  /** In every run the owner's record shows the progress reported last, until it is done
      and shows 1. */
  lemma {:induction false} ProgressIsReported(w: World, run: seq<Event>, cfg: Config)
    requires Legal(w, run, cfg) && (Terminal(w.job.state) ==> Concluded(w.phase))
    ensures var job := After(w, run, cfg).job;
            job.progress == if job.state == Done && w.job.state != Done then 1.0 else Reported(w.job.progress, run)
    decreases run
  {
    if run != [] {
      ProgressIsReported(Apply(w, run[0], cfg), run[1..], cfg);
      if run[0].Finishes? { NothingReported(Apply(w, run[0], cfg), run[1..], cfg); }
    }
  }

  lemma {:induction false} NothingReported(w: World, run: seq<Event>, cfg: Config)
    requires Concluded(w.phase) && Legal(w, run, cfg)
    ensures Reported(w.job.progress, run) == w.job.progress && After(w, run, cfg).job == w.job
    decreases run
  {
    if run != [] {
      NothingReported(Apply(w, run[0], cfg), run[1..], cfg);
    }
  }

  // ----- the margin is exact

  lemma {:induction false} Extend(w: World, run: seq<Event>, cfg: Config, e: Event) returns (run': seq<Event>)
    requires Legal(w, run, cfg) && Enabled(After(w, run, cfg), e, cfg)
    ensures run' == run + [e] && Legal(w, run', cfg)
    ensures After(w, run', cfg) == Apply(After(w, run, cfg), e, cfg)
    decreases run
  {
    run' := run + [e];
    if run != [] {
      var rest := Extend(Apply(w, run[0], cfg), run[1..], cfg, e);
      assert run'[1..] == rest;
    }
  }

  const NEW_JOB := Record("j", Pending, 0.0, 0.0, None, None, "node-1", [], None)

  /** A job created at time 0 and running, its first put acknowledged late. */
  lemma SlowStart(cfg: Config) returns (w: World, run: seq<Event>)
    requires cfg.Valid()
    ensures Initial(w, cfg) && Legal(w, run, cfg)
    ensures After(w, run, cfg)
            == World(cfg.rpc, Sleeping(cfg.rpc + FLUSH_PERIOD), FIRST, None, [], Some(FIRST), {}, {}, false, NoLeader)
  {
    w := World(0.0, Creating, NEW_JOB, Some(Flight(NEW_JOB, 0.0, false)), [], None, {}, {}, false, NoLeader);
    run := Extend(w, [], cfg, Lands);
    run := Extend(w, run, cfg, Acked);
    run := Extend(w, run, cfg, Starts);
    run := Extend(w, run, cfg, Lands);
    run := Extend(w, run, cfg, Tick(cfg.rpc));
    run := Extend(w, run, cfg, Acked);
  }

  /** Without the margin both halves fail: whenever the timeout is shorter than a
      flush period plus three slow puts plus the skew, there is a run in which a
      sweep marks a job its owner is finishing, and a finished job's `done` is
      overwritten with `failed`. */
  lemma MarginIsNecessary(cfg: Config) returns (w: World, run: seq<Event>, later: seq<Event>)
    requires cfg.Valid() && !cfg.HasMargin()
    ensures Initial(w, cfg) && Legal(w, run, cfg)
    ensures Legal(After(w, run, cfg), later, cfg)
    ensures var m := After(w, run, cfg); var m' := After(m, later, cfg);
            && m.marks != {} && m.phase.Finishing?
            && m.store.Some? && m.store.value.state.Done?
            && m'.store.Some? && m'.store.value.state.Failed?
  {
    w, run := SlowStart(cfg);
    run := SlowFinish(w, run, cfg);
    run := SweepOvertakes(w, run, cfg);
    var m := After(w, run, cfg);
    var mark :| mark in m.marks;
    later := Extend(m, [], cfg, MarkLands(mark));
  }

  const FIRST := NEW_JOB.(state := Running, heartbeat := Some(0.0))

  /** A flush that is still in the air when the handler returns, and a final put
      still in the air when its time is up: the stored heartbeat is then a flush
      period and three puts old. */
  lemma SlowFinish(w: World, run: seq<Event>, cfg: Config) returns (run': seq<Event>)
    requires cfg.Valid() && Legal(w, run, cfg)
    requires After(w, run, cfg)
             == World(cfg.rpc, Sleeping(cfg.rpc + FLUSH_PERIOD), FIRST, None, [], Some(FIRST), {}, {}, false, NoLeader)
    ensures Legal(w, run', cfg)
    ensures var m := After(w, run', cfg);
            && m.now == FLUSH_PERIOD + 3.0 * cfg.rpc && m.phase.Finishing? && m.store == Some(FIRST)
            && m.flight.Some? && m.flight.value.rec.state.Done? && m.marks == {} && m.cutoffs == {}
  {
    run' := Extend(w, run, cfg, Tick(FLUSH_PERIOD));
    run' := Extend(w, run', cfg, FlushDue);
    run' := Extend(w, run', cfg, Tick(cfg.rpc));
    run' := Extend(w, run', cfg, Finishes(Done, ""));
    run' := Extend(w, run', cfg, Tick(cfg.rpc));
  }

  lemma SweepOvertakes(w: World, run: seq<Event>, cfg: Config) returns (run': seq<Event>)
    requires cfg.Valid() && !cfg.HasMargin() && Legal(w, run, cfg)
    requires var m := After(w, run, cfg);
             && m.now == FLUSH_PERIOD + 3.0 * cfg.rpc && m.phase.Finishing? && m.store == Some(FIRST)
             && m.flight.Some? && m.flight.value.rec.state.Done? && m.marks == {} && m.cutoffs == {}
    ensures Legal(w, run', cfg)
    ensures var m := After(w, run', cfg);
            && m.marks != {} && (forall k :: k in m.marks ==> k.state.Failed?)
            && m.phase.Finishing? && m.store.Some? && m.store.value.state.Done?
  {
    var now := After(w, run, cfg).now;
    var cutoff := now + cfg.skew - cfg.timeout;
    assert Stale(FIRST, cutoff);
    run' := Extend(w, run, cfg, SweepBegins(now + cfg.skew));
    run' := Extend(w, run', cfg, SweepLooks(cutoff, "owner died", now));
    assert After(w, run', cfg).marks == {MarkFailed(FIRST, "owner died", now)};
    run' := Extend(w, run', cfg, Lands);
  }

  // ----- a stopped owner's job is closed in time

  /** The store holds, or a put in the air may yet store, a running record. */
  ghost predicate CouldRun(w: World) {
    || (w.store.Some? && w.store.value.state.Running?)
    || (w.flight.Some? && w.flight.value.rec.state.Running?)
  }

  /** From the moment the owner stopped, a sweep that begins after this cannot find
      its heartbeat fresh. */
  ghost function Doomed(at: real, cfg: Config): real {
    at + cfg.timeout + cfg.skew
  }

  ghost predicate RunningBy(r: Record, limit: real) {
    r.state.Running? ==> r.heartbeat.Some? && r.heartbeat.value <= limit
  }

  /** The latest moment the owner can have stamped a heartbeat. */
  ghost function LastSeen(w: World): real {
    if w.phase.Gone? then w.phase.at else w.now
  }

  /** What the owner leaves in the store and in the air, whatever the margin. */
  ghost predicate TraceOk(w: World, cfg: Config) {
    && LastSeen(w) <= w.now
    && (w.flight.Some? ==>
          && w.flight.value.sent <= LastSeen(w) && w.now <= LastSeen(w) + cfg.attempt
          && RunningBy(w.flight.value.rec, w.flight.value.sent))
    && (w.store.Some? ==> RunningBy(w.store.value, LastSeen(w)))
    && (forall m :: m in w.marks ==> m.state.Failed?)
    && (w.sweep.Sweeping? && w.sweep.mark.Some? ==> w.sweep.mark.value.state.Failed?)
  }

  /** Where the leader's loop stands, in time. */
  ghost predicate LoopOk(w: World, cfg: Config) {
    match w.sweep
    case NoLeader => true
    case Waiting(until) => w.now <= until && (!w.phase.Gone? ==> until <= w.now + cfg.interval)
    case Sweeping(began, cutoff, _, _) =>
      began <= w.now <= began + cfg.sweepTime && began - cfg.skew - cfg.timeout <= cutoff
  }

  /** While the job could still show up as running, the loop has not fallen behind. */
  ghost predicate InPursuit(w: World, cfg: Config) {
    w.phase.Gone? && CouldRun(w) ==>
      var late := Doomed(w.phase.at, cfg) + cfg.sweepTime + cfg.interval;
      match w.sweep
      case NoLeader => true
      case Waiting(until) => until <= late
      case Sweeping(began, _, looked, mark) =>
        began <= late && (looked && mark.None? ==> began <= Doomed(w.phase.at, cfg))
  }

  ghost predicate SweepOk(w: World, cfg: Config) {
    TraceOk(w, cfg) && LoopOk(w, cfg) && InPursuit(w, cfg)
  }

  /** The attempt that is still in the air when its owner stops lands before a sweep
      that begins past the timeout. */
  ghost predicate PutsLandInTime(cfg: Config) {
    cfg.Valid() && cfg.attempt <= cfg.timeout + cfg.skew
  }

  lemma OwnerKeepsSweep(w: World, e: Event, cfg: Config)
    requires PutsLandInTime(cfg) && SweepOk(w, cfg) && Enabled(w, e, cfg)
    requires e.Tick? || e.Lands? || e.Acked? || e.Logs? || e.Progresses?
    ensures SweepOk(Apply(w, e, cfg), cfg)
  {
  }

  lemma SendKeepsSweep(w: World, e: Event, cfg: Config)
    requires PutsLandInTime(cfg) && SweepOk(w, cfg) && Enabled(w, e, cfg)
    requires e.Starts? || e.FlushDue? || e.Finishes?
    ensures SweepOk(Apply(w, e, cfg), cfg)
  {
  }

  lemma StopKeepsSweep(w: World, e: Event, cfg: Config)
    requires PutsLandInTime(cfg) && SweepOk(w, cfg) && Enabled(w, e, cfg)
    requires e.Stops? || e.FlightLost?
    ensures SweepOk(Apply(w, e, cfg), cfg)
  {
  }

  lemma LeaderKeepsSweep(w: World, e: Event, cfg: Config)
    requires PutsLandInTime(cfg) && SweepOk(w, cfg) && Enabled(w, e, cfg)
    requires e.LeaderBegins? || e.LeaderLooks? || e.LeaderLands? || e.LeaderEnds?
    ensures SweepOk(Apply(w, e, cfg), cfg)
  {
  }

  lemma OthersKeepSweep(w: World, e: Event, cfg: Config)
    requires PutsLandInTime(cfg) && SweepOk(w, cfg) && Enabled(w, e, cfg)
    requires e.SweepBegins? || e.SweepLooks? || e.MarkLands? || e.PruneLooks? || e.PruneLands?
    ensures SweepOk(Apply(w, e, cfg), cfg)
  {
  }

  lemma StepKeepsSweep(w: World, e: Event, cfg: Config)
    requires PutsLandInTime(cfg) && SweepOk(w, cfg) && Enabled(w, e, cfg)
    ensures SweepOk(Apply(w, e, cfg), cfg)
  {
    if e.Stops? || e.FlightLost? {
      StopKeepsSweep(w, e, cfg);
    } else if e.Starts? || e.FlushDue? || e.Finishes? {
      SendKeepsSweep(w, e, cfg);
    } else if e.LeaderBegins? || e.LeaderLooks? || e.LeaderLands? || e.LeaderEnds? {
      LeaderKeepsSweep(w, e, cfg);
    } else if e.SweepBegins? || e.SweepLooks? || e.MarkLands? || e.PruneLooks? || e.PruneLands? {
      OthersKeepSweep(w, e, cfg);
    } else {
      OwnerKeepsSweep(w, e, cfg);
    }
  }

  lemma {:induction false} EveryRunKeepsSweep(w: World, run: seq<Event>, cfg: Config)
    requires PutsLandInTime(cfg) && SweepOk(w, cfg) && Legal(w, run, cfg)
    ensures SweepOk(After(w, run, cfg), cfg)
    decreases run
  {
    if run != [] {
      StepKeepsSweep(w, run[0], cfg);
      EveryRunKeepsSweep(Apply(w, run[0], cfg), run[1..], cfg);
    }
  }

  ghost predicate LeaderPresent(w: World) {
    !w.sweep.NoLeader?
  }

  /** The latest time at which a job whose owner stopped at `at` may still be stored as
      running. */
  ghost function Closing(at: real, cfg: Config): real {
    at + cfg.timeout + cfg.skew + cfg.interval + 2.0 * cfg.sweepTime
  }

  ghost predicate StillRunning(w: World) {
    LeaderPresent(w) && w.phase.Gone? && w.store.Some? && w.store.value.state.Running?
  }

  /** In every run with a leader whose sweeps complete, whether or not the timeout has
      the margin above, a job whose owner stopped at `at` is no longer stored as running
      after at + timeout + skew + one sweep interval + two sweep durations, if one attempt
      at a put takes no longer than timeout and skew.  The second duration is needed: the cutoff
      is taken when a sweep begins, so a sweep that began just too early must first
      end. */
  lemma StoppedJobIsClosed(w: World, run: seq<Event>, cfg: Config)
    requires Initial(w, cfg) && PutsLandInTime(cfg) && Legal(w, run, cfg)
    ensures var m := After(w, run, cfg); StillRunning(m) ==> m.now <= Closing(m.phase.at, cfg)
  {
    EveryRunKeepsSweep(w, run, cfg);
  }

  /** A sweep begins and looks at a record it does not find stale. */
  lemma VainLook(w: World, run: seq<Event>, cfg: Config, clock: real) returns (run': seq<Event>)
    requires Legal(w, run, cfg)
    requires var m := After(w, run, cfg);
             && m.sweep == Waiting(m.now) && m.now - cfg.skew <= clock <= m.now + cfg.skew
             && m.store.Some? && !Stale(m.store.value, clock - cfg.timeout)
    ensures Legal(w, run', cfg)
    ensures var m := After(w, run, cfg);
            After(w, run', cfg) == m.(sweep := Sweeping(m.now, clock - cfg.timeout, true, None))
  {
    run' := Extend(w, run, cfg, LeaderBegins(clock));
    run' := Extend(w, run', cfg, LeaderLooks("owner died", clock));
  }

  /** Nothing in the air is overdue before `end`. */
  ghost predicate InTime(w: World, end: real, cfg: Config) {
    w.flight.Some? ==>
      end <= w.flight.value.sent + cfg.rpc && (w.phase.Gone? ==> end <= w.phase.at + cfg.attempt)
  }

  /** A sweep with nothing to mark takes `pause`, then the loop waits. */
  lemma SweepEnds(w: World, run: seq<Event>, cfg: Config, pause: real) returns (run': seq<Event>)
    requires cfg.Valid() && 0.0 <= pause <= cfg.sweepTime && Legal(w, run, cfg)
    requires var m := After(w, run, cfg);
             && m.phase.Gone? && m.sweep.Sweeping? && m.sweep.looked && m.sweep.mark.None? && m.sweep.began == m.now
             && InTime(m, m.now + pause + cfg.interval, cfg)
    ensures Legal(w, run', cfg)
    ensures var m := After(w, run, cfg); var until := m.now + pause + cfg.interval;
            After(w, run', cfg) == m.(now := until, sweep := Waiting(until))
  {
    run' := Extend(w, run, cfg, Tick(pause));
    run' := Extend(w, run', cfg, LeaderEnds);
    run' := Extend(w, run', cfg, Tick(cfg.interval));
  }

  /** A sweep that finds nothing stale takes `pause`, then the loop waits. */
  lemma FruitlessSweep(w: World, run: seq<Event>, cfg: Config, clock: real, pause: real) returns (run': seq<Event>)
    requires cfg.Valid() && 0.0 <= pause <= cfg.sweepTime && Legal(w, run, cfg)
    requires var m := After(w, run, cfg);
             && m.sweep == Waiting(m.now) && m.phase.Gone?
             && InTime(m, m.now + pause + cfg.interval, cfg)
             && m.now - cfg.skew <= clock <= m.now + cfg.skew
             && m.store.Some? && !Stale(m.store.value, clock - cfg.timeout)
    ensures Legal(w, run', cfg)
    ensures var m := After(w, run, cfg); var until := m.now + pause + cfg.interval;
            After(w, run', cfg) == m.(now := until, sweep := Waiting(until))
  {
    run' := VainLook(w, run, cfg, clock);
    run' := SweepEnds(w, run', cfg, pause);
  }

  /** The length of n intervals. */
  ghost function Span(n: nat, interval: real): real {
    if n == 0 then 0.0 else interval + Span(n - 1, interval)
  }

  lemma OneLess(q: real, interval: real)
    ensures (q - 1.0) * interval == q * interval - interval
  {
  }

  lemma ProductSign(q: real, interval: real)
    requires interval >= 0.0
    ensures q >= 0.0 ==> q * interval >= 0.0
    ensures q <= 0.0 ==> q * interval <= 0.0
  {
  }

  lemma {:induction false} SpanAgainst(n: nat, q: real, interval: real)
    requires interval >= 0.0
    ensures Span(n, interval) >= 0.0
    ensures n as real <= q ==> Span(n, interval) <= q * interval
    ensures q <= n as real ==> q * interval <= Span(n, interval)
  {
    if n == 0 {
      ProductSign(q, interval);
    } else {
      SpanAgainst(n - 1, q - 1.0, interval);
      OneLess(q, interval);
    }
  }

  /** The whole intervals that fit into a time, and the rest. */
  lemma WholeIntervals(time: real, interval: real) returns (n: nat, rest: real)
    requires time >= 0.0 && interval > 0.0
    ensures 0.0 <= rest <= interval && time == rest + Span(n, interval) && Span(n, interval) >= 0.0
  {
    var q := time / interval;
    assert q >= 0.0;
    n := q.Floor;
    SpanAgainst(n, q, interval);
    SpanAgainst(n + 1, q, interval);
    rest := time - Span(n, interval);
    assert q * interval == time;
    assert time <= Span(n + 1, interval);
  }

  /** Sweep after sweep finds the record fresh, up to the last one, on a clock that is
      behind. */
  lemma {:induction false} IdleSweeps(w: World, run: seq<Event>, cfg: Config, n: nat) returns (run': seq<Event>)
    requires cfg.Valid() && Legal(w, run, cfg)
    requires var m := After(w, run, cfg); var end := m.now + Span(n, cfg.interval);
             && m.sweep == Waiting(m.now) && m.phase.Gone? && InTime(m, end, cfg)
             && m.store.Some? && !Stale(m.store.value, end - cfg.skew - cfg.timeout)
    ensures Legal(w, run', cfg)
    ensures var m := After(w, run, cfg); var end := m.now + Span(n, cfg.interval);
            After(w, run', cfg) == m.(now := end, sweep := Waiting(end))
    decreases n
  {
    if n == 0 {
      run' := run;
    } else {
      SpanAgainst(n - 1, 0.0, cfg.interval);
      run' := FruitlessSweep(w, run, cfg, After(w, run, cfg).now - cfg.skew, 0.0);
      run' := IdleSweeps(w, run', cfg, n - 1);
    }
  }

  /** The condition is exact: whenever one attempt may take longer than timeout and skew,
      an owner that stops with its first running put in the air is still stored as
      running after that time: the put lands just after a sweep has passed over the
      pending record. */
  lemma LatePutOutlivesTheBound(cfg: Config) returns (w: World, run: seq<Event>)
    requires cfg.Valid() && cfg.interval > 0.0 && !PutsLandInTime(cfg)
    ensures Initial(w, cfg) && Legal(w, run, cfg)
    ensures var m := After(w, run, cfg); StillRunning(m) && m.now > Closing(m.phase.at, cfg)
  {
    var n, rest := WholeIntervals(cfg.attempt, cfg.interval);
    w, run := StopsMidPut(cfg, rest);
    run := IdleSweeps(w, run, cfg, n);
    run := VainLook(w, run, cfg, cfg.attempt);
    run := PutLandsLate(w, run, cfg);
    run := OneMoreSweep(w, run, cfg);
  }

  /** After a look that found nothing the loop takes its time, waits, and takes its time
      again. */
  lemma OneMoreSweep(w: World, run: seq<Event>, cfg: Config) returns (run': seq<Event>)
    requires cfg.Valid() && Legal(w, run, cfg)
    requires var m := After(w, run, cfg);
             && m.phase.Gone? && m.flight.None?
             && m.sweep.Sweeping? && m.sweep.looked && m.sweep.mark.None? && m.sweep.began == m.now
    ensures Legal(w, run', cfg)
    ensures var m := After(w, run, cfg); var m' := After(w, run', cfg);
            && m'.now == m.now + cfg.interval + 2.0 * cfg.sweepTime
            && m'.phase == m.phase && m'.store == m.store && m'.sweep.Sweeping?
  {
    run' := SweepEnds(w, run, cfg, cfg.sweepTime);
    run' := Extend(w, run', cfg, LeaderBegins(After(w, run', cfg).now));
    run' := Extend(w, run', cfg, Tick(cfg.sweepTime));
  }

  ghost predicate ClosedInTime(w: World, cfg: Config) {
    StillRunning(w) ==> w.now <= Closing(w.phase.at, cfg)
  }

  /** Stopped jobs are closed in time in every run if and only if one attempt at a put
      takes no longer than timeout and skew. */
  lemma StoppedJobIsClosedExactly(cfg: Config)
    requires cfg.Valid() && cfg.interval > 0.0
    ensures PutsLandInTime(cfg) <==>
      forall w, run :: Initial(w, cfg) && Legal(w, run, cfg) ==> ClosedInTime(After(w, run, cfg), cfg)
  {
    if PutsLandInTime(cfg) {
      forall w, run | Initial(w, cfg) && Legal(w, run, cfg) ensures ClosedInTime(After(w, run, cfg), cfg) {
        StoppedJobIsClosed(w, run, cfg);
      }
    } else {
      var w, run := LatePutOutlivesTheBound(cfg);
      assert !ClosedInTime(After(w, run, cfg), cfg);
    }
  }

  /** A job that starts at time 0 and whose owner stops at once. */
  lemma StopsMidPut(cfg: Config, until: real) returns (w: World, run: seq<Event>)
    requires cfg.Valid() && 0.0 <= until <= cfg.interval && until <= cfg.attempt
    ensures Initial(w, cfg) && Legal(w, run, cfg)
    ensures After(w, run, cfg) == World(until, Gone(0.0), FIRST, Some(Flight(FIRST, 0.0, false)), [], Some(NEW_JOB),
                                        {}, {}, false, Waiting(until))
  {
    w, run := StartsAtOnce(cfg, until);
    run := Extend(w, run, cfg, Stops);
    run := Extend(w, run, cfg, Tick(until));
  }

  lemma PutLandsLate(w: World, run: seq<Event>, cfg: Config) returns (run': seq<Event>)
    requires Legal(w, run, cfg)
    requires var m := After(w, run, cfg); m.phase.Gone? && m.flight.Some?
    ensures Legal(w, run', cfg)
    ensures var m := After(w, run, cfg);
            After(w, run', cfg) == m.(store := Some(m.flight.value.rec), flight := None)
  {
    run' := Extend(w, run, cfg, Lands);
    run' := Extend(w, run', cfg, FlightLost);
  }

  /** The bound is attained in every configuration: an owner whose last heartbeat is as
      old as its stop is still stored as running when the time is up, because a sweep
      whose clock is behind began at the very moment the timeout was over. */
  lemma SecondSweepDurationIsNeeded(cfg: Config) returns (w: World, run: seq<Event>)
    requires cfg.Valid() && cfg.interval > 0.0
    ensures Initial(w, cfg) && Legal(w, run, cfg)
    ensures var m := After(w, run, cfg); StillRunning(m) && m.now == Closing(m.phase.at, cfg)
  {
    var n, rest := WholeIntervals(cfg.timeout + cfg.skew, cfg.interval);
    w, run := StopsAfterPut(cfg, rest);
    run := IdleSweeps(w, run, cfg, n);
    run := VainLook(w, run, cfg, cfg.timeout);
    run := OneMoreSweep(w, run, cfg);
  }

  /** A job that starts at time 0 and whose owner stops once its first running put has
      landed. */
  lemma StopsAfterPut(cfg: Config, until: real) returns (w: World, run: seq<Event>)
    requires cfg.Valid() && 0.0 <= until <= cfg.interval
    ensures Initial(w, cfg) && Legal(w, run, cfg)
    ensures After(w, run, cfg) == World(until, Gone(0.0), FIRST, None, [], Some(FIRST), {}, {}, false, Waiting(until))
  {
    w, run := StartsAtOnce(cfg, until);
    run := Extend(w, run, cfg, Lands);
    run := Extend(w, run, cfg, Stops);
    run := Extend(w, run, cfg, FlightLost);
    run := Extend(w, run, cfg, Tick(until));
  }

  lemma StartsAtOnce(cfg: Config, until: real) returns (w: World, run: seq<Event>)
    requires cfg.Valid() && 0.0 <= until <= cfg.interval
    ensures Initial(w, cfg) && Legal(w, run, cfg)
    ensures After(w, run, cfg) == World(0.0, Starting, FIRST, Some(Flight(FIRST, 0.0, false)), [], Some(NEW_JOB),
                                        {}, {}, false, Waiting(until))
  {
    w := World(0.0, Creating, NEW_JOB, Some(Flight(NEW_JOB, 0.0, false)), [], None, {}, {}, false, Waiting(until));
    run := Extend(w, [], cfg, Lands);
    run := Extend(w, run, cfg, Acked);
    run := Extend(w, run, cfg, Starts);
  }

  // ----- a job that never got to run is never closed

  /** The comments promise that a job created but never run is swept as stale; the
      code skips every record that is not `running`.  Once its owner has stopped and
      nothing is in the air, a pending record stays as it is in every run. */
  lemma {:induction false} PendingJobIsNeverSwept(w: World, run: seq<Event>, cfg: Config)
    requires w.phase.Gone? && w.flight.None? && StoredPending(w)
    requires w.marks == {} && !w.pruning && !(w.sweep.Sweeping? && w.sweep.mark.Some?)
    requires Legal(w, run, cfg)
    ensures After(w, run, cfg).store == w.store
    decreases run
  {
    if run != [] {
      PendingJobIsNeverSwept(Apply(w, run[0], cfg), run[1..], cfg);
    }
  }

  lemma PendingJobCanBeStranded(cfg: Config) returns (w: World, run: seq<Event>)
    requires cfg.Valid()
    ensures Initial(w, cfg) && Legal(w, run, cfg)
    ensures var m := After(w, run, cfg);
            m.phase.Gone? && m.flight.None? && StoredPending(m) && m.marks == {} && !m.pruning && m.sweep.NoLeader?
  {
    w := World(0.0, Creating, NEW_JOB, Some(Flight(NEW_JOB, 0.0, false)), [], None, {}, {}, false, NoLeader);
    run := Extend(w, [], cfg, Lands);
    run := Extend(w, run, cfg, Acked);
    run := Extend(w, run, cfg, Stops);
  }
}
