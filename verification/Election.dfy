/** Leader election (daemon/leader.py) as a timed protocol over an etcd store with
    leases.  A daemon is a coroutine; each transition below is the stretch of code
    between two awaits, and the server applies requests independently of when (or
    whether) a reply is seen, so lost replies, retries and duplicate or late
    deliveries are all runs of the model. */
module Election {
  import opened Text

  type Node = string
  type Lease = nat

  /** `interval` is the keepalive interval; `rpc` bounds how long one `_post`,
      retries included, can take; `ttl` is how long the server keeps a lease after
      granting or renewing it. */
  datatype Config = Config(interval: real, rpc: real, ttl: real) {
    ghost predicate Valid() { interval >= 0.0 && rpc >= 0.0 && ttl >= 0.0 }

    /** The lease outlasts the grant call, the create call, one sleep and the first
        keepalive call. */
    ghost predicate HasMargin() { interval + 3.0 * rpc <= ttl }
  }

  /** Where the elector's coroutine is suspended. */
  datatype Pc =
    | Idle
    | Granting(sent: real)
    | Creating(sent: real)
    | Reading(sent: real)
    | Watching
    | Holding(wake: real)
    | Renewing(sent: real)
    | BackingOff
    | Stopped

  datatype Elector = Elector(
    isLeader: bool, leaseId: Option<Lease>, termStartedAt: Option<real>,
    skipRaceUntil: real, stopping: bool, pc: Pc)

  const FRESH := Elector(false, None, None, 0.0, false, Idle)

  // ----- what the coroutine does between two awaits

  /** The top of `run`: leave, sit out a cooldown, or ask for a lease. */
  function BeginCycle(e: Elector, now: real): Elector {
    if e.stopping then e.(pc := Stopped)
    else if now < e.skipRaceUntil then e.(isLeader := false, pc := Watching)
    else e.(pc := Granting(now))
  }

  function OnGrant(e: Elector, lease: Lease, now: real): Elector {
    e.(leaseId := Some(lease), pc := Creating(now))
  }

  /** `finally` of the winning branch. */
  function Release(e: Elector): Elector {
    e.(isLeader := false, termStartedAt := None, pc := Idle)
  }

  function OnCreate(e: Elector, won: bool, now: real, cfg: Config): Elector {
    if !won then e.(isLeader := false, pc := Reading(now))
    else if e.stopping then Release(e)
    else e.(isLeader := true, termStartedAt := Some(now), pc := Holding(now + cfg.interval))
  }

  function OnKeepalive(e: Elector, alive: bool, now: real, cfg: Config): Elector {
    if alive && !e.stopping then e.(pc := Holding(now + cfg.interval)) else Release(e)
  }

  function OnWake(e: Elector, now: real): Elector {
    e.(pc := Renewing(now))
  }

  /** A call that raises: `_hold_leadership` releases, anything else backs off. */
  function OnFailure(e: Elector): Elector {
    if e.pc.Renewing? then Release(e) else e.(pc := BackingOff)
  }

  // ----- the store

  /** `renewed` is when the server granted a lease or last processed a keepalive for
      it; `creates` holds the send time of every create-if-absent ever issued, keyed
      by the lease it carries; `won` and `lost` the answers the server has produced;
      `pings` and `revokes` every keepalive and every revoke ever sent. */
  datatype Store = Store(
    owner: map<Lease, Node>, live: set<Lease>, renewed: map<Lease, real>, diedAt: map<Lease, real>,
    key: Option<Lease>, creates: map<Lease, real>, won: set<Lease>, lost: set<Lease>,
    pings: set<Lease>, revokes: set<Lease>)

  const EMPTY := Store(map[], {}, map[], map[], None, map[], {}, {}, {}, {})

  function Die(s: Store, l: Lease, now: real): Store {
    s.(live := s.live - {l}, diedAt := s.diedAt[l := now],
       key := if s.key == Some(l) then None else s.key)
  }

  function Granted(s: Store, d: Node, l: Lease, now: real): Store {
    s.(owner := s.owner[l := d], live := s.live + {l}, renewed := s.renewed[l := now])
  }

  /** Compare-and-create: fails on an existing key, errors on a dead lease. */
  function ApplyCreate(s: Store, l: Lease): Store {
    if s.key.Some? then s.(lost := s.lost + {l})
    else if l in s.live then s.(key := Some(l), won := s.won + {l})
    else s
  }

  datatype Cluster = Cluster(now: real, store: Store, electors: map<Node, Elector>)

  datatype Event =
    | Tick(dt: real)
    | Cycle(d: Node)
    | ServerGrants(d: Node, l: Lease)
    | GrantReply(d: Node, l: Lease)
    | ServerCreates(l: Lease)
    | CreateReply(d: Node, won: bool)
    | ReadReply(d: Node)
    | SeesDelete(d: Node)
    | Wake(d: Node)
    | ServerRenews(l: Lease)
    | KeepaliveReply(d: Node, alive: bool)
    | Fails(d: Node)
    | BackoffOver(d: Node)
    | StepDown(d: Node)
    | StepDownDone(d: Node, cooldown: real)
    | Stop(d: Node)
    | Cancelled(d: Node)
    | Expires(l: Lease)
    | ServerRevokes(l: Lease)

  ghost predicate NotOverdue(pc: Pc, now: real, cfg: Config) {
    match pc
    case Granting(sent) => now <= sent + cfg.rpc
    case Creating(sent) => now <= sent + cfg.rpc
    case Reading(sent) => now <= sent + cfg.rpc
    case Renewing(sent) => now <= sent + cfg.rpc
    case Holding(wake) => now <= wake
    case _ => true
  }

  ghost predicate Enabled(c: Cluster, e: Event, cfg: Config) {
    match e
    case Tick(dt) =>
      dt >= 0.0 && forall d :: d in c.electors ==> NotOverdue(c.electors[d].pc, c.now + dt, cfg)
    case Cycle(d) => d in c.electors && c.electors[d].pc.Idle?
    case ServerGrants(d, l) => d in c.electors && l !in c.store.owner
    case GrantReply(d, l) =>
      && d in c.electors && c.electors[d].pc.Granting?
      && l in c.store.owner && c.store.owner[l] == d && l !in c.store.creates
      && l in c.store.renewed && c.electors[d].pc.sent <= c.store.renewed[l]
    case ServerCreates(l) => l in c.store.creates
    case CreateReply(d, won) =>
      && d in c.electors && c.electors[d].pc.Creating? && c.electors[d].leaseId.Some?
      && c.electors[d].leaseId.value in (if won then c.store.won else c.store.lost)
    case ReadReply(d) => d in c.electors && c.electors[d].pc.Reading?
    case SeesDelete(d) => d in c.electors && c.electors[d].pc.Watching?
    case Wake(d) =>
      d in c.electors && c.electors[d].pc.Holding? && c.electors[d].pc.wake <= c.now
    case ServerRenews(l) => l in c.store.live && l in c.store.pings
    case KeepaliveReply(d, alive) =>
      && d in c.electors && c.electors[d].pc.Renewing?
      && (alive ==>
            && c.electors[d].leaseId.Some? && c.electors[d].leaseId.value in c.store.renewed
            && c.electors[d].pc.sent <= c.store.renewed[c.electors[d].leaseId.value])
    case Fails(d) =>
      && d in c.electors
      && var pc := c.electors[d].pc;
         pc.Granting? || pc.Creating? || pc.Reading? || pc.Watching? || pc.Renewing?
    case BackoffOver(d) => d in c.electors && c.electors[d].pc.BackingOff?
    case StepDown(d) => d in c.electors && c.electors[d].isLeader && c.electors[d].leaseId.Some?
    case StepDownDone(d, _) => d in c.electors
    case Stop(d) => d in c.electors
    case Cancelled(d) => d in c.electors
    case Expires(l) =>
      l in c.store.live && l in c.store.renewed && c.store.renewed[l] + cfg.ttl < c.now
    case ServerRevokes(l) => l in c.store.live && l in c.store.revokes
  }

  function Revoking(s: Store, lease: Option<Lease>): Store {
    if lease.Some? then s.(revokes := s.revokes + {lease.value}) else s
  }

  function Pinging(s: Store, lease: Option<Lease>): Store {
    if lease.Some? then s.(pings := s.pings + {lease.value}) else s
  }

  ghost function Apply(c: Cluster, e: Event, cfg: Config): Cluster
    requires Enabled(c, e, cfg)
  {
    match e
    case Tick(dt) => c.(now := c.now + dt)
    case Cycle(d) => Set(c, d, BeginCycle(c.electors[d], c.now))
    case ServerGrants(d, l) =>
      c.(store := Granted(c.store, d, l, c.now))
    case GrantReply(d, l) =>
      Set(c, d, OnGrant(c.electors[d], l, c.now))
        .(store := c.store.(creates := c.store.creates[l := c.now]))
    case ServerCreates(l) => c.(store := ApplyCreate(c.store, l))
    case CreateReply(d, won) => Set(c, d, OnCreate(c.electors[d], won, c.now, cfg))
    case ReadReply(d) => Set(c, d, c.electors[d].(pc := Watching))
    case SeesDelete(d) => Set(c, d, c.electors[d].(pc := Idle))
    case Wake(d) =>
      Set(c, d, OnWake(c.electors[d], c.now)).(store := Pinging(c.store, c.electors[d].leaseId))
    case ServerRenews(l) => c.(store := c.store.(renewed := c.store.renewed[l := c.now]))
    case KeepaliveReply(d, alive) => Set(c, d, OnKeepalive(c.electors[d], alive, c.now, cfg))
    case Fails(d) => Set(c, d, OnFailure(c.electors[d]))
    case BackoffOver(d) => Set(c, d, c.electors[d].(pc := Idle))
    case StepDown(d) => c.(store := Revoking(c.store, c.electors[d].leaseId))
    case StepDownDone(d, cooldown) =>
      Set(c, d, c.electors[d].(skipRaceUntil := c.now + cooldown))
    case Stop(d) =>
      Set(c, d, c.electors[d].(stopping := true))
        .(store := Revoking(c.store, c.electors[d].leaseId))
    case Cancelled(d) => Set(c, d, Release(c.electors[d]).(pc := Stopped))
    case Expires(l) => c.(store := Die(c.store, l, c.now))
    case ServerRevokes(l) => c.(store := Die(c.store, l, c.now))
  }

  function Set(c: Cluster, d: Node, e: Elector): Cluster {
    c.(electors := c.electors[d := e])
  }

  // ----- runs

  ghost predicate Initial(c: Cluster) {
    && c.store == EMPTY
    && forall d :: d in c.electors ==> c.electors[d] == FRESH
  }

  /** Every event of the run is enabled when it happens. */
  ghost predicate Legal(c: Cluster, run: seq<Event>, cfg: Config)
    decreases run
  {
    run == [] || (Enabled(c, run[0], cfg) && Legal(Apply(c, run[0], cfg), run[1..], cfg))
  }

  ghost function After(c: Cluster, run: seq<Event>, cfg: Config): Cluster
    requires Legal(c, run, cfg)
    decreases run
  {
    if run == [] then c else After(Apply(c, run[0], cfg), run[1..], cfg)
  }

  // ----- the invariant

  ghost predicate StoreOk(s: Store, now: real) {
    && (s.key.Some? ==> s.key.value in s.live)
    && (forall l :: l in s.won && l in s.live ==> s.key == Some(l))
    && (forall l :: l in s.owner <==> l in s.live || l in s.diedAt)
    && (forall l :: l in s.live ==> l !in s.diedAt)
    && (forall l :: l in s.owner <==> l in s.renewed)
    && (forall l :: l in s.renewed ==> s.renewed[l] <= now)
    && (forall l :: l in s.diedAt ==> s.renewed[l] <= s.diedAt[l] <= now)
    && (forall l :: l in s.creates ==> l in s.owner && s.creates[l] <= now)
    && (forall l :: l in s.won ==> l in s.creates)
    && (forall l :: l in s.won && l in s.diedAt ==> s.creates[l] <= s.diedAt[l])
  }

  /** What holds of one elector `e` of node `d`. */
  ghost predicate ElectorOk(s: Store, now: real, d: Node, e: Elector, cfg: Config) {
    && NotOverdue(e.pc, now, cfg)
    && (e.isLeader <==> e.pc.Holding? || e.pc.Renewing?)
    && (e.termStartedAt.Some? <==> e.isLeader)
    && (e.isLeader ==> e.termStartedAt.value <= now)
    && (e.pc.Creating? || e.isLeader ==>
          && e.leaseId.Some? && e.leaseId.value in s.creates && e.leaseId.value in s.owner
          && s.owner[e.leaseId.value] == d)
    && (e.pc.Creating? ==> s.creates[e.leaseId.value] == e.pc.sent)
    && (e.isLeader ==>
          && e.leaseId.value in s.won
          && Timely(s, now, e.leaseId.value, e.pc, cfg))
  }

  /** Deadlines of a leader's next step, from the death of its lease when it is
      dead and from the present when it is alive. */
  ghost predicate Timely(s: Store, now: real, l: Lease, pc: Pc, cfg: Config)
    requires pc.Holding? || pc.Renewing?
  {
    var limit := if l in s.diedAt then s.diedAt[l] else now;
    match pc
    case Holding(wake) => wake <= limit + cfg.rpc + cfg.interval
    case Renewing(sent) => sent <= now && sent <= limit + cfg.rpc + cfg.interval
  }

  ghost predicate Inv(c: Cluster, cfg: Config) {
    && cfg.Valid()
    && StoreOk(c.store, c.now)
    && forall d :: d in c.electors ==> ElectorOk(c.store, c.now, d, c.electors[d], cfg)
  }

  // ----- every step keeps it

  /** How a store may change over time: facts accumulate, and a lease that dies
      does so now. */
  ghost predicate Evolves(s: Store, now: real, s': Store, now': real) {
    && now <= now'
    && (forall l :: l in s.owner ==> l in s'.owner && s'.owner[l] == s.owner[l])
    && (forall l :: l in s.creates ==> l in s'.creates && s'.creates[l] == s.creates[l])
    && s.won <= s'.won
    && (forall l :: l in s.diedAt ==> l in s'.diedAt && s'.diedAt[l] == s.diedAt[l])
    && (forall l :: l in s'.diedAt && l !in s.diedAt ==> s'.diedAt[l] >= now)
  }

  /** An elector that does not move stays in order while the store evolves. */
  lemma ElectorStays(s: Store, now: real, s': Store, now': real, d: Node, e: Elector, cfg: Config)
    requires ElectorOk(s, now, d, e, cfg) && Evolves(s, now, s', now')
    requires NotOverdue(e.pc, now', cfg)
    ensures ElectorOk(s', now', d, e, cfg)
  {
  }

  lemma DeathStep(s: Store, l: Lease, now: real)
    requires StoreOk(s, now) && l in s.live
    ensures StoreOk(Die(s, l, now), now) && Evolves(s, now, Die(s, l, now), now)
  {
  }

  lemma CreateStep(s: Store, l: Lease, now: real)
    requires StoreOk(s, now) && l in s.creates
    ensures StoreOk(ApplyCreate(s, l), now) && Evolves(s, now, ApplyCreate(s, l), now)
  {
  }

  lemma GrantStep(s: Store, d: Node, l: Lease, now: real)
    requires StoreOk(s, now) && l !in s.owner
    ensures StoreOk(Granted(s, d, l, now), now) && Evolves(s, now, Granted(s, d, l, now), now)
  {
  }

  lemma RenewStep(s: Store, l: Lease, now: real)
    requires StoreOk(s, now) && l in s.live
    ensures var s' := s.(renewed := s.renewed[l := now]); StoreOk(s', now) && Evolves(s, now, s', now)
  {
  }

  /** Events that only record a request or let time pass. */
  lemma RequestStep(c: Cluster, e: Event, cfg: Config)
    requires StoreOk(c.store, c.now) && Enabled(c, e, cfg)
    requires !e.Expires? && !e.ServerRevokes? && !e.ServerCreates? && !e.ServerGrants? && !e.ServerRenews?
    ensures StoreOk(Apply(c, e, cfg).store, Apply(c, e, cfg).now)
    ensures Evolves(c.store, c.now, Apply(c, e, cfg).store, Apply(c, e, cfg).now)
  {
    var c' := Apply(c, e, cfg);
    if e.GrantReply? {
      CreateSent(c.store, e.l, c.now);
    } else {
      QuietStore(c.store, c'.store.pings, c'.store.revokes, c.now, c'.now);
    }
  }

  lemma CreateSent(s: Store, l: Lease, now: real)
    requires StoreOk(s, now) && l in s.owner && l !in s.creates
    ensures var s' := s.(creates := s.creates[l := now]); StoreOk(s', now) && Evolves(s, now, s', now)
  {
  }

  lemma QuietStore(s: Store, pings: set<Lease>, revokes: set<Lease>, now: real, now': real)
    requires StoreOk(s, now) && now <= now'
    ensures var s' := s.(pings := pings, revokes := revokes); StoreOk(s', now') && Evolves(s, now, s', now')
  {
  }

  lemma StoreStep(c: Cluster, e: Event, cfg: Config)
    requires Inv(c, cfg) && Enabled(c, e, cfg)
    ensures StoreOk(Apply(c, e, cfg).store, Apply(c, e, cfg).now)
    ensures Evolves(c.store, c.now, Apply(c, e, cfg).store, Apply(c, e, cfg).now)
  {
    match e
    case Expires(l) => DeathStep(c.store, l, c.now);
    case ServerRevokes(l) => DeathStep(c.store, l, c.now);
    case ServerCreates(l) => CreateStep(c.store, l, c.now);
    case ServerGrants(d, l) => GrantStep(c.store, d, l, c.now);
    case ServerRenews(l) => RenewStep(c.store, l, c.now);
    case _ => RequestStep(c, e, cfg);
  }

  /** The elector an event moves, if it moves one. */
  function Mover(e: Event): Option<Node> {
    match e
    case Cycle(d) => Some(d)
    case GrantReply(d, _) => Some(d)
    case CreateReply(d, _) => Some(d)
    case ReadReply(d) => Some(d)
    case SeesDelete(d) => Some(d)
    case Wake(d) => Some(d)
    case KeepaliveReply(d, _) => Some(d)
    case Fails(d) => Some(d)
    case BackoffOver(d) => Some(d)
    case StepDownDone(d, _) => Some(d)
    case Stop(d) => Some(d)
    case Cancelled(d) => Some(d)
    case _ => None
  }

  lemma MoverStep(c: Cluster, e: Event, cfg: Config)
    requires Inv(c, cfg) && Enabled(c, e, cfg) && Mover(e).Some?
    ensures var c' := Apply(c, e, cfg); var d := Mover(e).value;
            d in c'.electors && ElectorOk(c'.store, c'.now, d, c'.electors[d], cfg)
  {
    var d := Mover(e).value;
    assert ElectorOk(c.store, c.now, d, c.electors[d], cfg);
  }

  lemma StepKeepsInv(c: Cluster, e: Event, cfg: Config)
    requires Inv(c, cfg) && Enabled(c, e, cfg)
    ensures Inv(Apply(c, e, cfg), cfg)
  {
    var c' := Apply(c, e, cfg);
    StoreStep(c, e, cfg);
    if Mover(e).Some? { MoverStep(c, e, cfg); }
    forall d | d in c'.electors ensures ElectorOk(c'.store, c'.now, d, c'.electors[d], cfg) {
      if Mover(e) != Some(d) {
        ElectorStays(c.store, c.now, c'.store, c'.now, d, c.electors[d], cfg);
      }
    }
  }

  // ----- what every run keeps

  lemma {:induction false} EveryRunKeepsInv(c: Cluster, run: seq<Event>, cfg: Config)
    requires Inv(c, cfg) && Legal(c, run, cfg)
    ensures Inv(After(c, run, cfg), cfg)
    decreases run
  {
    if run != [] {
      StepKeepsInv(c, run[0], cfg);
      EveryRunKeepsInv(Apply(c, run[0], cfg), run[1..], cfg);
    }
  }

  ghost predicate LeaseLives(c: Cluster, d: Node)
    requires d in c.electors
  {
    c.electors[d].leaseId.Some? && c.electors[d].leaseId.value in c.store.live
  }

  ghost predicate Leads(c: Cluster, d: Node) {
    d in c.electors && c.electors[d].isLeader
  }

  /** In every run: the leader key is bound to a live lease; a daemon that believes
      it leads and whose lease is live owns that very lease; so two such daemons
      are the same daemon. */
  lemma OneLiveLeader(c: Cluster, run: seq<Event>, cfg: Config, a: Node, b: Node)
    requires Initial(c) && cfg.Valid() && Legal(c, run, cfg)
    ensures var c' := After(c, run, cfg);
            && (c'.store.key.Some? ==> c'.store.key.value in c'.store.live)
            && (a in c'.electors ==> (c'.electors[a].termStartedAt.Some? <==> Leads(c', a)))
            && (Leads(c', a) && LeaseLives(c', a) ==>
                  && c'.store.key == c'.electors[a].leaseId
                  && c'.store.key.value in c'.store.owner
                  && c'.store.owner[c'.store.key.value] == a)
            && (Leads(c', a) && LeaseLives(c', a) && Leads(c', b) && LeaseLives(c', b) ==> a == b)
  {
    EveryRunKeepsInv(c, run, cfg);
    var c' := After(c, run, cfg);
    assert a in c'.electors ==> ElectorOk(c'.store, c'.now, a, c'.electors[a], cfg);
    assert b in c'.electors ==> ElectorOk(c'.store, c'.now, b, c'.electors[b], cfg);
  }

  /** In every run a daemon whose lease died at D has stopped believing it leads by
      D + keepalive interval + 2 rpc, also when the lease died before the winning
      reply arrived. */
  lemma StaleLeadershipIsBounded(c: Cluster, run: seq<Event>, cfg: Config, d: Node)
    requires Initial(c) && cfg.Valid() && Legal(c, run, cfg)
    ensures var c' := After(c, run, cfg);
            Leads(c', d) && !LeaseLives(c', d) ==>
              && c'.electors[d].leaseId.Some?
              && c'.electors[d].leaseId.value in c'.store.diedAt
              && c'.now <= c'.store.diedAt[c'.electors[d].leaseId.value]
                           + cfg.interval + 2.0 * cfg.rpc
  {
    EveryRunKeepsInv(c, run, cfg);
    var c' := After(c, run, cfg);
    assert d in c'.electors ==> ElectorOk(c'.store, c'.now, d, c'.electors[d], cfg);
  }

  // ----- when the flags are exclusive

  /** A call that is waiting, or a term that is held, began within these times of
      the last moment the server granted or renewed its lease. */
  ghost predicate Covered(s: Store, e: Elector, cfg: Config) {
    && (e.pc.Creating? || e.isLeader ==> e.leaseId.Some? && e.leaseId.value in s.renewed)
    && (e.pc.Creating? ==> e.pc.sent <= s.renewed[e.leaseId.value] + cfg.rpc)
    && (e.isLeader && e.pc.Holding? ==> e.pc.wake <= s.renewed[e.leaseId.value] + 2.0 * cfg.rpc + cfg.interval)
    && (e.isLeader && e.pc.Renewing? ==> e.pc.sent <= s.renewed[e.leaseId.value] + 2.0 * cfg.rpc + cfg.interval)
  }

  /** While nothing is ever revoked a lease dies of age alone. */
  ghost predicate OfAge(s: Store, cfg: Config) {
    && s.revokes == {}
    && forall l :: l in s.diedAt ==> l in s.renewed && s.renewed[l] + cfg.ttl < s.diedAt[l]
  }

  ghost predicate AllCovered(c: Cluster, cfg: Config) {
    && OfAge(c.store, cfg)
    && forall d :: d in c.electors ==> Covered(c.store, c.electors[d], cfg)
  }

  /** Nobody steps down and nobody shuts down. */
  ghost predicate Undisturbed(run: seq<Event>) {
    forall i :: 0 <= i < |run| ==> !run[i].StepDown? && !run[i].Stop?
  }

  lemma AnswerIsCovered(c: Cluster, e: Event, cfg: Config)
    requires Inv(c, cfg) && AllCovered(c, cfg) && Enabled(c, e, cfg)
    requires e.GrantReply? || e.CreateReply? || e.KeepaliveReply?
    ensures var c' := Apply(c, e, cfg); e.d in c'.electors && Covered(c'.store, c'.electors[e.d], cfg)
  {
    assert ElectorOk(c.store, c.now, e.d, c.electors[e.d], cfg) && Covered(c.store, c.electors[e.d], cfg);
  }

  lemma OwnMoveIsCovered(c: Cluster, e: Event, cfg: Config)
    requires Inv(c, cfg) && AllCovered(c, cfg) && Enabled(c, e, cfg) && Mover(e).Some? && !e.Stop?
    requires !e.GrantReply? && !e.CreateReply? && !e.KeepaliveReply?
    ensures var c' := Apply(c, e, cfg); var d := Mover(e).value;
            d in c'.electors && Covered(c'.store, c'.electors[d], cfg)
  {
    var d := Mover(e).value;
    assert ElectorOk(c.store, c.now, d, c.electors[d], cfg) && Covered(c.store, c.electors[d], cfg);
  }

  lemma MoverIsCovered(c: Cluster, e: Event, cfg: Config)
    requires Inv(c, cfg) && AllCovered(c, cfg) && Enabled(c, e, cfg) && Mover(e).Some? && !e.Stop?
    ensures var c' := Apply(c, e, cfg); var d := Mover(e).value;
            d in c'.electors && Covered(c'.store, c'.electors[d], cfg)
  {
    if e.GrantReply? || e.CreateReply? || e.KeepaliveReply? {
      AnswerIsCovered(c, e, cfg);
    } else {
      OwnMoveIsCovered(c, e, cfg);
    }
  }

  lemma RenewalsGrow(c: Cluster, e: Event, cfg: Config)
    requires StoreOk(c.store, c.now) && Enabled(c, e, cfg)
    ensures var s' := Apply(c, e, cfg).store;
            forall l :: l in c.store.renewed ==> l in s'.renewed && c.store.renewed[l] <= s'.renewed[l]
  {
  }

  lemma DeathsAreOfAge(c: Cluster, e: Event, cfg: Config)
    requires StoreOk(c.store, c.now) && OfAge(c.store, cfg) && Enabled(c, e, cfg) && !e.StepDown? && !e.Stop?
    ensures OfAge(Apply(c, e, cfg).store, cfg)
  {
    var s := c.store;
    match e
    case Expires(l) => assert s.renewed[l] + cfg.ttl < c.now;
    case ServerRevokes(_) => assert false;
    case ServerRenews(l) => assert l !in s.diedAt;
    case ServerGrants(_, l) => assert l !in s.diedAt;
    case _ =>
  }

  lemma StepKeepsCovered(c: Cluster, e: Event, cfg: Config)
    requires Inv(c, cfg) && AllCovered(c, cfg) && Enabled(c, e, cfg) && !e.StepDown? && !e.Stop?
    ensures AllCovered(Apply(c, e, cfg), cfg)
  {
    var c' := Apply(c, e, cfg);
    if Mover(e).Some? { MoverIsCovered(c, e, cfg); }
    RenewalsGrow(c, e, cfg);
    DeathsAreOfAge(c, e, cfg);
    forall d | d in c'.electors ensures Covered(c'.store, c'.electors[d], cfg) {
      if Mover(e) != Some(d) {
        assert c'.electors[d] == c.electors[d] && Covered(c.store, c.electors[d], cfg);
      }
    }
  }

  lemma {:induction false} EveryRunKeepsCovered(c: Cluster, run: seq<Event>, cfg: Config)
    requires Inv(c, cfg) && AllCovered(c, cfg) && Legal(c, run, cfg) && Undisturbed(run)
    ensures AllCovered(After(c, run, cfg), cfg)
    decreases run
  {
    if run != [] {
      StepKeepsCovered(c, run[0], cfg);
      StepKeepsInv(c, run[0], cfg);
      EveryRunKeepsCovered(Apply(c, run[0], cfg), run[1..], cfg);
    }
  }

  ghost predicate Exclusive(c: Cluster) {
    forall a, b :: Leads(c, a) && Leads(c, b) ==> a == b
  }

  /** With the margin a flag that is up has a live lease behind it. */
  lemma LeaderLeaseLives(c: Cluster, cfg: Config, d: Node)
    requires Inv(c, cfg) && AllCovered(c, cfg) && cfg.HasMargin() && Leads(c, d)
    ensures LeaseLives(c, d)
  {
    assert ElectorOk(c.store, c.now, d, c.electors[d], cfg) && Covered(c.store, c.electors[d], cfg);
  }

  /** In every run without step-down and shutdown, whatever is lost, late or repeated:
      if the keepalive interval and three calls fit into the lease, no two daemons
      ever believe they lead at the same time. */
  lemma FlagsAreExclusive(c: Cluster, run: seq<Event>, cfg: Config)
    requires Initial(c) && cfg.Valid() && cfg.HasMargin() && Legal(c, run, cfg) && Undisturbed(run)
    ensures Exclusive(After(c, run, cfg))
  {
    EveryRunKeepsInv(c, run, cfg);
    EveryRunKeepsCovered(c, run, cfg);
    var c' := After(c, run, cfg);
    forall a, b | Leads(c', a) && Leads(c', b) ensures a == b {
      LeaderLeaseLives(c', cfg, a);
      LeaderLeaseLives(c', cfg, b);
      OneLiveLeader(c, run, cfg, a, b);
    }
  }

  // ----- runs that show the bounds are tight

  lemma {:induction false} Extend(c: Cluster, run: seq<Event>, cfg: Config, e: Event) returns (run': seq<Event>)
    requires Legal(c, run, cfg) && Enabled(After(c, run, cfg), e, cfg)
    ensures run' == run + [e] && Legal(c, run', cfg)
    ensures After(c, run', cfg) == Apply(After(c, run, cfg), e, cfg)
    decreases run
  {
    run' := run + [e];
    if run != [] {
      var rest := Extend(Apply(c, run[0], cfg), run[1..], cfg, e);
      assert run'[1..] == rest;
    }
  }

  /** What a daemon looks like that has just won with lease `l`. */
  ghost predicate JustWon(c: Cluster, d: Node, l: Lease, cfg: Config) {
    && d in c.electors && l in c.store.live && l in c.store.renewed
    && c.electors[d] == Elector(true, Some(l), Some(c.now), 0.0, false, Holding(c.now + cfg.interval))
  }

  /** A fresh daemon asks for a lease, and the server grants it. */
  lemma AsksForLease(c: Cluster, run: seq<Event>, cfg: Config, d: Node, l: Lease) returns (run': seq<Event>)
    requires Legal(c, run, cfg)
    requires var m := After(c, run, cfg);
             l !in m.store.owner && m.now >= 0.0 && d in m.electors && m.electors[d] == FRESH
    ensures run <= run' && Legal(c, run', cfg) && (Undisturbed(run) ==> Undisturbed(run'))
    ensures var m := After(c, run, cfg);
            After(c, run', cfg) == m.(electors := m.electors[d := FRESH.(pc := Granting(m.now))],
                                      store := Granted(m.store, d, l, m.now))
  {
    run' := Extend(c, run, cfg, Cycle(d));
    run' := Extend(c, run', cfg, ServerGrants(d, l));
  }

  lemma GrantArrives(c: Cluster, run: seq<Event>, cfg: Config, d: Node, l: Lease) returns (run': seq<Event>)
    requires Legal(c, run, cfg)
    requires var m := After(c, run, cfg);
             && l in m.store.owner && m.store.owner[l] == d && l !in m.store.creates && l in m.store.renewed
             && d in m.electors && m.electors[d].pc.Granting? && m.electors[d].pc.sent <= m.store.renewed[l]
    ensures run <= run' && Legal(c, run', cfg) && (Undisturbed(run) ==> Undisturbed(run'))
    ensures var m := After(c, run, cfg);
            After(c, run', cfg) == m.(electors := m.electors[d := OnGrant(m.electors[d], l, m.now)],
                                      store := m.store.(creates := m.store.creates[l := m.now]))
  {
    run' := Extend(c, run, cfg, GrantReply(d, l));
  }

  /** Time passes while nothing is overdue. */
  lemma Waits(c: Cluster, run: seq<Event>, cfg: Config, dt: real) returns (run': seq<Event>)
    requires Legal(c, run, cfg) && dt >= 0.0
    requires var m := After(c, run, cfg);
             dt == 0.0 || forall x :: x in m.electors ==> NotOverdue(m.electors[x].pc, m.now + dt, cfg)
    ensures run <= run' && Legal(c, run', cfg) && (Undisturbed(run) ==> Undisturbed(run'))
    ensures var m := After(c, run, cfg); After(c, run', cfg) == m.(now := m.now + dt)
  {
    if dt > 0.0 {
      run' := Extend(c, run, cfg, Tick(dt));
    } else {
      run' := run;
    }
  }

  /** A fresh daemon asks for a lease and gets it after `delay`. */
  lemma SlowGrant(c: Cluster, run: seq<Event>, cfg: Config, d: Node, l: Lease, delay: real) returns (run': seq<Event>)
    requires cfg.Valid() && Legal(c, run, cfg) && 0.0 <= delay <= cfg.rpc
    requires var m := After(c, run, cfg);
             && l !in m.store.owner && l !in m.store.creates && m.now >= 0.0
             && d in m.electors && m.electors[d] == FRESH
             && (delay == 0.0 || forall x :: x in m.electors ==> m.electors[x] == FRESH)
    ensures run <= run' && Legal(c, run', cfg) && (Undisturbed(run) ==> Undisturbed(run'))
    ensures var m := After(c, run, cfg); var m' := After(c, run', cfg);
            && m'.now == m.now + delay
            && m'.electors == m.electors[d := FRESH.(leaseId := Some(l), pc := Creating(m'.now))]
            && m'.store == m.store.(owner := m.store.owner[l := d], live := m.store.live + {l},
                                    renewed := m.store.renewed[l := m.now], creates := m.store.creates[l := m'.now])
  {
    run' := AsksForLease(c, run, cfg, d, l);
    run' := Waits(c, run', cfg, delay);
    run' := GrantArrives(c, run', cfg, d, l);
  }

  lemma CreateApplies(c: Cluster, run: seq<Event>, cfg: Config, l: Lease) returns (run': seq<Event>)
    requires Legal(c, run, cfg)
    requires var s := After(c, run, cfg).store; s.key.None? && l in s.live && l in s.creates
    ensures run <= run' && Legal(c, run', cfg) && (Undisturbed(run) ==> Undisturbed(run'))
    ensures var m := After(c, run, cfg);
            After(c, run', cfg) == m.(store := m.store.(key := Some(l), won := m.store.won + {l}))
  {
    run' := Extend(c, run, cfg, ServerCreates(l));
  }

  lemma WinArrives(c: Cluster, run: seq<Event>, cfg: Config, d: Node, l: Lease) returns (run': seq<Event>)
    requires Legal(c, run, cfg)
    requires var m := After(c, run, cfg);
             && l in m.store.won && d in m.electors && m.electors[d].pc.Creating? && m.electors[d].leaseId == Some(l)
    ensures run <= run' && Legal(c, run', cfg) && (Undisturbed(run) ==> Undisturbed(run'))
    ensures var m := After(c, run, cfg);
            After(c, run', cfg) == Set(m, d, OnCreate(m.electors[d], true, m.now, cfg))
  {
    run' := Extend(c, run, cfg, CreateReply(d, true));
  }

  /** Its create-if-absent meets no key and is answered after `delay`. */
  lemma SlowCreate(c: Cluster, run: seq<Event>, cfg: Config, d: Node, l: Lease, delay: real) returns (run': seq<Event>)
    requires cfg.Valid() && Legal(c, run, cfg) && 0.0 <= delay <= cfg.rpc
    requires var m := After(c, run, cfg);
             && m.store.key.None? && l in m.store.live && l in m.store.creates && l in m.store.renewed
             && d in m.electors && m.electors[d] == FRESH.(leaseId := Some(l), pc := Creating(m.now))
             && (delay == 0.0 || forall x :: x in m.electors && x != d ==> m.electors[x] == FRESH)
    ensures run <= run' && Legal(c, run', cfg) && (Undisturbed(run) ==> Undisturbed(run'))
    ensures var m := After(c, run, cfg); var m' := After(c, run', cfg);
            && m'.now == m.now + delay && JustWon(m', d, l, cfg)
            && (forall x :: x in m.electors && x != d ==> x in m'.electors && m'.electors[x] == m.electors[x])
            && m'.electors.Keys == m.electors.Keys
            && m'.store == m.store.(key := Some(l), won := m.store.won + {l})
  {
    run' := CreateApplies(c, run, cfg, l);
    run' := Waits(c, run', cfg, delay);
    run' := WinArrives(c, run', cfg, d, l);
  }

  /** A daemon sleeps out its interval and sends a keepalive. */
  lemma SleepsThenPings(c: Cluster, run: seq<Event>, cfg: Config, d: Node, l: Lease) returns (run': seq<Event>)
    requires cfg.Valid() && Legal(c, run, cfg)
    requires var m := After(c, run, cfg);
             && JustWon(m, d, l, cfg) && forall x :: x in m.electors && x != d ==> m.electors[x] == FRESH
    ensures Legal(c, run', cfg) && (Undisturbed(run) ==> Undisturbed(run'))
    ensures var m := After(c, run, cfg); var m' := After(c, run', cfg);
            && m'.now == m.now + cfg.interval && m'.store == m.store.(pings := m.store.pings + {l})
            && m'.electors == m.electors[d := m.electors[d].(pc := Renewing(m'.now))]
  {
    run' := Extend(c, run, cfg, Tick(cfg.interval));
    run' := Extend(c, run', cfg, Wake(d));
  }

  /** The keepalive call stays open for the whole `rpc`. */
  lemma PingHangs(c: Cluster, run: seq<Event>, cfg: Config, d: Node) returns (run': seq<Event>)
    requires cfg.Valid() && Legal(c, run, cfg)
    requires var m := After(c, run, cfg);
             && d in m.electors && m.electors[d].pc == Renewing(m.now)
             && forall x :: x in m.electors && x != d ==> m.electors[x] == FRESH
    ensures Legal(c, run', cfg) && (Undisturbed(run) ==> Undisturbed(run'))
    ensures var m := After(c, run, cfg); After(c, run', cfg) == m.(now := m.now + cfg.rpc)
  {
    run' := Extend(c, run, cfg, Tick(cfg.rpc));
  }

  const PAIR := Cluster(0.0, EMPTY, map["a" := FRESH, "b" := FRESH])

  /** "a" wins, with calls that take `delay` each. */
  lemma FirstWins(cfg: Config, delay: real) returns (run: seq<Event>)
    requires cfg.Valid() && 0.0 <= delay <= cfg.rpc
    ensures Initial(PAIR) && Legal(PAIR, run, cfg) && Undisturbed(run)
    ensures var m := After(PAIR, run, cfg);
            && m.now == 2.0 * delay && JustWon(m, "a", 1, cfg)
            && m.electors.Keys == {"a", "b"} && m.electors["b"] == FRESH
            && m.store == Store(map[1 := "a"], {1}, map[1 := 0.0], map[], Some(1),
                                map[1 := delay], {1}, {}, {}, {})
  {
    run := SlowGrant(PAIR, [], cfg, "a", 1, delay);
    run := SlowCreate(PAIR, run, cfg, "a", 1, delay);
  }

  /** "b" wins in an instant while the flag of "a" is still up. */
  lemma SecondWins(run: seq<Event>, cfg: Config) returns (run': seq<Event>)
    requires cfg.Valid() && Legal(PAIR, run, cfg)
    requires var m := After(PAIR, run, cfg);
             && m.store.key.None? && 2 !in m.store.owner && 2 !in m.store.creates && m.now >= 0.0
             && Leads(m, "a") && "b" in m.electors && m.electors["b"] == FRESH
    ensures run <= run' && Legal(PAIR, run', cfg) && (Undisturbed(run) ==> Undisturbed(run'))
    ensures Leads(After(PAIR, run', cfg), "a") && Leads(After(PAIR, run', cfg), "b")
  {
    run' := SlowGrant(PAIR, run, cfg, "b", 2, 0.0);
    run' := SlowCreate(PAIR, run', cfg, "b", 2, 0.0);
  }

  /** Without the margin the flags are not exclusive, in every configuration: a grant,
      a create and a first keepalive that each take the full `rpc` keep the flag up
      until its lease has expired and another daemon has won. */
  lemma MarginIsNecessary(cfg: Config) returns (run: seq<Event>)
    requires cfg.Valid() && !cfg.HasMargin()
    ensures Initial(PAIR) && Legal(PAIR, run, cfg) && Undisturbed(run)
    ensures !Exclusive(After(PAIR, run, cfg))
  {
    run := FirstWins(cfg, cfg.rpc);
    run := SleepsThenPings(PAIR, run, cfg, "a", 1);
    run := PingHangs(PAIR, run, cfg, "a");
    run := Extend(PAIR, run, cfg, Expires(1));
    run := SecondWins(run, cfg);
  }

  /** "Exactly one node leads" is true of the flags, in every undisturbed run, if and
      only if the margin holds: with the default 5 s interval and 15 s lease, if no
      call with its retries takes more than 10/3 s; the 31 s retry schedule allows
      more. */
  lemma FlagsAreExclusiveExactly(cfg: Config)
    requires cfg.Valid()
    ensures cfg.HasMargin() <==>
      forall c, run :: Initial(c) && Legal(c, run, cfg) && Undisturbed(run) ==> Exclusive(After(c, run, cfg))
  {
    if cfg.HasMargin() {
      forall c, run | Initial(c) && Legal(c, run, cfg) && Undisturbed(run) ensures Exclusive(After(c, run, cfg)) {
        FlagsAreExclusive(c, run, cfg);
      }
    } else {
      var run := MarginIsNecessary(cfg);
    }
  }

  /** "a" steps down or shuts down, and its lease is revoked. */
  lemma RevokedBy(run: seq<Event>, cfg: Config, how: Event) returns (run': seq<Event>)
    requires Legal(PAIR, run, cfg) && (how == StepDown("a") || how == Stop("a"))
    requires var m := After(PAIR, run, cfg);
             Leads(m, "a") && m.electors["a"].leaseId == Some(1) && 1 in m.store.live && m.store.key == Some(1)
    ensures run + [how] <= run' && Legal(PAIR, run', cfg)
    ensures var m := After(PAIR, run, cfg); var m' := After(PAIR, run', cfg);
            && m'.now == m.now && m'.store.key.None? && Leads(m', "a") && m'.electors.Keys == m.electors.Keys
            && m'.store.owner == m.store.owner && m'.store.creates == m.store.creates
            && forall d :: d in m.electors && d != "a" ==> m'.electors[d] == m.electors[d]
  {
    run' := Extend(PAIR, run, cfg, how);
    run' := Extend(PAIR, run', cfg, ServerRevokes(1));
  }

  /** A step-down or a shutdown breaks it in every configuration, at once: the lease
      is revoked while the flag stays up until the next keepalive. */
  lemma RevokingBreaksExclusion(cfg: Config, how: Event) returns (run: seq<Event>)
    requires cfg.Valid() && (how == StepDown("a") || how == Stop("a"))
    ensures Initial(PAIR) && Legal(PAIR, run, cfg) && how in run
    ensures !Exclusive(After(PAIR, run, cfg))
  {
    run := FirstWins(cfg, 0.0);
    var k := |run|;
    run := RevokedBy(run, cfg, how);
    run := SecondWins(run, cfg);
    assert run[k] == how;
  }

  // ----- the cooldown after a step-down

  /** Between the lease grant and the create: the daemon is in a race. */
  ghost predicate Racing(pc: Pc) {
    pc.Granting? || pc.Creating?
  }

  /** The daemon is given no new cooldown in the run. */
  ghost predicate NoNewCooldown(run: seq<Event>, d: Node) {
    forall i :: 0 <= i < |run| && run[i].StepDownDone? ==> run[i].d != d
  }

  lemma {:induction false} TimeGrows(c: Cluster, run: seq<Event>, cfg: Config)
    requires Legal(c, run, cfg)
    ensures c.now <= After(c, run, cfg).now
    decreases run
  {
    if run != [] {
      TimeGrows(Apply(c, run[0], cfg), run[1..], cfg);
    }
  }

  lemma OneAbstention(c: Cluster, e: Event, cfg: Config, d: Node)
    requires d in c.electors && Enabled(c, e, cfg) && !Racing(c.electors[d].pc)
    requires c.now < c.electors[d].skipRaceUntil && !(e.StepDownDone? && e.d == d)
    ensures var c' := Apply(c, e, cfg);
            && d in c'.electors && !Racing(c'.electors[d].pc)
            && c'.electors[d].skipRaceUntil == c.electors[d].skipRaceUntil
            && (c'.electors[d].isLeader ==> c.electors[d].isLeader)
            && !(e.GrantReply? && e.d == d)
  {
  }

  /** A daemon that is not racing does not race, is granted no lease and does not come to
      lead before its cooldown is over, in any run. */
  lemma {:induction false} CooldownHolds(c: Cluster, run: seq<Event>, cfg: Config, d: Node)
    requires d in c.electors && Legal(c, run, cfg) && !Racing(c.electors[d].pc) && NoNewCooldown(run, d)
    requires After(c, run, cfg).now < c.electors[d].skipRaceUntil
    ensures var m := After(c, run, cfg);
            && d in m.electors && !Racing(m.electors[d].pc) && !EverGranted(run, d)
            && (m.electors[d].isLeader ==> c.electors[d].isLeader)
    decreases run
  {
    if run != [] {
      TimeGrows(c, run, cfg);
      OneAbstention(c, run[0], cfg, d);
      TimeGrows(Apply(c, run[0], cfg), run[1..], cfg);
      CooldownHolds(Apply(c, run[0], cfg), run[1..], cfg, d);
      GrantedHeadTail(run, d);
    }
  }

  /** So a leader that steps down with a cooldown leaves the next term to others for that
      long: it is granted no lease, and once its flag is down it stays down. */
  lemma StepDownAbstains(c: Cluster, cooldown: real, run: seq<Event>, cfg: Config, d: Node)
    requires d in c.electors && !Racing(c.electors[d].pc)
    requires var c' := Apply(c, StepDownDone(d, cooldown), cfg);
             Legal(c', run, cfg) && NoNewCooldown(run, d) && After(c', run, cfg).now < c.now + cooldown
    ensures var m := After(Apply(c, StepDownDone(d, cooldown), cfg), run, cfg);
            && !EverGranted(run, d)
            && d in m.electors && !Racing(m.electors[d].pc) && (m.electors[d].isLeader ==> c.electors[d].isLeader)
  {
    CooldownHolds(Apply(c, StepDownDone(d, cooldown), cfg), run, cfg, d);
  }

  /** And it is the cooldown alone that holds it back: once it is over, an idle daemon
      that is not shutting down asks for a lease. */
  lemma RacesExactlyWhenDue(c: Cluster, cfg: Config, d: Node)
    requires d in c.electors && c.electors[d].pc.Idle?
    ensures Enabled(c, Cycle(d), cfg)
    ensures var e := Apply(c, Cycle(d), cfg).electors[d];
            && (Racing(e.pc) <==> !c.electors[d].stopping && c.electors[d].skipRaceUntil <= c.now)
            && (Racing(e.pc) ==> e.pc == Granting(c.now))
            && (!Racing(e.pc) ==> e.pc.Stopped? || (e.pc.Watching? && !e.isLeader))
            && (e.pc.Stopped? <==> c.electors[d].stopping)
  {
  }

  /** A daemon that shuts down without the flag never raises it again, in any run, and
      one that has ended its loop takes no further part. */
  lemma {:induction false} StoppingIsForGood(c: Cluster, run: seq<Event>, cfg: Config, d: Node)
    requires d in c.electors && c.electors[d].stopping && !c.electors[d].isLeader && Legal(c, run, cfg)
    requires !c.electors[d].pc.Holding? && !c.electors[d].pc.Renewing?
    ensures var m := After(c, run, cfg); d in m.electors && m.electors[d].stopping && !m.electors[d].isLeader
    ensures c.electors[d].pc.Stopped? ==> After(c, run, cfg).electors[d].pc.Stopped?
    decreases run
  {
    if run != [] {
      StoppingIsForGood(Apply(c, run[0], cfg), run[1..], cfg, d);
    }
  }

  /** A leader that shuts down keeps the flag until its next keepalive is answered, and
      then for good down. */
  lemma LastKeepalive(c: Cluster, alive: bool, run: seq<Event>, cfg: Config, d: Node)
    requires d in c.electors && c.electors[d].stopping && Enabled(c, KeepaliveReply(d, alive), cfg)
    requires Legal(Apply(c, KeepaliveReply(d, alive), cfg), run, cfg)
    ensures !Leads(After(Apply(c, KeepaliveReply(d, alive), cfg), run, cfg), d)
  {
    StoppingIsForGood(Apply(c, KeepaliveReply(d, alive), cfg), run, cfg, d);
  }

  ghost predicate NoBackoffEnd(run: seq<Event>, d: Node) {
    forall i :: 0 <= i < |run| && run[i].BackoffOver? ==> run[i].d != d
  }

  /** A call that failed while following or racing is followed by the backoff: until it is
      over the daemon neither races nor leads. */
  lemma {:induction false} BackoffHolds(c: Cluster, run: seq<Event>, cfg: Config, d: Node)
    requires d in c.electors && Legal(c, run, cfg) && NoBackoffEnd(run, d)
    requires c.electors[d].pc.BackingOff? || c.electors[d].pc.Stopped?
    ensures var m := After(c, run, cfg); d in m.electors && (m.electors[d].pc.BackingOff? || m.electors[d].pc.Stopped?)
    decreases run
  {
    if run != [] {
      BackoffHolds(Apply(c, run[0], cfg), run[1..], cfg, d);
    }
  }

  lemma FailureBacksOff(c: Cluster, run: seq<Event>, cfg: Config, d: Node)
    requires Enabled(c, Fails(d), cfg) && !c.electors[d].pc.Renewing?
    requires Legal(Apply(c, Fails(d), cfg), run, cfg) && NoBackoffEnd(run, d)
    ensures var m := After(Apply(c, Fails(d), cfg), run, cfg); d in m.electors && !Racing(m.electors[d].pc)
  {
    BackoffHolds(Apply(c, Fails(d), cfg), run, cfg, d);
  }

  /** A follower that sees the leader key go away, and a daemon whose backoff is over,
      races in that very moment, unless it is cooling down or shutting down. */
  lemma NextRoundRaces(c: Cluster, e: Event, cfg: Config, d: Node)
    requires (e == SeesDelete(d) || e == BackoffOver(d)) && Enabled(c, e, cfg)
    ensures Legal(c, [e, Cycle(d)], cfg)
    ensures var m := After(c, [e, Cycle(d)], cfg);
            && d in m.electors
            && (m.electors[d].pc == Granting(c.now) <==> !c.electors[d].stopping && c.electors[d].skipRaceUntil <= c.now)
  {
    var c' := Apply(c, e, cfg);
    RacesExactlyWhenDue(c', cfg, d);
    assert [e, Cycle(d)][1..] == [Cycle(d)] && [Cycle(d)][1..] == [];
    assert After(c', [Cycle(d)], cfg) == After(Apply(c', Cycle(d), cfg), [], cfg);
    assert After(c, [e, Cycle(d)], cfg) == After(c', [Cycle(d)], cfg);
  }

  // ----- the lease a follower keeps

  ghost predicate EverGranted(run: seq<Event>, d: Node) {
    exists i :: 0 <= i < |run| && run[i].GrantReply? && run[i].d == d
  }

  lemma {:induction false} LeaseStays(c: Cluster, run: seq<Event>, cfg: Config, d: Node)
    requires d in c.electors && Legal(c, run, cfg)
    ensures var m := After(c, run, cfg);
            d in m.electors && (m.electors[d].leaseId.None? <==> c.electors[d].leaseId.None? && !EverGranted(run, d))
    decreases run
  {
    if run != [] {
      LeaseStays(Apply(c, run[0], cfg), run[1..], cfg, d);
      GrantedHeadTail(run, d);
    }
  }

  lemma GrantedHeadTail(run: seq<Event>, d: Node)
    requires run != []
    ensures EverGranted(run, d) <==> (run[0].GrantReply? && run[0].d == d) || EverGranted(run[1..], d)
  {
    if i :| 0 <= i < |run| && run[i].GrantReply? && run[i].d == d {
      if i > 0 { assert run[1..][i - 1] == run[i]; }
    }
    if i :| 0 <= i < |run[1..]| && run[1..][i].GrantReply? && run[1..][i].d == d {
      assert run[i + 1] == run[1..][i];
    }
  }

  /** `lease_id` is None exactly until the first lease was ever granted to the daemon,
      whether it leads or follows. */
  lemma LeaseIdIsNoneExactly(c: Cluster, run: seq<Event>, cfg: Config, d: Node)
    requires Initial(c) && d in c.electors && Legal(c, run, cfg)
    ensures var m := After(c, run, cfg);
            d in m.electors &&
            (m.electors[d].leaseId.None? <==> forall i :: 0 <= i < |run| && run[i].GrantReply? ==> run[i].d != d)
  {
    LeaseStays(c, run, cfg, d);
  }

  /** So a follower that lost a race sits in its watch with a lease, and its shutdown
      revokes that one, in every configuration. */
  lemma FollowerKeepsLease(cfg: Config) returns (run: seq<Event>)
    requires cfg.Valid()
    ensures Initial(PAIR) && Legal(PAIR, run, cfg) && Legal(PAIR, run + [Stop("b")], cfg)
    ensures var m := After(PAIR, run, cfg);
            "b" in m.electors && m.electors["b"].pc.Watching? && !m.electors["b"].isLeader
            && m.electors["b"].leaseId == Some(2) && 2 in m.store.live && 2 !in m.store.revokes
    ensures 2 in After(PAIR, run + [Stop("b")], cfg).store.revokes
  {
    run := FirstWins(cfg, 0.0);
    run := SlowGrant(PAIR, run, cfg, "b", 2, 0.0);
    run := LosesRace(PAIR, run, cfg, "b", 2);
    var stopped := Extend(PAIR, run, cfg, Stop("b"));
  }

  lemma LosesRace(c: Cluster, run: seq<Event>, cfg: Config, d: Node, l: Lease) returns (run': seq<Event>)
    requires Legal(c, run, cfg)
    requires var m := After(c, run, cfg);
             && m.store.key.Some? && l in m.store.creates
             && d in m.electors && m.electors[d].pc.Creating? && m.electors[d].leaseId == Some(l)
    ensures Legal(c, run', cfg)
    ensures var m := After(c, run, cfg); var m' := After(c, run', cfg);
            && d in m'.electors && m'.electors[d].pc.Watching? && !m'.electors[d].isLeader
            && m'.electors[d].leaseId == Some(l)
            && m'.store.live == m.store.live && m'.store.revokes == m.store.revokes
  {
    run' := Extend(c, run, cfg, ServerCreates(l));
    run' := Extend(c, run', cfg, CreateReply(d, false));
    run' := Extend(c, run', cfg, ReadReply(d));
  }

  // ----- the stale bound is attained

  const LONE := Cluster(0.0, EMPTY, map["a" := FRESH])

  /** A lone leader wins, and its first keepalive is processed at once. */
  lemma LoneRenewal(cfg: Config) returns (run: seq<Event>)
    requires cfg.Valid()
    ensures Initial(LONE) && Legal(LONE, run, cfg)
    ensures var m := After(LONE, run, cfg);
            && m.electors == map["a" := Elector(true, Some(1), Some(0.0), 0.0, false, Renewing(m.now))]
            && 1 in m.store.live && 1 in m.store.renewed && m.store.renewed[1] == m.now
  {
    run := SlowGrant(LONE, [], cfg, "a", 1, 0.0);
    run := SlowCreate(LONE, run, cfg, "a", 1, 0.0);
    run := SleepsThenPings(LONE, run, cfg, "a", 1);
    run := Extend(LONE, run, cfg, ServerRenews(1));
  }

  /** A leader steps down and its lease dies in the same moment. */
  lemma Revocation(c: Cluster, run: seq<Event>, cfg: Config, d: Node) returns (run': seq<Event>)
    requires Legal(c, run, cfg)
    requires var m := After(c, run, cfg); Leads(m, d) && LeaseLives(m, d)
    ensures Legal(c, run', cfg)
    ensures var m := After(c, run, cfg); var m' := After(c, run', cfg);
            && m'.now == m.now && m'.electors == m.electors && m'.store.renewed == m.store.renewed
            && m'.store.diedAt == m.store.diedAt[m.electors[d].leaseId.value := m.now]
  {
    run' := Extend(c, run, cfg, StepDown(d));
    run' := Extend(c, run', cfg, ServerRevokes(After(c, run, cfg).electors[d].leaseId.value));
  }

  /** A lone leader whose renewal was just processed holds its flag up for two
      slow calls and one sleep. */
  lemma SlowRenewal(c: Cluster, run: seq<Event>, cfg: Config, d: Node) returns (run': seq<Event>)
    requires cfg.Valid() && Legal(c, run, cfg)
    requires var m := After(c, run, cfg);
             && m.electors.Keys == {d} && !m.electors[d].stopping && m.electors[d].isLeader
             && m.electors[d].pc == Renewing(m.now) && m.electors[d].leaseId.Some?
             && m.electors[d].leaseId.value in m.store.renewed
             && m.now <= m.store.renewed[m.electors[d].leaseId.value]
    ensures Legal(c, run', cfg)
    ensures var m := After(c, run, cfg); var m' := After(c, run', cfg);
            && m'.store.diedAt == m.store.diedAt && m'.now == m.now + cfg.rpc + cfg.interval + cfg.rpc
            && m'.electors.Keys == {d} && m'.electors[d].isLeader
            && m'.electors[d].leaseId == m.electors[d].leaseId
  {
    run' := LateReply(c, run, cfg, d);
    run' := Waits(c, run', cfg, cfg.interval);
    run' := Wakes(c, run', cfg, d);
    run' := Waits(c, run', cfg, cfg.rpc);
  }

  lemma Wakes(c: Cluster, run: seq<Event>, cfg: Config, d: Node) returns (run': seq<Event>)
    requires Legal(c, run, cfg)
    requires var m := After(c, run, cfg);
             d in m.electors && m.electors[d].pc == Holding(m.now) && m.electors[d].leaseId.Some?
    ensures Legal(c, run', cfg)
    ensures var m := After(c, run, cfg);
            After(c, run', cfg) == m.(electors := m.electors[d := OnWake(m.electors[d], m.now)],
                                      store := Pinging(m.store, m.electors[d].leaseId))
  {
    run' := Extend(c, run, cfg, Wake(d));
  }

  lemma LateReply(c: Cluster, run: seq<Event>, cfg: Config, d: Node) returns (run': seq<Event>)
    requires cfg.Valid() && Legal(c, run, cfg)
    requires var m := After(c, run, cfg);
             && m.electors.Keys == {d} && !m.electors[d].stopping
             && m.electors[d].pc == Renewing(m.now) && m.electors[d].leaseId.Some?
             && m.electors[d].leaseId.value in m.store.renewed
             && m.now <= m.store.renewed[m.electors[d].leaseId.value]
    ensures Legal(c, run', cfg)
    ensures var m := After(c, run, cfg); var m' := After(c, run', cfg);
            && m'.store == m.store && m'.now == m.now + cfg.rpc
            && m'.electors == m.electors[d := m.electors[d].(pc := Holding(m'.now + cfg.interval))]
  {
    run' := Extend(c, run, cfg, Tick(cfg.rpc));
    run' := Extend(c, run', cfg, KeepaliveReply(d, true));
  }

  /** The bound of StaleLeadershipIsBounded is attained in every configuration: a
      renewal processed just before a step-down revokes the lease, whose reply takes
      the full `rpc`, is followed by one more sleep and one more call. */
  lemma StaleBoundIsAttained(cfg: Config) returns (run: seq<Event>)
    requires cfg.Valid()
    ensures Initial(LONE) && Legal(LONE, run, cfg)
    ensures var c := After(LONE, run, cfg);
            && Leads(c, "a") && c.electors["a"].leaseId == Some(1) && 1 in c.store.diedAt
            && c.now == c.store.diedAt[1] + cfg.interval + 2.0 * cfg.rpc
  {
    run := LoneRenewal(cfg);
    run := Revocation(LONE, run, cfg, "a");
    run := SlowRenewal(LONE, run, cfg, "a");
  }
}
