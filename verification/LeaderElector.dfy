/** The elector object of one daemon (daemon/leader.py).  Each method is the code
    between two awaits.  `Drive` runs the object through any run of the election
    protocol: its fields are the protocol's at every step, so the results about
    runs speak about this code. */
module Leader {
  import opened Text
  import opened Election

  /** A request the daemon sends at the end of a step, beyond plain reads. */
  datatype Sent = Nothing | Create(l: Lease) | Ping(l: Lease) | Revoke(l: Lease)

  ghost function Receiving(s: Store, m: Sent, now: real): Store {
    match m
    case Nothing => s
    case Create(l) => s.(creates := s.creates[l := now])
    case Ping(l) => s.(pings := s.pings + {l})
    case Revoke(l) => s.(revokes := s.revokes + {l})
  }

  class LeaderElector {
    var isLeader: bool
    var leaseId: Option<Lease>
    var termStartedAt: Option<real>
    var skipRaceUntil: real
    var stopping: bool
    var pc: Pc
    const name: Node
    const cfg: Config

    ghost function View(): Elector
      reads this
    {
      Elector(isLeader, leaseId, termStartedAt, skipRaceUntil, stopping, pc)
    }

    /** The flag is up exactly inside `_hold_leadership`, a term is open exactly while
        the flag is up, and whoever races or leads has a lease. */
    ghost predicate Valid()
      reads this
    {
      && (isLeader <==> pc.Holding? || pc.Renewing?)
      && (termStartedAt.Some? <==> isLeader)
      && (pc.Creating? || isLeader ==> leaseId.Some?)
    }

    /** This object is the elector of `name` in cluster `c`. */
    ghost predicate Fits(c: Cluster)
      reads this
    {
      name in c.electors && c.electors[name] == View()
    }

    constructor (name: Node, cfg: Config)
      ensures Valid() && View() == FRESH && this.name == name && this.cfg == cfg
    {
      this.name, this.cfg := name, cfg;
      isLeader, leaseId, termStartedAt := false, None, None;
      skipRaceUntil, stopping, pc := 0.0, false, Idle;
    }

    /** The head of `run` and `_cycle`, up to the lease grant or the watch. */
    method StartCycle(now: real)
      requires Valid() && pc.Idle?
      modifies this
      ensures Valid() && !isLeader && View() == BeginCycle(old(View()), now)
      ensures stopping ==> pc.Stopped?
      ensures !stopping && now < skipRaceUntil ==> pc.Watching?
      ensures !stopping && skipRaceUntil <= now ==> pc == Granting(now)
    {
      if stopping {
        pc := Stopped;
      } else if now < skipRaceUntil {
        isLeader := false;
        pc := Watching;
      } else {
        pc := Granting(now);
      }
    }

    method LeaseGranted(lease: Lease, now: real)
      requires Valid() && pc.Granting?
      modifies this
      ensures Valid() && View() == OnGrant(old(View()), lease, now)
    {
      leaseId := Some(lease);
      pc := Creating(now);
    }

    method CreateAnswered(won: bool, now: real)
      requires Valid() && pc.Creating?
      modifies this
      ensures Valid() && (isLeader <==> won && !stopping) && View() == OnCreate(old(View()), won, now, cfg)
    {
      if won {
        isLeader := true;
        termStartedAt := Some(now);
        pc := Holding(now + cfg.interval);
        if stopping {
          GiveUp();
        }
      } else {
        isLeader := false;
        pc := Reading(now);
      }
    }

    /** The read after a lost race, up to the watch. */
    method LeaderRead()
      requires Valid() && pc.Reading?
      modifies this`pc
      ensures Valid() && pc.Watching?
    {
      pc := Watching;
    }

    /** `_await_leader_change` returns, or `run` has slept out its backoff. */
    method NextRound()
      requires Valid() && (pc.Watching? || pc.BackingOff?)
      modifies this`pc
      ensures Valid() && pc.Idle?
    {
      pc := Idle;
    }

    /** The sleep of `_hold_leadership` is over: the lease to keep alive. */
    method WakeUp(now: real) returns (ping: Lease)
      requires Valid() && pc.Holding?
      modifies this`pc
      ensures Valid() && leaseId == Some(ping) && View() == OnWake(old(View()), now)
    {
      pc := Renewing(now);
      ping := leaseId.value;
    }

    /** One turn of the `_hold_leadership` loop after the keepalive call; `alive`
        is a positive TTL. */
    method KeepaliveAnswered(alive: bool, now: real)
      requires Valid() && pc.Renewing?
      modifies this
      ensures Valid() && (isLeader <==> alive && !stopping) && View() == OnKeepalive(old(View()), alive, now, cfg)
    {
      if !alive {
        GiveUp();
      } else if stopping {
        GiveUp();
      } else {
        pc := Holding(now + cfg.interval);
      }
    }

    /** A call raised: the term ends, or the round backs off. */
    method CallFailed()
      requires Valid() && !pc.Holding?
      modifies this
      ensures Valid() && !isLeader && View() == OnFailure(old(View()))
    {
      if pc.Renewing? {
        GiveUp();
      } else {
        pc := BackingOff;
      }
    }

    /** The `finally` of the winning branch. */
    method GiveUp()
      modifies this
      ensures Valid() && !isLeader && View() == Release(old(View()))
    {
      isLeader := false;
      termStartedAt := None;
      pc := Idle;
    }

    /** `step_down` up to the revoke call; the flag stays up on purpose. */
    method StepDownRequest() returns (revoke: Option<Lease>)
      requires Valid()
      ensures revoke.Some? <==> isLeader
      ensures isLeader ==> revoke == leaseId
    {
      if !isLeader || leaseId.None? {
        return None;
      }
      return leaseId;
    }

    method StepDownRevoked(now: real, cooldown: real)
      requires Valid()
      modifies this`skipRaceUntil
      ensures Valid() && skipRaceUntil == now + cooldown
    {
      skipRaceUntil := now + cooldown;
    }

    method Shutdown() returns (revoke: Option<Lease>)
      requires Valid()
      modifies this`stopping
      ensures Valid() && stopping && revoke == leaseId
    {
      stopping := true;
      revoke := leaseId;
    }

    /** The task is cancelled at an await. */
    method Cancel()
      requires Valid()
      modifies this
      ensures Valid() && View() == Release(old(View())).(pc := Stopped)
    {
      GiveUp();
      pc := Stopped;
    }

    /** The method that belongs to one event of the protocol, if the event is this
        daemon's; what the object sends is what the protocol records. */
    method Handle(e: Event, now: real, ghost c: Cluster) returns (sent: Sent)
      requires Valid() && Fits(c) && Enabled(c, e, cfg) && now == c.now
      modifies this
      ensures Valid() && Fits(Apply(c, e, cfg))
      ensures Mover(e) == Some(name) || e == StepDown(name) ==>
        Apply(c, e, cfg).store == Receiving(c.store, sent, now)
    {
      sent := Nothing;
      if e == StepDown(name) {
        var revoke := StepDownRequest();
        sent := Revoke(revoke.value);
      } else if Mover(e) == Some(name) {
        match e
        case Cycle(_) => StartCycle(now);
        case GrantReply(_, l) =>
          LeaseGranted(l, now);
          sent := Create(l);
        case CreateReply(_, won) => CreateAnswered(won, now);
        case ReadReply(_) => LeaderRead();
        case SeesDelete(_) => NextRound();
        case Wake(_) =>
          var ping := WakeUp(now);
          sent := Ping(ping);
        case KeepaliveReply(_, alive) => KeepaliveAnswered(alive, now);
        case Fails(_) => CallFailed();
        case BackoffOver(_) => NextRound();
        case StepDownDone(_, cooldown) => StepDownRevoked(now, cooldown);
        case Stop(_) =>
          var revoke := Shutdown();
          if revoke.Some? { sent := Revoke(revoke.value); }
        case Cancelled(_) => Cancel();
      }
    }

    /** Driven through its methods by any run of the protocol among any number of
        daemons, an object that is not racing does not race before its cooldown is
        over, and the object is at every step the protocol's elector; so from a fresh
        cluster, whenever its flag is up, the lease it holds is its own: while that
        lease lives it holds the leader key, and once it has died the flag outlives it
        by at most the interval and two calls. */
    method Drive(start: Cluster, run: seq<Event>)
      requires Valid() && Fits(start) && Legal(start, run, cfg)
      modifies this
      ensures Valid() && Fits(After(start, run, cfg))
      ensures old(!Racing(pc)) && NoNewCooldown(run, name) && After(start, run, cfg).now < old(skipRaceUntil) ==>
        !Racing(pc) && !EverGranted(run, name) && (isLeader ==> old(isLeader))
      ensures Initial(start) && cfg.Valid() && isLeader ==>
        var c := After(start, run, cfg);
        && leaseId.Some?
        && (leaseId.value in c.store.live ==>
              c.store.key == leaseId && leaseId.value in c.store.owner && c.store.owner[leaseId.value] == name)
        && (leaseId.value !in c.store.live ==>
              && leaseId.value in c.store.diedAt
              && c.now <= c.store.diedAt[leaseId.value] + cfg.interval + 2.0 * cfg.rpc)
    {
      if !Racing(pc) && NoNewCooldown(run, name) && After(start, run, cfg).now < skipRaceUntil {
        CooldownHolds(start, run, cfg, name);
      }
      var now := start.now;
      ghost var c := start;
      var i := 0;
      while i < |run|
        invariant 0 <= i <= |run| && Valid() && Fits(c) && now == c.now
        invariant Legal(c, run[i..], cfg) && After(start, run, cfg) == After(c, run[i..], cfg)
      {
        var e := run[i];
        assert run[i..][0] == e && run[i..][1..] == run[i + 1..];
        var _ := Handle(e, now, c);
        c := Apply(c, e, cfg);
        if e.Tick? {
          now := now + e.dt;
        }
        i := i + 1;
      }
      assert run[|run|..] == [];
      if Initial(start) && cfg.Valid() {
        OneLiveLeader(start, run, cfg, name, name);
        StaleLeadershipIsBounded(start, run, cfg, name);
      }
    }
  }
}
