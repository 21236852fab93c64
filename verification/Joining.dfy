/** `POST /join` on the leader (daemon/joining.py): one request at a time under the
    join lock, interleaved with topology deletes, members starting and members
    being removed.  Every etcd write may be applied more than once while its call
    retries, may take effect and still report failure, and the request may end
    early at any await. */
module Joining {
  import opened Text
  import opened NodeNames

  type Ip = string

  predicate IsOctet(s: string) {
    1 <= |s| <= 3 && AllDigits(s) && Value(s) <= 255
  }

  /** `_is_valid_ipv4`. */
  predicate IsIpv4(s: string) {
    var parts := Split(s, IsDot);
    |parts| == 4 && forall i :: 0 <= i < 4 ==> IsOctet(parts[i])
  }

  lemma SplitFour(a: string, b: string, c: string, d: string, sep: char -> bool)
    requires Free(a, sep) && Free(b, sep) && Free(c, sep) && Free(d, sep) && sep('.')
    ensures Split(a + ['.'] + (b + ['.'] + (c + ['.'] + d)), sep) == [a, b, c, d]
  {
    SplitHead(a, '.', b + ['.'] + (c + ['.'] + d), sep);
    SplitHead(b, '.', c + ['.'] + d, sep);
    SplitHead(c, '.', d, sep);
    SplitFree(d, sep);
  }

  lemma DigitsHaveNoDot(s: string)
    requires AllDigits(s)
    ensures Free(s, IsDot)
  {
  }

  lemma FourOctets(s: string, parts: seq<string>)
    requires Split(s, IsDot) == parts && |parts| == 4
    ensures IsIpv4(s) <==> IsOctet(parts[0]) && IsOctet(parts[1]) && IsOctet(parts[2]) && IsOctet(parts[3])
  {
    if IsOctet(parts[0]) && IsOctet(parts[1]) && IsOctet(parts[2]) && IsOctet(parts[3]) {
      forall i | 0 <= i < 4 ensures IsOctet(parts[i]) {
        assert parts == [parts[0], parts[1], parts[2], parts[3]];
      }
    }
  }

  /** Four strings of digits are an IP if and only if each has one to three digits and is
      at most 255. */
  lemma Ipv4Exactly(a: string, b: string, c: string, d: string)
    requires AllDigits(a) && AllDigits(b) && AllDigits(c) && AllDigits(d)
    ensures IsIpv4(a + ['.'] + (b + ['.'] + (c + ['.'] + d))) <==>
      InOctet(a) && InOctet(b) && InOctet(c) && InOctet(d)
  {
    DigitsHaveNoDot(a);
    DigitsHaveNoDot(b);
    DigitsHaveNoDot(c);
    DigitsHaveNoDot(d);
    SplitFour(a, b, c, d, IsDot);
    FourOctets(a + ['.'] + (b + ['.'] + (c + ['.'] + d)), [a, b, c, d]);
  }

  ghost predicate InOctet(s: string)
    requires AllDigits(s)
  {
    1 <= |s| <= 3 && Value(s) <= 255
  }

  /** Where the request that holds the lock stands. */
  datatype Step =
    | Idle
    | AwaitingHealth(ip: Ip)
    | Healthy(ip: Ip)
    | Snapped(ip: Ip, snap: map<string, Ip>)
    | Writing(ip: Ip, name: string, snap: map<string, Ip>, tries: nat, wins: nat, reply: bool)
    | Adding(ip: Ip, name: string, applied: bool)
    | RollingBack(ip: Ip, name: string)

  datatype Outcome = Joined(name: string, ip: Ip, again: bool) | Refused(ip: Ip)

  /** `members` maps a Raft member to whether its etcd has started. */
  datatype World = World(topo: map<string, Ip>, members: map<Ip, bool>, step: Step, results: seq<Outcome>)

  datatype Event =
    | Request(ip: Ip)
    | SeesHealthy | HealthTimeout
    | Snapshots
    | Rejoins(name: string)
    | Allocates
    | EntryApplied | EntryAnswered
    | AddApplied | AddSucceeds | AddFails
    | RollbackApplied | RollbackEnds
    | Aborts
    | EntryDeleted(name: string)
    | MemberStarts(ip: Ip) | MemberRemoved(ip: Ip)

  ghost predicate Enabled(w: World, e: Event) {
    match e
    case Request(ip) => w.step.Idle? && IsIpv4(ip)
    case SeesHealthy => w.step.AwaitingHealth? && Unstarted(w.members) == {}
    case HealthTimeout => w.step.AwaitingHealth?
    case Snapshots => w.step.Healthy?
    case Rejoins(name) => w.step.Snapped? && name in w.step.snap && w.step.snap[name] == w.step.ip
    case Allocates => w.step.Snapped? && forall n :: n in w.step.snap ==> w.step.snap[n] != w.step.ip
    case EntryApplied => w.step.Writing?
    case EntryAnswered => w.step.Writing? && w.step.tries > 0
    case AddApplied => w.step.Adding?
    case AddSucceeds => w.step.Adding? && w.step.applied
    case AddFails => w.step.Adding?
    case RollbackApplied => w.step.RollingBack?
    case RollbackEnds => w.step.RollingBack?
    case Aborts => !w.step.Idle?
    case EntryDeleted(_) => true
    case MemberStarts(ip) => ip in w.members
    case MemberRemoved(_) => true
  }

  function Unstarted(members: map<Ip, bool>): set<Ip> {
    set ip | ip in members && !members[ip]
  }

  /** A member list came back, and every member on it has started. */
  ghost predicate ShowsHealthy(poll: Option<map<Ip, bool>>) {
    poll.Some? && forall ip :: ip in poll.value ==> poll.value[ip]
  }

  lemma HealthyIsNoneUnstarted(poll: Option<map<Ip, bool>>)
    ensures ShowsHealthy(poll) <==> poll.Some? && Unstarted(poll.value) == {}
  {
    if poll.Some? {
      assert forall ip :: ip in Unstarted(poll.value) <==> ip in poll.value && !poll.value[ip];
    }
  }

  /** `_wait_cluster_healthy` against what successive member-list calls return;
      None is a call that raised.  It succeeds exactly when some poll shows every
      member started, and stops at the first such poll. */
  method WaitClusterHealthy(polls: seq<Option<map<Ip, bool>>>) returns (ok: bool, used: nat)
    ensures used <= |polls|
    ensures ok <==> exists i :: 0 <= i < |polls| && ShowsHealthy(polls[i])
    ensures ok ==> used > 0 && ShowsHealthy(polls[used - 1])
    ensures forall i :: 0 <= i < used - 1 ==> !ShowsHealthy(polls[i])
  {
    forall i | 0 <= i < |polls| ensures ShowsHealthy(polls[i]) <==> polls[i].Some? && Unstarted(polls[i].value) == {} {
      HealthyIsNoneUnstarted(polls[i]);
    }
    used := 0;
    while used < |polls|
      invariant 0 <= used <= |polls|
      invariant forall i :: 0 <= i < used ==> polls[i].None? || Unstarted(polls[i].value) != {}
    {
      used := used + 1;
      if polls[used - 1].Some? {
        var unstarted := Unstarted(polls[used - 1].value);
        if unstarted == {} {
          return true, used;
        }
      }
    }
    ok := false;
  }

  function Finish(w: World, r: Outcome): World {
    w.(step := Idle, results := w.results + [r])
  }

  ghost function Apply(w: World, e: Event): World
    requires Enabled(w, e)
  {
    match e
    case Request(ip) => w.(step := AwaitingHealth(ip))
    case SeesHealthy => w.(step := Healthy(w.step.ip))
    case HealthTimeout => Finish(w, Refused(w.step.ip))
    case Snapshots => w.(step := Snapped(w.step.ip, w.topo))
    case Rejoins(name) => Finish(w, Joined(name, w.step.ip, true))
    case Allocates =>
      var name := NodeName(NextSuffix(w.step.snap.Keys));
      w.(step := Writing(w.step.ip, name, w.step.snap, 0, 0, false))
    case EntryApplied =>
      var s := w.step;
      if s.name in w.topo then w.(step := s.(tries := s.tries + 1, reply := false))
      else w.(topo := w.topo[s.name := s.ip],
              step := s.(tries := s.tries + 1, wins := s.wins + 1, reply := true))
    case EntryAnswered => w.(step := Adding(w.step.ip, w.step.name, false))
    case AddApplied =>
      if w.step.ip in w.members then w
      else w.(members := w.members[w.step.ip := false], step := w.step.(applied := true))
    case AddSucceeds => Finish(w, Joined(w.step.name, w.step.ip, false))
    case AddFails => w.(step := RollingBack(w.step.ip, w.step.name))
    case RollbackApplied => w.(topo := w.topo - {w.step.name})
    case RollbackEnds => Finish(w, Refused(w.step.ip))
    case Aborts => Finish(w, Refused(w.step.ip))
    case EntryDeleted(name) => w.(topo := w.topo - {name})
    case MemberStarts(ip) => w.(members := w.members[ip := true])
    case MemberRemoved(ip) => w.(members := w.members - {ip})
  }

  // ----- the invariant

  ghost predicate DistinctIps(topo: map<string, Ip>) {
    forall a, b :: a in topo && b in topo && topo[a] == topo[b] ==> a == b
  }

  ghost predicate Shrunk(topo: map<string, Ip>, snap: map<string, Ip>) {
    forall n :: n in topo ==> n in snap && topo[n] == snap[n]
  }

  ghost predicate TopologyOk(w: World) {
    && DistinctIps(w.topo)
    && match w.step
       case Snapped(_, snap) => Shrunk(w.topo, snap) && DistinctIps(snap)
       case Writing(ip, name, snap, tries, wins, reply) =>
         && DistinctIps(snap)
         && (forall n :: n in snap ==> snap[n] != ip)
         && name == NodeName(NextSuffix(snap.Keys)) && name !in snap
         && Shrunk(w.topo, snap[name := ip])
         && (tries == 0 ==> name !in w.topo)
         && (tries > 0 ==> wins > 0)
         && (tries > 0 && !reply ==> tries > 1)
       case Adding(ip, name, _) => name in w.topo ==> w.topo[name] == ip
       case RollingBack(ip, name) => name in w.topo ==> w.topo[name] == ip
       case _ => true
  }

  /** At most one member is unstarted, and which one it can be. */
  ghost predicate MembersOk(w: World) {
    match w.step
    case Idle => |Unstarted(w.members)| <= 1
    case AwaitingHealth(_) => |Unstarted(w.members)| <= 1
    case Adding(ip, _, _) => Unstarted(w.members) <= {ip}
    case RollingBack(ip, _) => Unstarted(w.members) <= {ip}
    case _ => Unstarted(w.members) == {}
  }

  lemma {:induction false} SetSizes<T>(a: set<T>, b: set<T>)
    requires a <= b
    ensures |a| <= |b|
  {
    if a != {} {
      var x :| x in a;
      SetSizes(a - {x}, b - {x});
    }
  }

  lemma AtMostOne(w: World)
    requires MembersOk(w)
    ensures |Unstarted(w.members)| <= 1
  {
    if w.step.Adding? || w.step.RollingBack? {
      SetSizes(Unstarted(w.members), {w.step.ip});
    }
  }

  lemma StepKeepsTopology(w: World, e: Event)
    requires TopologyOk(w) && Enabled(w, e)
    ensures TopologyOk(Apply(w, e))
  {
  }

  lemma StepKeepsMembers(w: World, e: Event)
    requires MembersOk(w) && Enabled(w, e)
    ensures MembersOk(Apply(w, e))
  {
    var w' := Apply(w, e);
    AtMostOne(w);
    if !e.AddApplied? {
      assert Unstarted(w'.members) <= Unstarted(w.members);
      SetSizes(Unstarted(w'.members), Unstarted(w.members));
    }
  }

  // ----- runs

  ghost predicate Legal(w: World, run: seq<Event>)
    decreases run
  {
    run == [] || (Enabled(w, run[0]) && Legal(Apply(w, run[0]), run[1..]))
  }

  ghost function After(w: World, run: seq<Event>): World
    requires Legal(w, run)
    decreases run
  {
    if run == [] then w else After(Apply(w, run[0]), run[1..])
  }

  ghost predicate Initial(w: World) {
    w.step.Idle? && DistinctIps(w.topo) && |Unstarted(w.members)| <= 1
  }

  lemma {:induction false} EveryRunKeeps(w: World, run: seq<Event>)
    requires TopologyOk(w) && MembersOk(w) && Legal(w, run)
    ensures TopologyOk(After(w, run)) && MembersOk(After(w, run))
    decreases run
  {
    if run != [] {
      StepKeepsTopology(w, run[0]);
      StepKeepsMembers(w, run[0]);
      EveryRunKeeps(Apply(w, run[0]), run[1..]);
    }
  }

  /** In every run no two names share an IP, and the entry a request writes and may
      roll back is never somebody else's: its name was free at the first attempt, so
      the create-if-absent whose false answer the code ignores did create it, and a
      false answer can only come from a repeated attempt. */
  lemma JoinsAreExclusive(w: World, run: seq<Event>)
    requires Initial(w) && Legal(w, run)
    ensures var m := After(w, run);
            && DistinctIps(m.topo)
            && (m.step.Writing? && m.step.tries == 0 ==> m.step.name !in m.topo)
            && (m.step.Writing? && m.step.tries > 0 ==> m.step.wins > 0 && (m.step.reply || m.step.tries > 1))
            && (m.step.Writing? || m.step.Adding? || m.step.RollingBack? ==>
                  m.step.name in m.topo ==> m.topo[m.step.name] == m.step.ip)
  {
    EveryRunKeeps(w, run);
  }

  /** Every allocated name carries the smallest suffix free at the snapshot, at most
      the number of peers plus one, and no peer present now uses it unless it is this
      very request's entry. */
  lemma AllocationIsTight(w: World, run: seq<Event>)
    requires Initial(w) && Legal(w, run) && After(w, run).step.Writing?
    ensures var s := After(w, run).step;
            exists n: nat :: IsNextSuffix(s.snap.Keys, n) && s.name == NodeName(n) && n <= |s.snap| + 1
  {
    EveryRunKeeps(w, run);
    var s := After(w, run).step;
    var n := NextSuffix(s.snap.Keys);
    assert IsNextSuffix(s.snap.Keys, n) && s.name == NodeName(n) && n <= |s.snap.Keys| + 1;
    assert |s.snap.Keys| == |s.snap|;
  }

  /** A re-join that has passed the health wait returns the one name registered for
      its IP, writes nothing and adds no member. */
  lemma RejoinIsIdempotent(w: World, run: seq<Event>, name: string)
    requires Initial(w) && Legal(w, run) && Enabled(After(w, run), Rejoins(name))
    ensures var m := After(w, run); var m' := Apply(m, Rejoins(name));
            && m'.results == m.results + [Joined(name, m.step.ip, true)]
            && m'.topo == m.topo && m'.members == m.members
            && (forall n :: n in m.topo && m.topo[n] == m.step.ip ==> n == name)
            && !Enabled(m, Allocates)
  {
    EveryRunKeeps(w, run);
  }

  /** Conversely, an IP that is registered at the snapshot can only re-join. */
  lemma RegisteredCannotAllocate(w: World, run: seq<Event>, name: string)
    requires Initial(w) && Legal(w, run) && After(w, run).step.Snapped?
    requires name in After(w, run).topo && After(w, run).topo[name] == After(w, run).step.ip
    ensures Enabled(After(w, run), Rejoins(name)) && !Enabled(After(w, run), Allocates)
    ensures forall n :: Enabled(After(w, run), Rejoins(n)) ==> n == name
  {
    EveryRunKeeps(w, run);
  }

  // ----- the answer

  /** The IP the last request of a run asked for, `asked` before it. */
  ghost function LastAsked(asked: Option<Ip>, run: seq<Event>): Option<Ip>
    decreases run
  {
    if run == [] then asked
    else LastAsked(if run[0].Request? then Some(run[0].ip) else asked, run[1..])
  }

  /** Whoever holds the lock is the last who asked. */
  lemma {:induction false} ServesTheAsker(w: World, run: seq<Event>, asked: Option<Ip>)
    requires Legal(w, run) && (!w.step.Idle? ==> asked == Some(w.step.ip))
    ensures !After(w, run).step.Idle? ==> LastAsked(asked, run) == Some(After(w, run).step.ip)
    decreases run
  {
    if run != [] {
      ServesTheAsker(Apply(w, run[0]), run[1..], if run[0].Request? then Some(run[0].ip) else asked);
    }
  }

  /** Every answer of every run goes to the IP that asked last. */
  lemma AnswersTheAsker(w: World, run: seq<Event>, e: Event)
    requires Initial(w) && Legal(w, run) && Enabled(After(w, run), e)
    ensures var m := After(w, run); var m' := Apply(m, e);
            m'.results == m.results
            || exists r :: m'.results == m.results + [r] && LastAsked(None, run) == Some(r.ip)
  {
    ServesTheAsker(w, run, None);
    var m, m' := After(w, run), Apply(After(w, run), e);
    if m'.results != m.results {
      var r := m'.results[|m'.results| - 1];
      assert m'.results == m.results + [r];
    }
  }

  ghost function Requests(run: seq<Event>): nat
    decreases run
  {
    if run == [] then 0 else (if run[0].Request? then 1 else 0) + Requests(run[1..])
  }

  ghost function Busy(w: World): nat {
    if w.step.Idle? then 0 else 1
  }

  /** In every run each request gets exactly one answer, whether it is served, refused or
      cut short; only the one under the lock is still waiting. */
  lemma {:induction false} OneAnswerEach(w: World, run: seq<Event>)
    requires Legal(w, run)
    ensures |After(w, run).results| + Busy(After(w, run)) == |w.results| + Busy(w) + Requests(run)
    decreases run
  {
    if run != [] {
      OneAnswerEach(Apply(w, run[0]), run[1..]);
    }
  }

  /** Nobody takes an entry or a member out. */
  ghost predicate NoRemovals(run: seq<Event>) {
    forall i :: 0 <= i < |run| ==> !run[i].EntryDeleted? && !run[i].MemberRemoved?
  }

  /** A joined answer says what is so: the entry is there, and after a fresh join the
      member too. */
  ghost predicate Stands(w: World, r: Outcome) {
    r.Joined? ==> r.name in w.topo && w.topo[r.name] == r.ip && (!r.again ==> r.ip in w.members)
  }

  /** The request under the lock works on another name. */
  ghost predicate Apart(step: Step, r: Outcome) {
    r.Joined? ==>
      && (step.Snapped? || step.Writing? ==> r.name in step.snap)
      && (step.Writing? || step.Adding? || step.RollingBack? ==> step.name != r.name)
  }

  ghost predicate AnswersStand(w: World) {
    forall i :: 0 <= i < |w.results| ==> Stands(w, w.results[i]) && Apart(w.step, w.results[i])
  }

  /** An applied add has its member, and a snapshot is the topology. */
  ghost predicate Added(w: World) {
    && (w.step.Adding? && w.step.applied ==> w.step.ip in w.members)
    && (w.step.Snapped? ==> w.step.snap == w.topo)
  }

  lemma StepKeepsAnswers(w: World, e: Event)
    requires TopologyOk(w) && Entered(w) && Added(w) && AnswersStand(w) && Enabled(w, e)
    requires !e.EntryDeleted? && !e.MemberRemoved?
    ensures AnswersStand(Apply(w, e))
  {
    var w' := Apply(w, e);
    forall i | 0 <= i < |w'.results| ensures Stands(w', w'.results[i]) && Apart(w'.step, w'.results[i]) {
      if i < |w.results| { assert w'.results[i] == w.results[i]; }
    }
  }

  lemma {:induction false} EveryRunKeepsAnswers(w: World, run: seq<Event>)
    requires TopologyOk(w) && Entered(w) && Added(w) && AnswersStand(w) && Legal(w, run) && NoRemovals(run)
    ensures AnswersStand(After(w, run))
    decreases run
  {
    if run != [] {
      StepKeepsTopology(w, run[0]);
      StepKeepsAnswers(w, run[0]);
      EveryRunKeepsAnswers(Apply(w, run[0]), run[1..]);
    }
  }

  /** In every run in which nobody takes entries or members out, every joined answer ever
      given still stands: its name holds its IP, and a fresh joiner is a member.  Later
      joins, failures and rollbacks never touch it. */
  lemma AnswersLast(w: World, run: seq<Event>, i: nat)
    requires Initial(w) && w.results == [] && Legal(w, run) && NoRemovals(run)
    requires i < |After(w, run).results|
    ensures Stands(After(w, run), After(w, run).results[i])
  {
    EveryRunKeepsAnswers(w, run);
  }

  /** What may happen between the rollback's delete and its end. */
  ghost predicate Meanwhile(mid: seq<Event>) {
    forall i :: 0 <= i < |mid| ==> mid[i].RollbackApplied? || mid[i].MemberStarts? || mid[i].MemberRemoved?
  }

  lemma {:induction false} StaysOut(w: World, mid: seq<Event>)
    requires w.step.RollingBack? && w.step.name !in w.topo && Legal(w, mid) && Meanwhile(mid)
    ensures var m := After(w, mid); m.step == w.step && m.topo == w.topo && m.results == w.results
    decreases mid
  {
    if mid != [] {
      StaysOut(Apply(w, mid[0]), mid[1..]);
    }
  }

  /** A failed member add whose rollback gets through takes out the entry it wrote and
      nothing else, and the request is refused. */
  lemma RollbackUndoes(w: World, mid: seq<Event>)
    requires Enabled(w, AddFails)
    requires var r := Apply(w, AddFails); Legal(Apply(r, RollbackApplied), mid) && Meanwhile(mid)
    ensures var m := After(Apply(Apply(w, AddFails), RollbackApplied), mid);
            && Enabled(m, RollbackEnds)
            && m.topo == w.topo - {w.step.name}
            && Apply(m, RollbackEnds) == m.(step := Idle, results := w.results + [Refused(w.step.ip)])
  {
    StaysOut(Apply(Apply(w, AddFails), RollbackApplied), mid);
  }

  ghost predicate NoDeletes(run: seq<Event>) {
    forall i :: 0 <= i < |run| ==> !run[i].EntryDeleted?
  }

  /** The entry a request has been told is written is there. */
  ghost predicate Entered(w: World) {
    && (w.step.Writing? && w.step.tries > 0 ==> w.step.name in w.topo)
    && (w.step.Adding? ==> w.step.name in w.topo)
  }

  lemma {:induction false} EveryRunKeepsEntered(w: World, run: seq<Event>)
    requires Entered(w) && Legal(w, run) && NoDeletes(run)
    ensures Entered(After(w, run))
    decreases run
  {
    if run != [] {
      EveryRunKeepsEntered(Apply(w, run[0]), run[1..]);
    }
  }

  /** A fresh join is answered with the name under which the topology now holds the IP that
      asked, unless somebody deleted the entry meanwhile. */
  lemma FreshJoinAnswers(w: World, run: seq<Event>)
    requires Initial(w) && Legal(w, run) && NoDeletes(run) && Enabled(After(w, run), AddSucceeds)
    ensures var m := After(w, run);
            exists name, ip ::
              && Apply(m, AddSucceeds).results == m.results + [Joined(name, ip, false)]
              && LastAsked(None, run) == Some(ip)
              && name in m.topo && m.topo[name] == ip
  {
    EveryRunKeeps(w, run);
    EveryRunKeepsEntered(w, run);
    ServesTheAsker(w, run, None);
    var m := After(w, run);
    assert Apply(m, AddSucceeds).results == m.results + [Joined(m.step.name, m.step.ip, false)];
  }

  // ----- quorum

  function Started(members: map<Ip, bool>): set<Ip> {
    set ip | ip in members && members[ip]
  }

  /** In every run the membership has at most one unstarted member, also when a
      member-add took effect and reported failure; so the started ones are a Raft
      majority exactly when there are at least three members or none is unstarted. */
  lemma StartedMembersAreAMajority(w: World, run: seq<Event>)
    requires Initial(w) && Legal(w, run)
    ensures var m := After(w, run).members;
            && |Unstarted(m)| <= 1
            && (m != map[] ==> (2 * |Started(m)| > |m| <==> |m| >= 3 || Unstarted(m) == {}))
  {
    EveryRunKeeps(w, run);
    AtMostOne(After(w, run));
    var m := After(w, run).members;
    assert m.Keys == Started(m) + Unstarted(m);
    assert |m.Keys| == |Started(m)| + |Unstarted(m)|;
    assert m != map[] ==> exists ip :: ip in m.Keys;
  }

  lemma {:induction false} Extend(w: World, run: seq<Event>, e: Event) returns (run': seq<Event>)
    requires Legal(w, run) && Enabled(After(w, run), e)
    ensures run' == run + [e] && Legal(w, run')
    ensures After(w, run') == Apply(After(w, run), e)
    decreases run
  {
    run' := run + [e];
    if run != [] {
      var rest := Extend(Apply(w, run[0]), run[1..], e);
      assert run'[1..] == rest;
    }
  }

  /** A cluster of one. */
  ghost function Solo(own: Ip): World {
    World(map["node-1" := own], map[own := true], Idle, [])
  }

  ghost predicate Newcomer(own: Ip, ip: Ip) {
    IsIpv4(ip) && ip != own
  }

  /** A request that finds every member started reads the topology. */
  lemma AsksAndReads(w: World, run: seq<Event>, ip: Ip) returns (run': seq<Event>)
    requires Legal(w, run) && IsIpv4(ip)
    requires var m := After(w, run); m.step.Idle? && Unstarted(m.members) == {}
    ensures Legal(w, run')
    ensures var m := After(w, run); After(w, run') == m.(step := Snapped(ip, m.topo))
  {
    run' := Extend(w, run, Request(ip));
    run' := Extend(w, run', SeesHealthy);
    run' := Extend(w, run', Snapshots);
  }

  lemma Writes(w: World, run: seq<Event>) returns (run': seq<Event>)
    requires Legal(w, run)
    requires var m := After(w, run); m.step.Writing? && m.step.name !in m.topo
    ensures Legal(w, run')
    ensures var m := After(w, run); var s := m.step;
            After(w, run') == m.(topo := m.topo[s.name := s.ip],
                                 step := s.(tries := s.tries + 1, wins := s.wins + 1, reply := true))
  {
    run' := Extend(w, run, EntryApplied);
  }

  lemma Picks(w: World, run: seq<Event>) returns (run': seq<Event>, name: string)
    requires Legal(w, run)
    requires var m := After(w, run); m.step.Snapped? && Enabled(m, Allocates)
    ensures Legal(w, run') && name !in After(w, run).step.snap
    ensures name == NodeName(NextSuffix(After(w, run).step.snap.Keys))
    ensures var m := After(w, run);
            After(w, run') == m.(step := Writing(m.step.ip, name, m.step.snap, 0, 0, false))
  {
    name := FreeName(After(w, run).step.snap);
    run' := Extend(w, run, Allocates);
  }

  lemma FreeName(snap: map<string, Ip>) returns (name: string)
    ensures name == NodeName(NextSuffix(snap.Keys)) && name !in snap
  {
    name := NodeName(NextSuffix(snap.Keys));
  }

  /** A second node asks to join, up to its topology entry. */
  lemma WritesEntry(own: Ip, ip: Ip) returns (run: seq<Event>, name: string)
    requires Newcomer(own, ip)
    ensures Initial(Solo(own)) && Legal(Solo(own), run) && name != "node-1"
    ensures After(Solo(own), run) == World(map["node-1" := own, name := ip], map[own := true],
                                           Writing(ip, name, map["node-1" := own], 1, 1, true), [])
  {
    var w := Solo(own);
    assert Unstarted(w.members) == {};
    run := AsksAndReads(w, [], ip);
    run, name := Picks(w, run);
    run := Writes(w, run);
    assert w.topo[name := ip] == map["node-1" := own, name := ip];
  }

  /** ... and up to its member-add. */
  lemma AddsMember(own: Ip, ip: Ip) returns (run: seq<Event>, name: string)
    requires Newcomer(own, ip)
    ensures Legal(Solo(own), run) && name != "node-1"
    ensures After(Solo(own), run) == World(map["node-1" := own, name := ip], map[own := true, ip := false],
                                           Adding(ip, name, true), [])
  {
    run, name := WritesEntry(own, ip);
    run := Extend(Solo(own), run, EntryAnswered);
    run := Extend(Solo(own), run, AddApplied);
  }

  /** Growing from one to two members leaves no majority until the joiner's etcd
      connects. */
  lemma GrowingFromOneLosesQuorum(own: Ip, ip: Ip) returns (run: seq<Event>)
    requires Newcomer(own, ip)
    ensures Initial(Solo(own)) && Legal(Solo(own), run)
    ensures var m := After(Solo(own), run).members; |m| == 2 && 2 * |Started(m)| <= |m|
  {
    assert Unstarted(Solo(own).members) == {};
    var name;
    run, name := AddsMember(own, ip);
    var m := After(Solo(own), run).members;
    assert Unstarted(m) == {ip} && m.Keys == {own, ip};
    StartedMembersAreAMajority(Solo(own), run);
  }

  /** Left alone, a request for an IP that is neither registered nor a member goes
      through: it gets the smallest free name, and its entry and its unstarted member are
      the only changes. */
  lemma FreshJoinCompletes(w: World, ip: Ip) returns (run: seq<Event>, n: nat)
    requires w.step.Idle? && IsIpv4(ip) && Unstarted(w.members) == {} && ip !in w.members
    requires forall k :: k in w.topo ==> w.topo[k] != ip
    ensures Legal(w, run) && IsNextSuffix(w.topo.Keys, n) && NodeName(n) !in w.topo
    ensures After(w, run) == World(w.topo[NodeName(n) := ip], w.members[ip := false], Idle,
                                   w.results + [Joined(NodeName(n), ip, false)])
  {
    var name;
    n := NextSuffix(w.topo.Keys);
    run := AsksAndReads(w, [], ip);
    run, name := Picks(w, run);
    assert name == NodeName(n);
    run := Writes(w, run);
    run := Extend(w, run, EntryAnswered);
    run := Extend(w, run, AddApplied);
    run := Extend(w, run, AddSucceeds);
  }

  /** An IP that is a member when its add begins cannot be answered as a fresh join. */
  lemma {:induction false} MemberIsNotAdded(w: World, run: seq<Event>)
    requires w.step.Adding? && !w.step.applied && w.step.ip in w.members && Legal(w, run)
    requires forall i :: 0 <= i < |run| ==> run[i].EntryDeleted? || run[i].AddApplied? || run[i].MemberStarts?
    ensures !Enabled(After(w, run), AddSucceeds) && After(w, run).members.Keys == w.members.Keys
    decreases run
  {
    if run != [] {
      MemberIsNotAdded(Apply(w, run[0]), run[1..]);
    }
  }

  /** Unless somebody deletes the entry, exactly the first create-if-absent of a request
      creates it and is the only one that can be answered with yes. */
  ghost predicate CreatedOnce(w: World) {
    w.step.Writing? && w.step.tries > 0 ==>
      w.step.name in w.topo && w.step.wins == 1 && (w.step.reply <==> w.step.tries == 1)
  }

  lemma {:induction false} FirstAttemptCreates(w: World, run: seq<Event>)
    requires TopologyOk(w) && CreatedOnce(w) && Fresh(w) && Legal(w, run) && NoDeletes(run)
    ensures CreatedOnce(After(w, run))
    decreases run
  {
    if run != [] {
      StepKeepsTopology(w, run[0]);
      FirstAttemptCreates(Apply(w, run[0]), run[1..]);
    }
  }

  ghost predicate Fresh(w: World) {
    w.step.Writing? && w.step.tries == 0 ==> w.step.wins == 0
  }

  /** While a member has not started, a request can only be refused, and it leaves no
      trace. */
  lemma UnhealthyIsRefused(w: World, ip: Ip)
    requires w.step.Idle? && IsIpv4(ip) && exists m :: m in w.members && !w.members[m]
    ensures Enabled(w, Request(ip)) && !Enabled(Apply(w, Request(ip)), SeesHealthy)
    ensures Enabled(Apply(w, Request(ip)), HealthTimeout)
    ensures Apply(Apply(w, Request(ip)), HealthTimeout) == w.(results := w.results + [Refused(ip)])
  {
    var m :| m in w.members && !w.members[m];
    assert m in Unstarted(w.members);
  }

  /** A member-add whose reply is lost is rolled back too: the member stays without an
      entry, and the request is refused. */
  lemma RefusedMemberStays(own: Ip, ip: Ip) returns (run: seq<Event>)
    requires Newcomer(own, ip)
    ensures Initial(Solo(own)) && Legal(Solo(own), run)
    ensures var m := After(Solo(own), run);
            && m.step.Idle? && m.results == [Refused(ip)]
            && ip in m.members && forall n :: n in m.topo ==> m.topo[n] != ip
  {
    assert Unstarted(Solo(own).members) == {};
    var name;
    run, name := AddsMember(own, ip);
    run := Extend(Solo(own), run, AddFails);
    run := Extend(Solo(own), run, RollbackApplied);
    run := Extend(Solo(own), run, RollbackEnds);
  }

  // ----- when a topology entry means membership

  /** The entry of the request in progress, before its member-add is known to have
      taken effect. */
  ghost predicate InFlight(w: World, n: string) {
    && (w.step.Writing? || w.step.Adding? || w.step.RollingBack?) && w.step.name == n
    && !(w.step.Adding? && w.step.applied)
  }

  /** Every entry but the one in flight belongs to a member, and so does the entry a
      request has found for its own IP. */
  ghost predicate Backed(w: World) {
    && (forall n :: n in w.topo && !InFlight(w, n) ==> w.topo[n] in w.members)
    && (w.step.Snapped? && w.step.ip in w.step.snap.Values ==> w.step.ip in w.members)
  }

  /** The events that break this: a request that ends, or gives up its rollback, while
      its entry stands and its IP is no member; and the removal of a member whose entry
      stands, or has just been read by that member's own request. */
  ghost predicate Strands(w: World, e: Event) {
    match e
    case Aborts => LeavesEntry(w)
    case RollbackEnds => LeavesEntry(w)
    case MemberRemoved(ip) =>
      || (exists n :: n in w.topo && !InFlight(w, n) && w.topo[n] == ip)
      || (w.step.Snapped? && w.step.ip == ip && ip in w.step.snap.Values)
    case _ => false
  }

  ghost predicate LeavesEntry(w: World) {
    && (w.step.Writing? || w.step.Adding? || w.step.RollingBack?)
    && w.step.name in w.topo && w.topo[w.step.name] !in w.members
  }

  lemma EndingStrands(w: World, e: Event)
    requires Backed(w) && Enabled(w, e) && (e.Aborts? || e.RollbackEnds?)
    ensures Backed(Apply(w, e)) <==> !Strands(w, e)
  {
    var w' := Apply(w, e);
    if LeavesEntry(w) {
      assert !InFlight(w', w.step.name);
    } else {
      forall n | n in w'.topo && !InFlight(w', n) ensures w'.topo[n] in w'.members {
        assert InFlight(w, n) ==> n == w.step.name;
      }
    }
  }

  lemma RemovalStrands(w: World, e: Event)
    requires Backed(w) && Enabled(w, e) && e.MemberRemoved?
    ensures Backed(Apply(w, e)) <==> !Strands(w, e)
  {
    var w' := Apply(w, e);
    assert forall n :: InFlight(w', n) <==> InFlight(w, n);
    assert w'.topo == w.topo && w'.members.Keys == w.members.Keys - {e.ip};
    if n :| n in w.topo && !InFlight(w, n) && w.topo[n] == e.ip {
      assert n in w'.topo && !InFlight(w', n) && w'.topo[n] !in w'.members;
    }
  }

  lemma OtherEventsKeepBacked(w: World, e: Event)
    requires TopologyOk(w) && Backed(w) && Enabled(w, e)
    requires !e.Aborts? && !e.RollbackEnds? && !e.MemberRemoved?
    ensures Backed(Apply(w, e))
  {
    var w' := Apply(w, e);
    assert w.members.Keys <= w'.members.Keys;
    forall n | n in w'.topo && !InFlight(w', n) ensures w'.topo[n] in w'.members {
      if n in w.topo && !InFlight(w, n) { assert w.topo[n] in w.members; }
    }
  }

  /** No event of the run strands an entry when it happens. */
  ghost predicate Careful(w: World, run: seq<Event>)
    requires Legal(w, run)
    decreases run
  {
    run == [] || (!Strands(w, run[0]) && Careful(Apply(w, run[0]), run[1..]))
  }

  ghost predicate BackedThroughout(w: World, run: seq<Event>)
    requires Legal(w, run)
    decreases run
  {
    Backed(w) && (run == [] || BackedThroughout(Apply(w, run[0]), run[1..]))
  }

  lemma StepKeepsBackedExactly(w: World, e: Event)
    requires TopologyOk(w) && Backed(w) && Enabled(w, e)
    ensures Backed(Apply(w, e)) <==> !Strands(w, e)
  {
    if e.Aborts? || e.RollbackEnds? {
      EndingStrands(w, e);
    } else if e.MemberRemoved? {
      RemovalStrands(w, e);
    } else {
      OtherEventsKeepBacked(w, e);
    }
  }

  lemma {:induction false} CarefulMeansBacked(w: World, run: seq<Event>)
    requires TopologyOk(w) && Backed(w) && Legal(w, run)
    ensures BackedThroughout(w, run) <==> Careful(w, run)
    ensures Careful(w, run) ==> Backed(After(w, run))
    decreases run
  {
    if run != [] {
      StepKeepsBackedExactly(w, run[0]);
      StepKeepsTopology(w, run[0]);
      if !Strands(w, run[0]) {
        CarefulMeansBacked(Apply(w, run[0]), run[1..]);
      } else {
        assert !BackedThroughout(Apply(w, run[0]), run[1..]);
      }
    }
  }

  /** From a world whose topology IPs are all members: every entry but the one in flight
      belongs to a member throughout a run if and only if no event of the run strands an
      entry; and then every re-join answers a member. */
  lemma EntriesMeanMembershipExactly(w: World, run: seq<Event>)
    requires Initial(w) && Backed(w) && Legal(w, run)
    ensures BackedThroughout(w, run) <==> Careful(w, run)
    ensures Careful(w, run) ==>
      var m := After(w, run); forall name :: Enabled(m, Rejoins(name)) ==> m.step.ip in m.members
  {
    CarefulMeansBacked(w, run);
    var m := After(w, run);
    if Careful(w, run) {
      forall name | Enabled(m, Rejoins(name)) ensures m.step.ip in m.members {
        assert m.step.snap[name] in m.step.snap.Values;
      }
    }
  }

  /** Whatever is going on, it can be cut short and every member can start. */
  lemma SettlesDown(w: World, run: seq<Event>) returns (run': seq<Event>)
    requires Initial(w) && Legal(w, run)
    ensures Legal(w, run')
    ensures var m := After(w, run); var m' := After(w, run');
            && m'.step.Idle? && m'.topo == m.topo && m'.members.Keys == m.members.Keys && Unstarted(m'.members) == {}
  {
    run' := run;
    if !After(w, run).step.Idle? {
      run' := Extend(w, run, Aborts);
    }
    EveryRunKeeps(w, run');
    var m := After(w, run').members;
    if Unstarted(m) != {} {
      var x :| x in Unstarted(m);
      LastOneStarts(m, x);
      run' := Extend(w, run', MemberStarts(x));
    }
  }

  lemma LastOneStarts(m: map<Ip, bool>, x: Ip)
    requires x in Unstarted(m) && |Unstarted(m)| <= 1
    ensures Unstarted(m[x := true]) == {}
  {
    assert |Unstarted(m) - {x}| == 0;
    assert Unstarted(m[x := true]) == Unstarted(m) - {x};
  }

  /** An entry whose IP is no member is answered as a re-join of that IP, sooner or
      later, in some continuation of every run that has come to it. */
  lemma StrayEntryIsAnswered(w: World, run: seq<Event>, name: string) returns (run': seq<Event>)
    requires Initial(w) && Legal(w, run)
    requires var m := After(w, run); name in m.topo && IsIpv4(m.topo[name]) && m.topo[name] !in m.members
    ensures Legal(w, run')
    ensures var m := After(w, run); var m' := After(w, run');
            Joined(name, m.topo[name], true) in m'.results && m.topo[name] !in m'.members
  {
    var ip := After(w, run).topo[name];
    run' := SettlesDown(w, run);
    run' := AsksAndReads(w, run', ip);
    run' := Extend(w, run', Rejoins(name));
    var rs := After(w, run').results;
    assert rs[|rs| - 1] == Joined(name, ip, true);
  }

  /** Each way to strand an entry is reached from a cluster of one: a request cut short
      after writing its entry, ... */
  lemma AbortStrands(own: Ip, ip: Ip) returns (run: seq<Event>, name: string)
    requires Newcomer(own, ip)
    ensures Initial(Solo(own)) && Legal(Solo(own), run)
    ensures var m := After(Solo(own), run); name in m.topo && m.topo[name] == ip && ip !in m.members
  {
    run, name := WritesEntry(own, ip);
    run := Extend(Solo(own), run, Aborts);
  }

  /** ... a failed member-add whose rollback fails too, ... */
  lemma FailedRollbackStrands(own: Ip, ip: Ip) returns (run: seq<Event>, name: string)
    requires Newcomer(own, ip)
    ensures Initial(Solo(own)) && Legal(Solo(own), run)
    ensures var m := After(Solo(own), run); name in m.topo && m.topo[name] == ip && ip !in m.members
  {
    run, name := WritesEntry(own, ip);
    run := Extend(Solo(own), run, EntryAnswered);
    run := Extend(Solo(own), run, AddFails);
    run := Extend(Solo(own), run, RollbackEnds);
  }

  /** ... and a member removed while its entry stands. */
  lemma RemovedMemberStrands(own: Ip, ip: Ip) returns (run: seq<Event>, name: string)
    requires Newcomer(own, ip)
    ensures Initial(Solo(own)) && Legal(Solo(own), run)
    ensures var m := After(Solo(own), run); name in m.topo && m.topo[name] == ip && ip !in m.members
  {
    assert Unstarted(Solo(own).members) == {};
    run, name := AddsMember(own, ip);
    run := Extend(Solo(own), run, AddSucceeds);
    run := Extend(Solo(own), run, MemberRemoved(ip));
  }

  /** The first of these, played to the end: the interrupted join is answered as a
      re-join, and the IP is not a member. */
  lemma StrayEntryRejoinsWithoutMember(own: Ip, ip: Ip) returns (run: seq<Event>, name: string)
    requires Newcomer(own, ip)
    ensures Initial(Solo(own)) && Legal(Solo(own), run)
    ensures var m := After(Solo(own), run); Joined(name, ip, true) in m.results && ip !in m.members
  {
    run, name := AbortStrands(own, ip);
    run := StrayEntryIsAnswered(Solo(own), run, name);
  }

  /** Even with its entry gone first, a member removed between its own request's
      snapshot and answer is told it is one. */
  lemma RemovedWhileAsking(own: Ip) returns (run: seq<Event>)
    requires IsIpv4(own)
    ensures Initial(Solo(own)) && Legal(Solo(own), run)
    ensures var m := After(Solo(own), run);
            m.topo == map[] && own !in m.members && m.results == [Joined("node-1", own, true)]
  {
    var w := Solo(own);
    assert Unstarted(w.members) == {};
    run := AsksAndReads(w, [], own);
    run := Extend(w, run, EntryDeleted("node-1"));
    run := Extend(w, run, MemberRemoved(own));
    run := Extend(w, run, Rejoins("node-1"));
  }
}
