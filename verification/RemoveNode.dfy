/** The remove-node job (daemon/workers/remove_node.py): its guards, the wait for the
    MinIO pool to drain, and the order of its effects. */
module RemoveNode {
  import opened Text
  import opened PulsarDeploy
  import opened Role
  import Joining

  // ----- guards

  datatype Leader = Leader(name: string, ip: string)

  datatype Request = Request(
    peers: seq<(string, string)>, targetIp: string, isLeader: bool, mqType: string, tag: string,
    pulsarHost: string, leaderKey: Option<Leader>)

  function FindByIp(peers: seq<(string, string)>, ip: string): (r: Option<string>)
    ensures r.Some? ==> (r.value, ip) in peers
    ensures r.None? ==> forall i :: 0 <= i < |peers| ==> peers[i].1 != ip
  {
    if peers == [] then None
    else if peers[0].1 == ip then Some(peers[0].0)
    else FindByIp(peers[1..], ip)
  }

  /** No guard speaks against removing this name. */
  ghost predicate MayRemove(q: Request, name: string) {
    && q.targetIp != "" && |q.peers| > 1 && q.isLeader
    && (WorkerSaysPulsar(q.mqType, q.tag) ==> name != q.pulsarHost)
    && (q.leaderKey.Some? ==> name != q.leaderKey.value.name && q.targetIp != q.leaderKey.value.ip)
  }

  /** The name to remove, or None when a guard refuses: a listed peer with the IP that
      may be removed, and a refusal only when some such peer may not, or there is
      none. */
  function Admit(q: Request): (r: Option<string>)
    ensures r.Some? ==> (r.value, q.targetIp) in q.peers && MayRemove(q, r.value)
    ensures r.None? ==>
      || (forall i :: 0 <= i < |q.peers| ==> q.peers[i].1 != q.targetIp)
      || exists i :: 0 <= i < |q.peers| && q.peers[i].1 == q.targetIp && !MayRemove(q, q.peers[i].0)
  {
    if q.targetIp == "" then None
    else match FindByIp(q.peers, q.targetIp)
         case None => None
         case Some(name) =>
           assert exists i :: 0 <= i < |q.peers| && q.peers[i] == (name, q.targetIp);
           if |q.peers| <= 1 || !q.isLeader then None
           else if WorkerSaysPulsar(q.mqType, q.tag) && name == q.pulsarHost then None
           else if q.leaderKey.Some? && (q.leaderKey.value.ip == q.targetIp || q.leaderKey.value.name == name) then None
           else Some(name)
  }

  /** Where one name has the IP, the request is admitted under it exactly on a leader with
      more than one peer whose target is neither the host of a Pulsar deploy nor the
      leader, by name or by IP; a missing leader key refuses nothing. */
  lemma AdmitsExactly(q: Request, name: string)
    requires (name, q.targetIp) in q.peers && forall p :: p in q.peers && p.1 == q.targetIp ==> p.0 == name
    ensures Admit(q) == Some(name) <==>
      && q.targetIp != "" && q.isLeader && |q.peers| >= 2
      && !(WorkerSaysPulsar(q.mqType, q.tag) && q.pulsarHost == name)
      && (q.leaderKey == None || (q.leaderKey.value.name != name && q.leaderKey.value.ip != q.targetIp))
    ensures Admit(q) == Some(name) || Admit(q) == None
  {
    assert FindByIp(q.peers, q.targetIp) == Some(name);
  }

  // ----- the pool

  /** A row of mc's status list; the pool's command line is the URL built from its IP. */
  datatype Pool = Pool(ip: string, complete: bool, failed: bool, canceled: bool, started: bool)

  /** The leaving peer's address and MinIO port. */
  datatype Target = Target(ip: string, port: string)

  function PoolUrl(ip: string, port: string): string {
    "http://" + ip + ":" + port + "/drive{1...4}"
  }

  function Fragment(t: Target): string {
    t.ip + ":" + t.port + "/drive"
  }

  predicate Matches(p: Pool, t: Target) {
    Contains(PoolUrl(p.ip, t.port), Fragment(t))
  }

  predicate IsPort(port: string) {
    port != "" && AllDigits(port)
  }

  predicate DigitsAndDots(s: string) {
    s != "" && forall i :: 0 <= i < |s| ==> IsDigit(s[i]) || s[i] == '.'
  }

  /** The only colons of a pool's URL. */
  lemma NoOtherColon(ip: string, port: string, j: nat)
    requires DigitsAndDots(ip) && IsPort(port) && j < |PoolUrl(ip, port)| && j != 4 && j != 7 + |ip|
    ensures PoolUrl(ip, port)[j] != ':'
  {
    var url := PoolUrl(ip, port);
    if 7 <= j < 7 + |ip| {
      assert url[j] == ip[j - 7];
    } else if 8 + |ip| <= j < 8 + |ip| + |port| {
      assert url[j] == port[j - 8 - |ip|];
    } else if j >= 8 + |ip| + |port| {
      assert url[j] == "/drive{1...4}"[j - 8 - |ip| - |port|];
    }
  }

  /** The fragment occurs nowhere but where its IP ends with the URL's. */
  lemma NoOtherMatch(ip: string, t: Target, i: nat)
    requires DigitsAndDots(ip) && DigitsAndDots(t.ip) && IsPort(t.port) && i + |Fragment(t)| <= |PoolUrl(ip, t.port)|
    requires i + |t.ip| != 7 + |ip| || i < 7
    ensures PoolUrl(ip, t.port)[i..i + |Fragment(t)|] != Fragment(t)
  {
    var url, f, n := PoolUrl(ip, t.port), Fragment(t), |t.ip|;
    var here := url[i..i + |f|];
    assert f[n] == ':' && here[n] == url[i + n];
    if i + n == 4 {
      assert f[n + 1] == t.port[0] && here[n + 1] == url[5] == '/';
    } else if i + n == 7 + |ip| {
      assert f[6 - i] == t.ip[6 - i] && here[6 - i] == url[6] == '/';
    } else {
      NoOtherColon(ip, t.port, i + n);
    }
  }

  /** There it does. */
  lemma MatchAt(ip: string, t: Target, i: nat)
    requires i >= 7 && i + |t.ip| == 7 + |ip|
    ensures i + |Fragment(t)| <= |PoolUrl(ip, t.port)|
    ensures PoolUrl(ip, t.port)[i..i + |Fragment(t)|] == Fragment(t) <==> ip[i - 7..] == t.ip
  {
    var url, f := PoolUrl(ip, t.port), Fragment(t);
    var tail := ":" + t.port + "/drive";
    assert url == "http://" + ip + tail + "{1...4}" && f == t.ip + tail;
    var here := url[i..i + |f|];
    assert here == ip[i - 7..] + tail;
    assert here[..|t.ip|] == ip[i - 7..] && f[..|t.ip|] == t.ip;
  }

  /** The substring match finds exactly the pools whose IP ends in the target's. */
  lemma MatchesExactly(p: Pool, t: Target)
    requires Joining.IsIpv4(p.ip) && Joining.IsIpv4(t.ip) && IsPort(t.port)
    ensures Matches(p, t) <==> EndsWith(p.ip, t.ip)
  {
    Ipv4IsDigitsAndDots(p.ip);
    Ipv4IsDigitsAndDots(t.ip);
    SubstringIsSuffix(p.ip, t);
  }

  lemma SubstringIsSuffix(ip: string, t: Target)
    requires DigitsAndDots(ip) && DigitsAndDots(t.ip) && IsPort(t.port)
    ensures Contains(PoolUrl(ip, t.port), Fragment(t)) <==> EndsWith(ip, t.ip)
  {
    var url, f := PoolUrl(ip, t.port), Fragment(t);
    if Contains(url, f) {
      var i := ContainsSomewhere(url, f);
      if i + |t.ip| == 7 + |ip| && i >= 7 {
        MatchAt(ip, t, i);
      } else {
        NoOtherMatch(ip, t, i);
      }
    }
    if EndsWith(ip, t.ip) {
      var i := 7 + |ip| - |t.ip|;
      MatchAt(ip, t, i);
      ContainedAt(url, f, i);
    }
  }

  function FirstBy(pools: seq<Pool>, p: Pool -> bool): Option<Pool> {
    if pools == [] then None else if p(pools[0]) then Some(pools[0]) else FirstBy(pools[1..], p)
  }

  /** The first row that matches. */
  function FirstTarget(pools: seq<Pool>, t: Target): Option<Pool> {
    FirstBy(pools, (p: Pool) => Matches(p, t))
  }

  /** A listing of peers' pools, one each. */
  ghost predicate PeerPools(pools: seq<Pool>, t: Target) {
    && Joining.IsIpv4(t.ip) && IsPort(t.port)
    && (forall i :: 0 <= i < |pools| ==> Joining.IsIpv4(pools[i].ip))
    && (forall i, j :: 0 <= i < j < |pools| ==> pools[i].ip != pools[j].ip)
  }

  lemma {:induction false} FirstIs(pools: seq<Pool>, p: Pool -> bool, i: nat)
    requires i < |pools| && p(pools[i]) && forall j :: 0 <= j < i ==> !p(pools[j])
    ensures FirstBy(pools, p) == Some(pools[i])
    decreases i
  {
    if i > 0 { FirstIs(pools[1..], p, i - 1); }
  }

  lemma {:induction false} FirstIsNone(pools: seq<Pool>, p: Pool -> bool)
    requires forall j :: 0 <= j < |pools| ==> !p(pools[j])
    ensures FirstBy(pools, p) == None
  {
    if pools != [] { FirstIsNone(pools[1..], p); }
  }

  lemma SelfMatch(ip: string)
    ensures EndsWith(ip, ip)
  {
  }

  /** Which pools have an IP that ends in the target's. */
  function Suffixed(pools: seq<Pool>, t: Target): (bs: seq<bool>)
    ensures |bs| == |pools| && forall j :: 0 <= j < |pools| ==> bs[j] == EndsWith(pools[j].ip, t.ip)
  {
    seq(|pools|, j requires 0 <= j < |pools| => EndsWith(pools[j].ip, t.ip))
  }

  /** The match picks the target's own pool if and only if no pool listed before it has an
      IP that ends in the target's. */
  lemma MatchPicksOwnExactly(pools: seq<Pool>, t: Target, i: nat)
    requires PeerPools(pools, t) && i < |pools| && pools[i].ip == t.ip
    ensures FirstTarget(pools, t) == Some(pools[i]) <==> forall j :: 0 <= j < i ==> !EndsWith(pools[j].ip, t.ip)
  {
    var bs := Suffixed(pools, t);
    forall j | 0 <= j < |pools| ensures bs[j] == Matches(pools[j], t) {
      MatchesExactly(pools[j], t);
    }
    SelfMatch(t.ip);
    PickFirst(pools, (p: Pool) => Matches(p, t), bs, i);
  }

  lemma PickFirst(pools: seq<Pool>, p: Pool -> bool, bs: seq<bool>, i: nat)
    requires |bs| == |pools| && i < |pools| && bs[i] && forall j :: 0 <= j < |pools| ==> bs[j] == p(pools[j])
    requires forall j :: 0 <= j < i ==> pools[j] != pools[i]
    ensures FirstBy(pools, p) == Some(pools[i]) <==> forall j :: 0 <= j < i ==> !bs[j]
  {
    if exists j :: 0 <= j < i && bs[j] {
      var j := FirstTrue(bs, i);
      FirstIs(pools, p, j);
    } else {
      FirstIs(pools, p, i);
    }
  }

  lemma {:induction false} FirstTrue(bs: seq<bool>, i: nat) returns (j: nat)
    requires i <= |bs| && exists j :: 0 <= j < i && bs[j]
    ensures j < i && bs[j] && forall m :: 0 <= m < j ==> !bs[m]
    decreases i
  {
    if exists j :: 0 <= j < i - 1 && bs[j] {
      j := FirstTrue(bs, i - 1);
    } else {
      j := i - 1;
    }
  }

  // ----- the drain

  /** What `mc admin decommission status --json` came back with. */
  datatype McStatus =
    | NoneEver             // non-zero exit, "no decommission"
    | NotJson
    | NotAList             // mc's own error object
    | Listing(pools: seq<Pool>)

  datatype PoolState = NotStarted | Active | Complete | Failing | Canceled | Missing

  function StateOf(p: Pool): PoolState {
    if p.complete then Complete else if p.failed then Failing else if p.canceled then Canceled
    else if p.started then Active else NotStarted
  }

  /** `_decommission_state`. */
  function DecommissionState(s: McStatus, t: Target): PoolState {
    match s
    case NoneEver => NotStarted
    case NotJson => Missing
    case NotAList => Missing
    case Listing(pools) =>
      match FirstTarget(pools, t)
      case None => Missing
      case Some(p) => StateOf(p)
  }

  // ----- what a reply says, in mc's words

  /** No other peer's pool answers to the target's name. */
  ghost predicate Unambiguous(s: McStatus, t: Target) {
    s.Listing? ==>
      PeerPools(s.pools, t) && forall i :: 0 <= i < |s.pools| && EndsWith(s.pools[i].ip, t.ip) ==> s.pools[i].ip == t.ip
  }

  /** mc lists the target's own pool as complete. */
  ghost predicate ListsComplete(s: McStatus, t: Target) {
    s.Listing? && exists i :: 0 <= i < |s.pools| && s.pools[i].ip == t.ip && s.pools[i].complete
  }

  ghost predicate Draining(p: Pool) {
    p.started && !p.complete && !p.failed && !p.canceled
  }

  ghost predicate Stopped(p: Pool) {
    !p.complete && (p.failed || p.canceled || !p.started)
  }

  /** It lists it as started and not ended in any way. */
  ghost predicate ListsDraining(s: McStatus, t: Target) {
    s.Listing? && exists i :: 0 <= i < |s.pools| && s.pools[i].ip == t.ip && Draining(s.pools[i])
  }

  /** It lists it as failed, canceled or never started, or knows of no drain at all. */
  ghost predicate ListsStopped(s: McStatus, t: Target) {
    || s.NoneEver?
    || (s.Listing? && exists i :: 0 <= i < |s.pools| && s.pools[i].ip == t.ip && Stopped(s.pools[i]))
  }

  /** It says nothing about the pool. */
  ghost predicate Silent(s: McStatus, t: Target) {
    || s.NotJson? || s.NotAList?
    || (s.Listing? && forall i :: 0 <= i < |s.pools| ==> s.pools[i].ip != t.ip)
  }

  /** The state the code reads, in these words. */
  lemma StateInWords(s: McStatus, t: Target)
    requires Unambiguous(s, t)
    ensures DecommissionState(s, t).Complete? <==> ListsComplete(s, t)
    ensures DecommissionState(s, t).Active? <==> ListsDraining(s, t)
    ensures DecommissionState(s, t).Missing? <==> Silent(s, t)
    ensures DecommissionState(s, t).Failing? || DecommissionState(s, t).Canceled? || DecommissionState(s, t).NotStarted?
            <==> ListsStopped(s, t)
  {
    if s.Listing? {
      forall j | 0 <= j < |s.pools| ensures Matches(s.pools[j], t) <==> s.pools[j].ip == t.ip {
        MatchesExactly(s.pools[j], t);
        SelfMatch(t.ip);
      }
      OwnIsFirst(s.pools, t.ip, (p: Pool) => Matches(p, t));
    }
  }

  lemma OwnIsFirst(pools: seq<Pool>, ip: string, p: Pool -> bool)
    requires forall j :: 0 <= j < |pools| ==> (p(pools[j]) <==> pools[j].ip == ip)
    requires forall i, j :: 0 <= i < j < |pools| ==> pools[i].ip != pools[j].ip
    ensures FirstBy(pools, p).None? <==> forall i :: 0 <= i < |pools| ==> pools[i].ip != ip
    ensures forall i :: 0 <= i < |pools| && pools[i].ip == ip ==> FirstBy(pools, p) == Some(pools[i])
  {
    if exists i :: 0 <= i < |pools| && pools[i].ip == ip {
      var i :| 0 <= i < |pools| && pools[i].ip == ip;
      FirstIs(pools, p, i);
    } else {
      FirstIsNone(pools, p);
    }
  }

  // ----- the wait

  const POLL_S := 5
  const DEADLINE_S := 1800

  datatype Drain = Done | Refused | TimedOut

  /** Poll number k is the one that decides: all earlier ones said active, and it says
      something else. */
  ghost predicate Decides(polls: seq<McStatus>, t: Target, k: nat) {
    && k < |polls| && !DecommissionState(polls[k], t).Active?
    && forall i :: 0 <= i < k ==> DecommissionState(polls[i], t).Active?
  }

  lemma OneDecides(polls: seq<McStatus>, t: Target, k: nat)
    requires Decides(polls, t, k)
    ensures forall i: nat :: Decides(polls, t, i) ==> i == k
  {
  }

  /** The deciding poll comes no later than the deadline and says `complete` or
      `missing`. */
  ghost predicate Passes(polls: seq<McStatus>, t: Target, k: nat) {
    && Decides(polls, t, k) && k <= 360
    && (DecommissionState(polls[k], t).Complete? || DecommissionState(polls[k], t).Missing?)
  }

  /** Every reply until poll k speaks of the target's pool alone. */
  ghost predicate Clear(polls: seq<McStatus>, t: Target, k: nat) {
    forall i :: 0 <= i <= k && i < |polls| ==> Unambiguous(polls[i], t)
  }

  /** Only draining before poll k. */
  ghost predicate DrainingUntil(polls: seq<McStatus>, t: Target, k: nat) {
    k < |polls| && k <= 360 && forall i :: 0 <= i < k ==> ListsDraining(polls[i], t)
  }

  ghost predicate PassesInWords(polls: seq<McStatus>, t: Target, k: nat) {
    DrainingUntil(polls, t, k) && (ListsComplete(polls[k], t) || Silent(polls[k], t))
  }

  lemma PassingInWords(polls: seq<McStatus>, t: Target, k: nat)
    requires Clear(polls, t, 360)
    ensures Passes(polls, t, k) <==> PassesInWords(polls, t, k)
  {
    forall i | 0 <= i <= 360 && i < |polls|
      ensures DecommissionState(polls[i], t).Active? <==> ListsDraining(polls[i], t)
      ensures DecommissionState(polls[i], t).Complete? <==> ListsComplete(polls[i], t)
      ensures DecommissionState(polls[i], t).Missing? <==> Silent(polls[i], t)
    {
      StateInWords(polls[i], t);
    }
  }

  /** What the replies until poll k said, when they speak of the pool alone. */
  lemma SaidSoFar(polls: seq<McStatus>, t: Target, k: nat)
    requires k < |polls| && k <= 360
    requires forall i :: 0 <= i < k ==> DecommissionState(polls[i], t).Active?
    ensures Clear(polls, t, 360) ==>
      && DrainingUntil(polls, t, k)
      && (ListsDraining(polls[k], t) <==> DecommissionState(polls[k], t).Active?)
      && (DecommissionState(polls[k], t).Complete? ==> ListsComplete(polls[k], t))
      && (DecommissionState(polls[k], t).Missing? ==> Silent(polls[k], t))
      && (DecommissionState(polls[k], t) in {Failing, Canceled, NotStarted} ==> ListsStopped(polls[k], t))
  {
    if Clear(polls, t, 360) {
      forall i | 0 <= i < k ensures ListsDraining(polls[i], t) {
        StateInWords(polls[i], t);
      }
      StateInWords(polls[k], t);
    }
  }

  /** The polling loop against the statuses mc would return, enough of them for the
      deadline of 30 minutes.  When they speak of the pool alone: it goes on exactly as
      long as the pool is listed as draining, at most 361 polls; after that it passes on
      a complete pool and on silence, and refuses a failed, canceled or unstarted
      one. */
  method WaitForDrain(polls: seq<McStatus>, t: Target) returns (r: Drain, used: nat)
    requires |polls| > 360
    ensures 1 <= used <= 361
    ensures r.TimedOut? <==> forall i :: 0 <= i <= 360 ==> DecommissionState(polls[i], t).Active?
    ensures !r.TimedOut? ==> Decides(polls, t, used - 1)
    ensures r.Done? <==> exists k: nat :: Passes(polls, t, k)
    ensures r.Done? ==> Passes(polls, t, used - 1)
    ensures Clear(polls, t, 360) ==>
      && (r.TimedOut? ==> forall i :: 0 <= i <= 360 ==> ListsDraining(polls[i], t))
      && (!r.TimedOut? ==> DrainingUntil(polls, t, used - 1) && !ListsDraining(polls[used - 1], t))
      && (r.Done? ==> ListsComplete(polls[used - 1], t) || Silent(polls[used - 1], t))
      && (r.Refused? ==> ListsStopped(polls[used - 1], t))
  {
    var elapsed := 0;
    used := 0;
    while true
      invariant elapsed == POLL_S * used && used <= 360
      invariant forall i :: 0 <= i < used ==> DecommissionState(polls[i], t).Active?
      decreases DEADLINE_S - elapsed
    {
      var state := DecommissionState(polls[used], t);
      used := used + 1;
      if !state.Active? {
        OneDecides(polls, t, used - 1);
      }
      SaidSoFar(polls, t, used - 1);
      assert state.Complete? || state.Missing? ==> Passes(polls, t, used - 1);
      match state
      case Complete => return Done, used;
      case Missing => return Done, used;
      case Failing => return Refused, used;
      case Canceled => return Refused, used;
      case NotStarted => return Refused, used;
      case Active =>
        if elapsed >= DEADLINE_S {
          return TimedOut, used;
        }
        elapsed := elapsed + POLL_S;
    }
  }

  // ----- what a passing wait tells about the pool

  /** Which replies list the pool as complete. */
  ghost function Listed(replies: seq<McStatus>, t: Target): (r: seq<bool>)
    ensures |r| == |replies| && forall i :: 0 <= i < |replies| ==> r[i] == ListsComplete(replies[i], t)
  {
    seq(|replies|, i requires 0 <= i < |replies| => ListsComplete(replies[i], t))
  }

  /** Whether the pool had really drained at each reply: once drained it stays so, and
      mc lists it as complete only when it is. */
  ghost predicate Consistent(drained: seq<bool>, listed: seq<bool>) {
    && |drained| == |listed|
    && (forall i, j :: 0 <= i < j < |drained| && drained[i] ==> drained[j])
    && (forall i :: 0 <= i < |listed| && listed[i] ==> drained[i])
  }

  /** In every world the replies can come from the pool had drained at reply k. */
  ghost predicate SurelyDrained(listed: seq<bool>, k: nat)
    requires k < |listed|
  {
    forall drained :: Consistent(drained, listed) ==> drained[k]
  }

  ghost predicate EverListed(listed: seq<bool>, k: nat) {
    exists i :: 0 <= i <= k && i < |listed| && listed[i]
  }

  /** The world in which the pool drains only when mc says so. */
  lemma LatestDrain(listed: seq<bool>) returns (drained: seq<bool>)
    ensures Consistent(drained, listed)
    ensures forall k :: 0 <= k < |listed| ==> (drained[k] <==> EverListed(listed, k))
  {
    drained := [];
    for n := 0 to |listed|
      invariant |drained| == n && forall k :: 0 <= k < n ==> (drained[k] <==> EverListed(listed, k))
    {
      if EverListed(listed, n) { drained := drained + [true]; } else { drained := drained + [false]; }
    }
    assert forall i :: 0 <= i < |listed| && listed[i] ==> EverListed(listed, i);
    forall i, j | 0 <= i < j < |drained| && drained[i] ensures drained[j] {
      assert EverListed(listed, i);
    }
  }

  lemma SurelyDrainedIfListed(listed: seq<bool>, k: nat)
    requires k < |listed|
    ensures SurelyDrained(listed, k) <==> EverListed(listed, k)
  {
    var latest := LatestDrain(listed);
    assert Consistent(latest, listed);
    if EverListed(listed, k) {
      var i :| 0 <= i <= k && i < |listed| && listed[i];
      forall drained | Consistent(drained, listed) ensures drained[k] {
        assert drained[i] && (i < k ==> drained[k]);
      }
    }
  }

  /** The documented promise is that the pool has drained before its peer is removed.
      Of a wait that passes it holds, in every world the replies can come from, if and
      only if the deciding poll, or the status read before the wait, lists the pool as
      complete. */
  lemma PassingMeansDrainedExactly(before: McStatus, polls: seq<McStatus>, t: Target, k: nat)
    requires Passes(polls, t, k)
    requires Unambiguous(before, t) && forall i :: 0 <= i <= k ==> Unambiguous(polls[i], t)
    ensures SurelyDrained(Listed([before] + polls, t), k + 1) <==> ListsComplete(before, t) || ListsComplete(polls[k], t)
  {
    forall i | 0 <= i < k ensures !ListsComplete(polls[i], t) {
      StateInWords(polls[i], t);
    }
    OnlyFirstAndLast(Listed([before] + polls, t), Listed(polls, t), ListsComplete(before, t), k);
  }

  lemma OnlyFirstAndLast(listed: seq<bool>, polled: seq<bool>, first: bool, k: nat)
    requires listed == [first] + polled && k < |polled| && forall i :: 0 <= i < k ==> !polled[i]
    ensures SurelyDrained(listed, k + 1) <==> first || polled[k]
  {
    SurelyDrainedIfListed(listed, k + 1);
    assert listed[0] == first && listed[k + 1] == polled[k];
    forall i | 0 < i <= k ensures !listed[i] { assert listed[i] == polled[i - 1]; }
  }

  /** So output that is no JSON, mc's own error object and a listing without the pool
      each end the wait at once, after any number of active polls, and each leaves open
      that nothing has drained. */
  lemma SilentPollPassesTheWait(before: McStatus, polls: seq<McStatus>, t: Target, k: nat) returns (drained: seq<bool>)
    requires k < |polls| && k <= 360
    requires forall i :: 0 <= i < k ==> DecommissionState(polls[i], t).Active?
    requires polls[k].NotJson? || polls[k].NotAList? || (polls[k].Listing? && FirstTarget(polls[k].pools, t).None?)
    requires Unambiguous(before, t) && !ListsComplete(before, t) && forall i :: 0 <= i <= k ==> Unambiguous(polls[i], t)
    ensures Passes(polls, t, k)
    ensures Consistent(drained, Listed([before] + polls, t)) && !drained[k + 1]
  {
    assert DecommissionState(polls[k], t).Missing?;
    StateInWords(polls[k], t);
    PassingMeansDrainedExactly(before, polls, t, k);
    drained :| Consistent(drained, Listed([before] + polls, t)) && !drained[k + 1];
  }

  /** And where another peer's IP ends in the target's, the complete pool of the one ends
      the wait for the other. */
  lemma WrongPoolPassesTheWait(other: string, t: Target) returns (s: McStatus)
    requires Joining.IsIpv4(other) && Joining.IsIpv4(t.ip) && IsPort(t.port) && EndsWith(other, t.ip) && other != t.ip
    ensures s == Listing([Pool(other, true, false, false, true), Pool(t.ip, false, false, false, true)])
    ensures Passes([s], t, 0) && Consistent([false, false], Listed([NoneEver, s], t))
  {
    s := Listing([Pool(other, true, false, false, true), Pool(t.ip, false, false, false, true)]);
    MatchesExactly(s.pools[0], t);
    FirstIs(s.pools, (p: Pool) => Matches(p, t), 0);
  }

  // ----- effects

  /** How a write to etcd ends; `FailsLate` took effect all the same. */
  datatype Write = Lands | Fails | FailsLate

  datatype Outcome =
    | Rejected | NotDrained | DeleteFailed(name: string) | Unfinished(name: string) | Removed(name: string)

  ghost predicate Lists(peers: seq<(string, string)>, topo: map<string, string>) {
    forall i :: 0 <= i < |peers| ==> peers[i].0 in topo && topo[peers[i].0] == peers[i].1
  }

  ghost predicate DistinctIps(topo: map<string, string>) {
    forall a, b :: a in topo && b in topo && topo[a] == topo[b] ==> a == b
  }

  lemma GoneIsRefused(topo: map<string, string>, name: string, q: Request)
    requires DistinctIps(topo) && name in topo && topo[name] == q.targetIp && Lists(q.peers, topo - {name})
    ensures Admit(q).None?
  {
  }

  /** No request for this IP that lists the topology is admitted. */
  ghost predicate NoRerun(topo: map<string, string>, ip: string) {
    forall q: Request :: q.targetIp == ip && Lists(q.peers, topo) ==> Admit(q).None?
  }

  lemma GoneMeansNoRerun(topo: map<string, string>, name: string)
    requires DistinctIps(topo) && name in topo
    ensures NoRerun(topo - {name}, topo[name])
  {
    forall q: Request | q.targetIp == topo[name] && Lists(q.peers, topo - {name}) ensures Admit(q).None? {
      GoneIsRefused(topo, name, q);
    }
  }

  /** The wait passed at poll k, and what that says about the pool when the replies speak
      of it alone. */
  ghost predicate Evidence(before: McStatus, polls: seq<McStatus>, t: Target, k: nat) {
    && Passes(polls, t, k)
    && (Unambiguous(before, t) && (forall i :: 0 <= i <= k ==> Unambiguous(polls[i], t)) ==>
          (SurelyDrained(Listed([before] + polls, t), k + 1) <==> ListsComplete(before, t) || ListsComplete(polls[k], t)))
  }

  lemma PassingIsEvidence(before: McStatus, polls: seq<McStatus>, t: Target, k: nat)
    requires Passes(polls, t, k)
    ensures Evidence(before, polls, t, k)
  {
    if Unambiguous(before, t) && forall i :: 0 <= i <= k ==> Unambiguous(polls[i], t) {
      PassingMeansDrainedExactly(before, polls, t, k);
    }
  }

  lemma RepliesInWords(before: McStatus, polls: seq<McStatus>, t: Target)
    ensures Unambiguous(before, t) && Clear(polls, t, 360) ==>
      && (DecommissionState(before, t).Complete? <==> ListsComplete(before, t))
      && (DecommissionState(before, t).Active? <==> ListsDraining(before, t))
      && (forall k: nat :: Passes(polls, t, k) <==> PassesInWords(polls, t, k))
      && (forall k: nat, j: nat :: DrainingUntil(polls, t, k) && ListsStopped(polls[k], t) ==> !PassesInWords(polls, t, j))
  {
    if Unambiguous(before, t) && Clear(polls, t, 360) {
      StateInWords(before, t);
      forall k: nat ensures Passes(polls, t, k) <==> PassesInWords(polls, t, k) {
        PassingInWords(polls, t, k);
      }
      forall k: nat, j: nat | DrainingUntil(polls, t, k) && ListsStopped(polls[k], t) ensures !PassesInWords(polls, t, j) {
        StoppedDoesNotPass(polls, t, k, j);
      }
    }
  }

  lemma StoppedDoesNotPass(polls: seq<McStatus>, t: Target, k: nat, j: nat)
    requires Clear(polls, t, 360) && DrainingUntil(polls, t, k) && ListsStopped(polls[k], t)
    ensures !PassesInWords(polls, t, j)
  {
    StateInWords(polls[k], t);
    if j < |polls| && j <= 360 { StateInWords(polls[j], t); }
  }

  class Cluster {
    var topo: map<string, string>
    var members: set<string>

    constructor (topo: map<string, string>, members: set<string>)
      ensures this.topo == topo && this.members == members
    {
      this.topo, this.members := topo, members;
    }

    /** The writes of a removal: the topology entry goes first and the etcd member last.
        Once the entry is gone no rerun is admitted, so a member that is still there
        then stays. */
    method TakeOut(name: string, ip: string, delete: Write, lists: bool, memberRemove: Write) returns (r: Outcome)
      requires name in topo && topo[name] == ip
      modifies this
      ensures r == DeleteFailed(name) || r == Unfinished(name) || r == Removed(name)
      ensures r.DeleteFailed? <==> !delete.Lands?
      ensures r.Removed? <==> delete.Lands? && lists && (ip in old(members) ==> memberRemove.Lands?)
      ensures topo == if delete.Fails? then old(topo) else old(topo) - {name}
      ensures members == if delete.Lands? && lists && !memberRemove.Fails? then old(members) - {ip} else old(members)
      ensures DistinctIps(old(topo)) && topo != old(topo) ==> NoRerun(topo, ip)
    {
      if DistinctIps(topo) {
        GoneMeansNoRerun(topo, name);
      }
      if !delete.Fails? {
        topo := topo - {name};
      }
      if !delete.Lands? {
        return DeleteFailed(name);
      }
      if !lists {
        return Unfinished(name);
      }
      if ip in members {
        if !memberRemove.Fails? {
          members := members - {ip};
        }
        if !memberRemove.Lands? {
          return Unfinished(name);
        }
      }
      return Removed(name);
    }

    /** `run_remove_node`: nothing changes before the drain has passed.  The request
        carries the topology in the order the scan returned it. */
    method RunRemoveNode(q: Request, port: string, before: McStatus, startFails: bool, polls: seq<McStatus>,
                         delete: Write, lists: bool, memberRemove: Write)
      returns (r: Outcome)
      requires |polls| > 360 && Lists(q.peers, topo)
      modifies this
      ensures r.Rejected? <==> Admit(q).None?
      ensures r.Rejected? || r.NotDrained? ==> topo == old(topo) && members == old(members)
      ensures !r.Rejected? && !r.NotDrained? <==>
        var t := Target(q.targetIp, port); var first := DecommissionState(before, t);
        Admit(q).Some? && (startFails ==> first.Complete? || first.Active?) && exists k: nat :: Passes(polls, t, k)
      ensures !r.Rejected? && !r.NotDrained? ==>
        && Admit(q) == Some(r.name) && r.name in old(topo) && old(topo)[r.name] == q.targetIp
        && topo == (if delete.Fails? then old(topo) else old(topo) - {r.name})
        && members == (if delete.Lands? && lists && !memberRemove.Fails? then old(members) - {q.targetIp}
                       else old(members))
        && (r.Removed? <==> delete.Lands? && lists && (q.targetIp in old(members) ==> memberRemove.Lands?))
      ensures topo != old(topo) && DistinctIps(old(topo)) ==> NoRerun(topo, q.targetIp)
      ensures
        var t := Target(q.targetIp, port);
        Unambiguous(before, t) && Clear(polls, t, 360) ==>
          (!r.Rejected? && !r.NotDrained? <==>
             && Admit(q).Some? && (startFails ==> ListsComplete(before, t) || ListsDraining(before, t))
             && exists k: nat :: PassesInWords(polls, t, k))
      ensures
        var t := Target(q.targetIp, port);
        Unambiguous(before, t) && Clear(polls, t, 360) ==>
          forall k: nat :: DrainingUntil(polls, t, k) && ListsStopped(polls[k], t) ==> r.Rejected? || r.NotDrained?
      ensures !r.Rejected? && !r.NotDrained? ==> exists k: nat :: Evidence(before, polls, Target(q.targetIp, port), k)
    {
      var admitted := Admit(q);
      if admitted.None? {
        return Rejected;
      }
      var t := Target(q.targetIp, port);
      RepliesInWords(before, polls, t);
      var first := DecommissionState(before, t);
      if !first.Complete? && !first.Active? && startFails {
        return NotDrained;
      }
      var drain, used := WaitForDrain(polls, t);
      if !drain.Done? {
        return NotDrained;
      }
      PassingIsEvidence(before, polls, t, used - 1);
      r := TakeOut(admitted.value, q.targetIp, delete, lists, memberRemove);
    }
  }
}
