/** Joins, migrations and removals one after another on a Pulsar deploy: who agrees
    on the broker (daemon/joining.py, daemon/workers/migrate_pulsar.py,
    daemon/workers/remove_node.py). */
module PulsarHistory {
  import opened Text
  import opened NodeNames
  import opened ClusterEnv
  import opened Role
  import opened PulsarDeploy
  import RemoveNode
  import MigratePulsar

  const HOST_KEY := "PULSAR_HOST"
  const MQ_KEY := "MQ_TYPE"
  const TAG_KEY := "MILVUS_IMAGE_TAG"
  const DEFAULT_HOST := "node-1"

  type Env = map<string, string>

  function ValueOf(env: Env, key: string, default: string): string {
    if key in env then env[key] else default
  }

  /** PULSAR_HOST as every reader resolves it. */
  function HostOf(env: Env): string {
    ValueOf(env, HOST_KEY, DEFAULT_HOST)
  }

  /** MQ_TYPE and MILVUS_IMAGE_TAG, "" when absent. */
  datatype Deploy = Deploy(mq: string, tag: string)

  function DeployOf(env: Env): Deploy {
    Deploy(ValueOf(env, MQ_KEY, ""), ValueOf(env, TAG_KEY, ""))
  }

  /** They say Pulsar to the worker, and a copy does not change them. */
  predicate OnPulsar(d: Deploy) {
    Copies(d) && WorkerSaysPulsar(d.mq, d.tag)
  }

  predicate Copies(d: Deploy) {
    Unquote(d.mq) == d.mq && Unquote(d.tag) == d.tag
  }

  /** What a joiner parses from the file built out of the leader's environment, its
      own entries aside (see ClusterEnv.JoinerEnvReads). */
  function Inherited(env: Env): Env {
    (map k | k in env :: Unquote(env[k])) - PER_PEER_KEYS
  }

  /** Parsing the file the leader builds for a joiner gives, its own entries aside, the
      inherited environment. */
  lemma InheritedIsWhatIsRead(banner: seq<string>, env: Dict, name: string, ip: string, ips: seq<string>, names: seq<string>)
    requires PlainDict(env) && IsBanner(banner)
    requires Token(name) && Token(ip) && Tokens(ips) && Tokens(names)
    ensures ReadEnv(Text.Join(JoinerLines(banner, env, name, ip, ips, names), '\n')) - PER_PEER_KEYS == Inherited(AsMap(env))
  {
    JoinerEnvReads(banner, env, name, ip, ips, names);
    ValuesMapped(env, Unquote, PER_PEER_KEYS);
    WithoutOwn(PeerEntries(name, ip, ips, names), AsMap(MapValues(env, Unquote)), PER_PEER_KEYS);
  }

  lemma ValuesMapped(env: Dict, f: string -> string, skip: set<string>)
    ensures AsMap(MapValues(env, f)) - skip == (map k | k in AsMap(env) :: f(AsMap(env)[k])) - skip
  {
    AsMapOfValues(env, f);
  }

  datatype World = World(topo: map<string, string>, envs: map<string, Env>, leader: string)

  datatype Event =
    | Join(ip: string)
    | Migrate(target: string, start: MigratePulsar.Peers, last: MigratePulsar.Peers)
    | Remove(targetIp: string, listing: seq<(string, string)>)
    | Elect(name: string)

  function RemoveRequest(w: World, targetIp: string, listing: seq<(string, string)>): RemoveNode.Request
    requires w.leader in w.envs && w.leader in w.topo
  {
    var env := w.envs[w.leader];
    RemoveNode.Request(listing, targetIp, true, DeployOf(env).mq, DeployOf(env).tag, HostOf(env),
                       Some(RemoveNode.Leader(w.leader, w.topo[w.leader])))
  }

  /** A listing of the topology in the order a scan happens to return it. */
  ghost predicate Lists(listing: seq<(string, string)>, topo: map<string, string>) {
    RemoveNode.Lists(listing, topo) && |listing| == |topo|
  }

  /** The peers the migration job works on: this topology, and each peer's own file. */
  ghost predicate Shows(peers: MigratePulsar.Peers, w: World) {
    && peers.Keys == w.topo.Keys == w.envs.Keys
    && forall n :: n in peers ==> peers[n].ip == w.topo[n] && peers[n].env == HostOf(w.envs[n])
  }

  /** A non-forced run of the job that ended well took the peers from `start` to `last`:
      the leader's file named the target already, or the post-verify passed. */
  ghost predicate RanWell(w: World, target: string, start: MigratePulsar.Peers, last: MigratePulsar.Peers)
    requires w.leader in w.envs
  {
    && Shows(start, w) && MigratePulsar.SamePeers(start, last)
    && if HostOf(w.envs[w.leader]) == target then last == start else MigratePulsar.AllOn(last, start, target)
  }

  /** The job itself: whenever it succeeds it did what the event says. */
  method MigrationIsEvent(
      w: World, start: MigratePulsar.Peers, target: string, isLeader: bool, reachable: set<string>,
      call: string -> MigratePulsar.Call, answers: set<string>)
    returns (result: MigratePulsar.Result, last: MigratePulsar.Peers)
    requires w.leader in w.envs && w.leader in w.topo && Shows(start, w)
    ensures result.Migrated? || result.NothingToDo? ==> target in w.topo && Enabled(w, Migrate(target, start, last))
  {
    var env := w.envs[w.leader];
    var order, trace;
    result, order, trace := MigratePulsar.RunMigratePulsar(
      start, target, HostOf(env), false, WorkerSaysPulsar(DeployOf(env).mq, DeployOf(env).tag), isLeader, reachable,
      call, answers);
    last := trace[|trace| - 1];
  }

  ghost predicate Enabled(w: World, e: Event) {
    && w.leader in w.envs && w.leader in w.topo
    && match e
       case Join(ip) => ip != "" && forall n :: n in w.topo ==> w.topo[n] != ip
       case Migrate(target, start, last) => target in w.topo && RanWell(w, target, start, last)
       case Remove(targetIp, listing) => Lists(listing, w.topo)
       case Elect(name) => name in w.topo
  }

  /** Which node a removal takes out: the one with that IP, unless it is the last one, the
      leader, or the Pulsar host of a Pulsar deploy. */
  lemma RemovesExactly(w: World, name: string, listing: seq<(string, string)>)
    requires name in w.topo && w.topo[name] != "" && forall n :: n in w.topo && w.topo[n] == w.topo[name] ==> n == name
    requires Enabled(w, Remove(w.topo[name], listing)) && (name, w.topo[name]) in listing
    ensures var env := w.envs[w.leader];
            Apply(w, Remove(w.topo[name], listing)).topo ==
              if |w.topo| == 1 || name == w.leader
                 || (WorkerSaysPulsar(DeployOf(env).mq, DeployOf(env).tag) && name == HostOf(env))
              then w.topo else w.topo - {name}
  {
  }

  /** The removal itself: a node that the job reports as removed is the one the event
      takes out, and a rejected request is the event that changes nothing. */
  method RemovalIsEvent(
      w: World, targetIp: string, listing: seq<(string, string)>, members: set<string>, port: string,
      before: RemoveNode.McStatus, startFails: bool, polls: seq<RemoveNode.McStatus>,
      delete: RemoveNode.Write, lists: bool, memberRemove: RemoveNode.Write)
    returns (r: RemoveNode.Outcome, topo: map<string, string>)
    requires |polls| > 360 && Enabled(w, Remove(targetIp, listing))
    ensures topo == w.topo || topo == Apply(w, Remove(targetIp, listing)).topo
    ensures r.Removed? ==> r.name in w.topo && w.topo[r.name] == targetIp && topo == w.topo - {r.name}
    ensures r.Rejected? ==> topo == w.topo
  {
    var cluster := new RemoveNode.Cluster(w.topo, members);
    r := cluster.RunRemoveNode(RemoveRequest(w, targetIp, listing), port, before, startFails, polls,
                               delete, lists, memberRemove);
    topo := cluster.topo;
  }

  /** The join itself: a fresh join of the IP that goes through leaves the topology as the
      event says, under the smallest free name. */
  lemma JoinIsEvent(w: World, ip: string, members: map<string, bool>) returns (run: seq<Joining.Event>, n: nat)
    requires Enabled(w, Join(ip)) && Joining.IsIpv4(ip) && ip !in members && Joining.Unstarted(members) == {}
    ensures var start := Joining.World(w.topo, members, Joining.Idle, []);
            && Joining.Legal(start, run) && IsNextSuffix(w.topo.Keys, n)
            && Joining.After(start, run).topo == Apply(w, Join(ip)).topo == w.topo[NodeName(n) := ip]
            && Joining.After(start, run).results == [Joining.Joined(NodeName(n), ip, false)]
  {
    run, n := Joining.FreshJoinCompletes(Joining.World(w.topo, members, Joining.Idle, []), ip);
    NextSuffixUnique(w.topo.Keys, n, NextSuffix(w.topo.Keys));
  }

  /** The joiner's file carries the leader's shared entries, their values stripped, and
      nothing else of the leader's. */
  lemma JoinerGetsShared(w: World, ip: string)
    requires Enabled(w, Join(ip))
    ensures var name := NodeName(NextSuffix(w.topo.Keys));
            var was, envs := w.envs[w.leader], Apply(w, Join(ip)).envs;
            && name in envs
            && (forall k :: k in envs[name] <==> k in was && NotPerPeer(k))
            && (forall k :: k in was && NotPerPeer(k) ==> envs[name][k] == Unquote(was[k]))
  {
    assert forall k: string :: k in PER_PEER_KEYS <==> !NotPerPeer(k);
  }

  ghost function LastElected(leader: string, run: seq<Event>): string
    decreases run
  {
    if run == [] then leader else LastElected(if run[0].Elect? then run[0].name else leader, run[1..])
  }

  lemma {:induction false} LeaderIsElected(w: World, run: seq<Event>)
    requires Legal(w, run)
    ensures After(w, run).leader == LastElected(w.leader, run)
    decreases run
  {
    if run != [] {
      LeaderIsElected(Apply(w, run[0]), run[1..]);
    }
  }

  /** The file after the calls of a run: PULSAR_HOST was upserted if it reads
      differently. */
  function WithHost(env: Env, host: string): Env {
    if HostOf(env) == host then env else env[HOST_KEY := host]
  }

  ghost function Apply(w: World, e: Event): World
    requires Enabled(w, e)
  {
    match e
    case Join(ip) =>
      var name := NodeName(NextSuffix(w.topo.Keys));
      w.(topo := w.topo[name := ip], envs := w.envs[name := Inherited(w.envs[w.leader])])
    case Migrate(_, _, last) => w.(envs := map n | n in w.envs :: WithHost(w.envs[n], last[n].env))
    case Remove(targetIp, listing) =>
      (match RemoveNode.Admit(RemoveRequest(w, targetIp, listing))
       case None => w
       case Some(name) => w.(topo := w.topo - {name}, envs := w.envs - {name}))
    case Elect(name) => w.(leader := name)
  }

  ghost predicate Numbered(topo: map<string, string>) {
    forall n :: n in topo ==> Suffix(n).Some? && topo[n] != ""
  }

  /** All peers resolve PULSAR_HOST to `host`, `host` is one of them, and all files say
      the same about the deploy. */
  ghost predicate Agreed(w: World, host: string, d: Deploy) {
    && w.envs.Keys == w.topo.Keys && w.leader in w.topo && Numbered(w.topo)
    && host in w.topo
    && forall n :: n in w.envs ==> HostOf(w.envs[n]) == host && DeployOf(w.envs[n]) == d
  }

  function NextHost(host: string, e: Event): string {
    if e.Migrate? then e.target else host
  }

  lemma KeysAreShared()
    ensures HOST_KEY !in PER_PEER_KEYS && MQ_KEY !in PER_PEER_KEYS && TAG_KEY !in PER_PEER_KEYS
    ensures HOST_KEY != MQ_KEY && HOST_KEY != TAG_KEY
  {
  }

  lemma NameIsPlain(n: string)
    requires Suffix(n).Some?
    ensures Unquote(n) == n
  {
    NumberedNameIsToken(n);
    TokenIsPlain(n);
  }

  lemma ValueCopies(env: Env, key: string, default: string)
    requires key !in PER_PEER_KEYS && Unquote(ValueOf(env, key, default)) == ValueOf(env, key, default)
    ensures ValueOf(Inherited(env), key, default) == ValueOf(env, key, default)
  {
  }

  lemma JoinerInherits(env: Env, host: string, d: Deploy)
    requires HostOf(env) == host && Suffix(host).Some? && DeployOf(env) == d && Copies(d)
    ensures HostOf(Inherited(env)) == host && DeployOf(Inherited(env)) == d
  {
    KeysAreShared();
    NameIsPlain(host);
    ValueCopies(env, HOST_KEY, DEFAULT_HOST);
    ValueCopies(env, MQ_KEY, "");
    ValueCopies(env, TAG_KEY, "");
  }

  lemma WithHostKeepsRest(env: Env, host: string)
    ensures HostOf(WithHost(env, host)) == host && DeployOf(WithHost(env, host)) == DeployOf(env)
  {
    KeysAreShared();
  }

  /** A migration that ended well, by the job's own contract, leaves all on the
      target. */
  lemma MigrationKeepsAgreement(w: World, e: Event, host: string, d: Deploy)
    requires Agreed(w, host, d) && Enabled(w, e) && e.Migrate?
    ensures Agreed(Apply(w, e), e.target, d)
  {
    var w' := Apply(w, e);
    forall n | n in w'.envs ensures HostOf(w'.envs[n]) == e.target && DeployOf(w'.envs[n]) == d {
      WithHostKeepsRest(w.envs[n], e.last[n].env);
      assert w.topo[n] != "" && e.start[n].ip == w.topo[n];
    }
  }

  lemma JoinKeepsAgreement(w: World, ip: string, host: string, d: Deploy)
    requires Agreed(w, host, d) && Copies(d) && Enabled(w, Join(ip))
    ensures Agreed(Apply(w, Join(ip)), host, d)
  {
    var n := NextSuffix(w.topo.Keys);
    SuffixOfNodeName(n);
    JoinerInherits(w.envs[w.leader], host, d);
    EntryKeepsAgreement(w, NodeName(n), ip, Inherited(w.envs[w.leader]), host, d);
  }

  lemma EntryKeepsAgreement(w: World, name: string, ip: string, env: Env, host: string, d: Deploy)
    requires Agreed(w, host, d) && name !in w.topo && Suffix(name).Some? && ip != ""
    requires HostOf(env) == host && DeployOf(env) == d
    ensures Agreed(w.(topo := w.topo[name := ip], envs := w.envs[name := env]), host, d)
  {
  }

  lemma AdmittedIsNeither(q: RemoveNode.Request, host: string)
    requires WorkerSaysPulsar(q.mqType, q.tag) && q.pulsarHost == host && q.leaderKey.Some?
    ensures var r := RemoveNode.Admit(q); r.Some? ==> r.value != host && r.value != q.leaderKey.value.name
  {
  }

  lemma RemoveKeepsAgreement(w: World, e: Event, host: string, d: Deploy)
    requires Agreed(w, host, d) && WorkerSaysPulsar(d.mq, d.tag) && Enabled(w, e) && e.Remove?
    ensures Agreed(Apply(w, e), host, d)
  {
    assert DeployOf(w.envs[w.leader]) == d;
    AdmittedIsNeither(RemoveRequest(w, e.targetIp, e.listing), host);
  }

  lemma StepKeepsAgreement(w: World, e: Event, host: string, d: Deploy)
    requires Agreed(w, host, d) && OnPulsar(d) && Enabled(w, e)
    ensures Agreed(Apply(w, e), NextHost(host, e), d)
  {
    match e
    case Join(ip) => JoinKeepsAgreement(w, ip, host, d);
    case Remove(_, _) => RemoveKeepsAgreement(w, e, host, d);
    case Migrate(_, _, _) => MigrationKeepsAgreement(w, e, host, d);
    case Elect(_) =>
  }

  // ----- histories

  ghost predicate Legal(w: World, run: seq<Event>)
    decreases run
  {
    run == [] || (Enabled(w, run[0]) && Legal(Apply(w, run[0]), run[1..]))
  }

  ghost function After(w: World, run: seq<Event>): World
    requires Legal(w, run)
    decreases run
  {
    if run == [] then w else After(Apply(w, run[0]), run[1..])
  }

  /** The target of the last migration, or the starting host. */
  function LastHost(host: string, run: seq<Event>): string
    decreases run
  {
    if run == [] then host else LastHost(NextHost(host, run[0]), run[1..])
  }

  /** Over every history of joins, successful non-forced migrations, removals and
      leader changes, all peers agree on the broker the last migration named, it is a
      current peer, and the topology is never empty.  In the files' own words: every
      PULSAR_HOST, or node-1 where there is none, is that host, and the broker type and
      the image tag stay as they were. */
  lemma {:induction false} HistoriesKeepAgreement(w: World, run: seq<Event>, host: string, d: Deploy)
    requires Agreed(w, host, d) && OnPulsar(d) && Legal(w, run)
    ensures Agreed(After(w, run), LastHost(host, run), d) && After(w, run).topo != map[]
    ensures forall n :: n in After(w, run).envs ==>
      var env := After(w, run).envs[n];
      && LastHost(host, run) == (if "PULSAR_HOST" in env then env["PULSAR_HOST"] else "node-1")
      && d.mq == (if "MQ_TYPE" in env then env["MQ_TYPE"] else "")
      && d.tag == (if "MILVUS_IMAGE_TAG" in env then env["MILVUS_IMAGE_TAG"] else "")
    decreases run
  {
    if run != [] {
      StepKeepsAgreement(w, run[0], host, d);
      HistoriesKeepAgreement(Apply(w, run[0]), run[1..], NextHost(host, run[0]), d);
    }
  }

  /** So in every reached state the name resolves to the host's own IP in the sorted
      peer lists, never to the fallback on the first peer. */
  lemma HostResolves(w: World, run: seq<Event>, host: string, d: Deploy)
    requires Agreed(w, host, d) && OnPulsar(d) && Legal(w, run)
    ensures var topo := After(w, run).topo; var names := Sorted(topo.Keys); var h := LastHost(host, run);
            && Find(names, h, 0).Some?
            && IpsOf(names, topo)[Find(names, h, 0).value] == topo[h] && topo[h] != ""
  {
    HistoriesKeepAgreement(w, run, host, d);
    var topo := After(w, run).topo;
    assert LastHost(host, run) in Sorted(topo.Keys);
  }
}
