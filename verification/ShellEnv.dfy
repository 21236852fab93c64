/** The file a joiner was sent, sourced by its shell (lib/env.sh), and role detection
    (lib/role.sh) on what that assigns. */
module ShellEnv {
  import opened Text
  import opened NodeNames
  import opened ClusterEnv
  import opened EnvFile
  import opened Shell
  import opened Role
  import Joining

  // ----- a whole file

  /** The variables after a file; None when a line does anything but assign. */
  ghost function SourceLines(lines: seq<string>): Option<map<string, string>> {
    if lines == [] then Some(map[])
    else
      var before := SourceLines(lines[..|lines| - 1]);
      var r := SourceLine(lines[|lines| - 1]);
      if before.Some? && r.Sets? then Some(before.value + AsMap(r.bindings)) else None
  }

  ghost function SourceEnv(text: string): Option<map<string, string>> {
    SourceLines(Fields(text))
  }

  /** A line that assigns once, or not at all. */
  ghost predicate Simple(line: string) {
    SourceLine(line).Sets? && |SourceLine(line).bindings| <= 1
  }

  ghost function Binding(line: string): Option<(string, string)> {
    var r := SourceLine(line);
    if r.Sets? && |r.bindings| == 1 then Some(r.bindings[0]) else None
  }

  /** What a file of simple lines binds, line by line. */
  ghost function Bindings(lines: seq<string>, bind: LineParser): Dict {
    if lines == [] then []
    else
      var b := bind(lines[|lines| - 1]);
      Bindings(lines[..|lines| - 1], bind) + (if b.Some? then [b.value] else [])
  }

  ghost predicate AllLines(lines: seq<string>, p: string -> bool) {
    forall i :: 0 <= i < |lines| ==> p(lines[i])
  }

  lemma {:induction false} AsMapAppend(a: Dict, b: Dict)
    ensures AsMap(a + b) == AsMap(a) + AsMap(b)
  {
    if b == [] {
      assert a + b == a;
    } else {
      assert (a + b)[..|a + b| - 1] == a + b[..|b| - 1];
      AsMapAppend(a, b[..|b| - 1]);
    }
  }

  lemma {:induction false} SimpleLines(lines: seq<string>)
    requires AllLines(lines, Simple)
    ensures SourceLines(lines) == Some(AsMap(Bindings(lines, Binding)))
  {
    if lines != [] {
      var before, line := lines[..|lines| - 1], lines[|lines| - 1];
      SimpleLines(before);
      assert Simple(line);
      var b := SourceLine(line).bindings;
      assert b == if b == [] then [] else [b[0]];
      AsMapAppend(Bindings(before, Binding), b);
    }
  }

  lemma {:induction false} BindingsAppend(a: seq<string>, b: seq<string>, bind: LineParser)
    ensures Bindings(a + b, bind) == Bindings(a, bind) + Bindings(b, bind)
  {
    if b == [] {
      assert a + b == a;
    } else {
      assert (a + b)[..|a + b| - 1] == a + b[..|b| - 1];
      BindingsAppend(a, b[..|b| - 1], bind);
    }
  }

  lemma TwoParts(a: seq<string>, b: seq<string>, p: string -> bool, bind: LineParser)
    requires AllLines(a, p) && AllLines(b, p)
    ensures AllLines(a + b, p) && Bindings(a + b, bind) == Bindings(a, bind) + Bindings(b, bind)
  {
    BindingsAppend(a, b, bind);
  }

  /** The parts of a file, the silent ones left out. */
  lemma FiveParts(banner: seq<string>, own: seq<string>, shared: seq<string>, blank: seq<string>,
                  p: string -> bool, bind: LineParser)
    requires AllLines(banner, p) && AllLines(own, p) && AllLines(shared, p) && AllLines(blank, p)
    requires Bindings(banner, bind) == [] && Bindings(blank, bind) == []
    ensures var lines := banner + own + blank + shared + blank;
            AllLines(lines, p) && Bindings(lines, bind) == Bindings(own, bind) + Bindings(shared, bind)
  {
    var a := banner + own;
    var b := a + blank;
    var c := b + shared;
    TwoParts(banner, own, p, bind);
    TwoParts(a, blank, p, bind);
    TwoParts(b, shared, p, bind);
    TwoParts(c, blank, p, bind);
  }

  // ----- the joiner's file

  /** Names a shell can set, values it takes literally. */
  ghost predicate SafeDict(env: Dict) {
    forall i :: 0 <= i < |env| ==> ShellName(env[i].0) && Plain(env[i].1)
  }

  lemma {:induction false} CalmIsOneLine(v: string)
    requires Calm(v)
    ensures Free(v, IsNewline)
  {
    if v != "" {
      CalmIsOneLine(v[1..]);
      forall i | 0 <= i < |v| ensures !IsNewline(v[i]) {
        if i > 0 { assert v[i] == v[1..][i - 1]; }
      }
    }
  }

  /** The entries outside `skip`, in order. */
  function Kept(env: Dict, skip: set<string>): Dict {
    if env == [] then []
    else
      var last := env[|env| - 1];
      Kept(env[..|env| - 1], skip) + (if last.0 in skip then [] else [last])
  }

  lemma DropAfterPut(m: map<string, string>, k: string, v: string, skip: set<string>)
    ensures m[k := v] - skip == if k in skip then m - skip else (m - skip)[k := v]
  {
  }

  lemma {:induction false} KeptIsMap(env: Dict, skip: set<string>)
    ensures AsMap(Kept(env, skip)) == AsMap(env) - skip
  {
    if env != [] {
      var before, last := env[..|env| - 1], env[|env| - 1];
      KeptIsMap(before, skip);
      DropAfterPut(AsMap(before), last.0, last.1, skip);
      if last.0 in skip {
        assert Kept(before, skip) + [] == Kept(before, skip);
      } else {
        AsMapSnoc(Kept(before, skip), last.0, last.1);
        assert [(last.0, last.1)] == [last];
      }
    }
  }

  lemma EntryIsSimple(k: string, v: string)
    requires ShellName(k) && Plain(v)
    ensures Simple(k + "=" + v) && Binding(k + "=" + v) == Some((k, v)) && Free(k + "=" + v, IsNewline)
  {
    SourcedLiterallyExactly(k, v);
    CalmIsOneLine(v);
    EntryIsLine(k, v, IsNewline);
  }

  /** A simple line, and one line indeed. */
  ghost predicate Tidy(line: string) {
    Simple(line) && Free(line, IsNewline)
  }

  lemma {:induction false} SharedAreSimple(env: Dict, skip: set<string>)
    requires SafeDict(env)
    ensures AllLines(SharedLines(env, skip), Tidy) && Bindings(SharedLines(env, skip), Binding) == Kept(env, skip)
  {
    if env != [] {
      var before := env[..|env| - 1];
      var (k, v) := env[|env| - 1];
      SharedAreSimple(before, skip);
      EntryIsSimple(k, v);
      if k !in skip {
        assert SharedLines(env, skip)[..|SharedLines(env, skip)| - 1] == SharedLines(before, skip);
      } else {
        assert SharedLines(before, skip) + [] == SharedLines(before, skip);
      }
    }
  }

  lemma BlankOrComment(line: string)
    requires line == "" || line[0] == '#'
    ensures Simple(line) && Binding(line) == None
  {
  }

  lemma {:induction false} SilentLines(lines: seq<string>)
    requires forall i :: 0 <= i < |lines| ==> (lines[i] == "" || lines[i][0] == '#') && Free(lines[i], IsNewline)
    ensures AllLines(lines, Tidy) && Bindings(lines, Binding) == []
  {
    if lines != [] {
      SilentLines(lines[..|lines| - 1]);
      BlankOrComment(lines[|lines| - 1]);
    }
  }

  lemma BannerIsSilentToShell(banner: seq<string>)
    requires IsBanner(banner)
    ensures AllLines(banner, Tidy) && Bindings(banner, Binding) == []
  {
    LinesHaveNoNewline(banner);
    SilentLines(banner);
  }

  lemma LinesHaveNoNewline(lines: seq<string>)
    requires OneLine(lines)
    ensures NoNewlines(lines)
  {
    forall i | 0 <= i < |lines| ensures Free(lines[i], IsNewline) {
      forall k | 0 <= k < |lines[i]| ensures !IsNewline(lines[i][k]) { assert !IsBreak(lines[i][k]); }
    }
  }

  // ----- the peers' own entries

  /** A conservative choice of characters that are plain wherever they stand. */
  predicate IsUnsafe(c: char) {
    !(IsNameChar(c) || c == '.' || c == ',' || c == '-')
  }

  predicate Tame(v: string) {
    Free(v, IsUnsafe)
  }

  lemma {:induction false} TameIsCalm(v: string)
    requires Tame(v)
    ensures Calm(v)
  {
    if v != "" {
      assert !IsUnsafe(v[0]);
      assert Tame(v[1..]);
      TameIsCalm(v[1..]);
    }
  }

  lemma TameIsPlain(v: string)
    requires Tame(v)
    ensures Plain(v)
  {
    TameIsCalm(v);
    forall i | 0 <= i < |v| ensures v[i] != '~' { assert !IsUnsafe(v[i]); }
  }

  lemma PeerKeysAreNames()
    ensures forall i :: 0 <= i < |PEER_KEYS| ==> ShellName(PEER_KEYS[i])
  {
    assert ShellName(PEER_KEYS[0]) && ShellName(PEER_KEYS[1]) && ShellName(PEER_KEYS[2]) && ShellName(PEER_KEYS[3]);
    assert ShellName(PEER_KEYS[4]);
    EveryKey(PEER_KEYS, ShellName);
  }

  ghost predicate AllTame(xs: seq<string>) {
    forall i :: 0 <= i < |xs| ==> Tame(xs[i])
  }

  lemma PeerDictIsSafe(name: string, ip: string, ips: seq<string>, names: seq<string>)
    requires Tame(name) && Tame(ip) && AllTame(ips) && AllTame(names)
    ensures SafeDict(PeerDict(name, ip, ips, names))
  {
    JoinFree(ips, ',', IsUnsafe);
    JoinFree(names, ',', IsUnsafe);
    PeerKeysAreNames();
    var vs := PeerValues(name, ip, ips, names);
    FiveOf(name, ip, Join(ips, ','), Join(names, ','), "existing", Tame);
    forall i | 0 <= i < |vs| ensures Plain(vs[i]) { TameIsPlain(vs[i]); }
  }

  lemma {:induction false} NothingSkipped(env: Dict)
    ensures Kept(env, {}) == env
  {
    if env != [] { NothingSkipped(env[..|env| - 1]); }
  }

  lemma FileSources(lines: seq<string>, b: Dict)
    requires AllLines(lines, Tidy) && lines != [] && Bindings(lines, Binding) == b
    ensures SourceEnv(Join(lines, '\n')) == Some(AsMap(b))
  {
    assert forall i :: 0 <= i < |lines| ==> Tidy(lines[i]);
    SimpleLines(lines);
    SplitJoin(lines, '\n', IsNewline);
  }

  /** Sourcing the file the leader builds only assigns: the per-peer entries, and every
      shared entry as the leader's daemon had read it. */
  lemma JoinerEnvSources(banner: seq<string>, env: Dict, name: string, ip: string, ips: seq<string>, names: seq<string>)
    requires SafeDict(env) && IsBanner(banner)
    requires Tame(name) && Tame(ip) && AllTame(ips) && AllTame(names)
    ensures SourceEnv(Join(JoinerLines(banner, env, name, ip, ips, names), '\n'))
            == Some(PeerEntries(name, ip, ips, names) + (AsMap(env) - PER_PEER_KEYS))
  {
    var d, kept := PeerDict(name, ip, ips, names), Kept(env, PER_PEER_KEYS);
    PeerDictIsSafe(name, ip, ips, names);
    BannerIsSilentToShell(banner);
    SilentLines([""]);
    SharedAreSimple(d, {});
    NothingSkipped(d);
    SharedLinesAll(d);
    SharedAreSimple(env, PER_PEER_KEYS);
    FiveParts(banner, EntryLines(d), SharedLines(env, PER_PEER_KEYS), [""], Tidy, Binding);
    FileSources(JoinerLines(banner, env, name, ip, ips, names), d + kept);
    AsMapAppend(d, kept);
    PeerDictAsMap(name, ip, ips, names);
    KeptIsMap(env, PER_PEER_KEYS);
  }

  // ----- the joiner finds itself

  ghost predicate ValidTopology(topo: map<string, string>) {
    forall n :: n in topo ==> Suffix(n).Some? && (topo[n] == "" || Joining.IsIpv4(topo[n]))
  }

  lemma NumberedNameIsTame(name: string)
    requires Suffix(name).Some?
    ensures Tame(name)
  {
    assert name == STEM + name[|STEM|..];
    assert Tame(STEM) && Tame(name[|STEM|..]);
    FreeConcat(STEM, name[|STEM|..], IsUnsafe);
  }

  lemma Ipv4IsTame(ip: string)
    requires Joining.IsIpv4(ip)
    ensures Tame(ip)
  {
    Ipv4IsDigitsAndDots(ip);
  }

  lemma ListsAreTame(topo: map<string, string>, name: string, ip: string)
    requires ValidTopology(topo) && Suffix(name).Some? && Joining.IsIpv4(ip)
    ensures AllTame(NamesAfterJoin(topo, name, ip)) && AllTame(IpsAfterJoin(topo, name, ip))
  {
    var names, ips := NamesAfterJoin(topo, name, ip), IpsAfterJoin(topo, name, ip);
    forall i | 0 <= i < |names| ensures Tame(names[i]) && Tame(ips[i]) {
      assert names[i] in names;
      NumberedNameIsTame(names[i]);
      Ipv4IsTame(ips[i]);
    }
  }

  lemma ValidIsNumbered(topo: map<string, string>)
    requires ValidTopology(topo)
    ensures NumberedTopology(topo)
  {
    forall n | n in topo ensures topo[n] == "" || Token(topo[n]) {
      if topo[n] != "" { Ipv4IsToken(topo[n]); }
    }
  }

  /** The joiner's shell finds itself: for every topology of node-N names, sourcing the
      built file announces the joiner's name, IP and the two peer lists, keeps every
      shared entry, and role detection succeeds at the one index that holds the joiner's
      name and IP. */
  lemma JoinerShellFindsItself(banner: seq<string>, env: Dict, topo: map<string, string>, name: string, ip: string)
    requires SafeDict(env) && IsBanner(banner)
    requires ValidTopology(topo) && Suffix(name).Some? && Joining.IsIpv4(ip)
    ensures
      var names, ips := NamesAfterJoin(topo, name, ip), IpsAfterJoin(topo, name, ip);
      var got := SourceEnv(Join(JoinerLines(banner, env, name, ip, ips, names), '\n'));
      && got.Some? && Announces(got.value, name, ip, ips, names)
      && got.value - PER_PEER_KEYS == AsMap(env) - PER_PEER_KEYS
      && SelfLocated(topo, name, ip)
  {
    var names, ips := NamesAfterJoin(topo, name, ip), IpsAfterJoin(topo, name, ip);
    NumberedNameIsTame(name);
    Ipv4IsTame(ip);
    ListsAreTame(topo, name, ip);
    JoinerEnvSources(banner, env, name, ip, ips, names);
    PeerEntriesStand(name, ip, ips, names, AsMap(env));
    WithoutOwn(PeerEntries(name, ip, ips, names), AsMap(env), PER_PEER_KEYS);
    ValidIsNumbered(topo);
    Ipv4IsToken(ip);
    ListsLocate(topo, name, ip);
  }
}
