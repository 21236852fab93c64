/** cluster.env as the daemon reads it and as the leader writes it for a joiner
    (daemon/joining.py, daemon/workers/remove_node.py). */
module ClusterEnv {
  import opened Text
  import opened NodeNames
  import Joining

  // ----- characters

  /** The separators of `str.splitlines`. */
  predicate IsBreak(c: char) {
    var n := c as int;
    10 <= n <= 13 || 28 <= n <= 30 || n == 0x85 || n == 0x2028 || n == 0x2029
  }

  /** The characters `str.strip` removes. */
  predicate IsSpace(c: char) {
    var n := c as int;
    || 9 <= n <= 13 || 28 <= n <= 32 || n == 0x85 || n == 0xA0 || n == 0x1680
    || 0x2000 <= n <= 0x200A || n == 0x2028 || n == 0x2029 || n == 0x202F || n == 0x205F || n == 0x3000
  }

  predicate IsDouble(c: char) { c == '"' }

  predicate IsSingle(c: char) { c == '\'' }

  predicate IsEq(c: char) { c == '=' }

  predicate IsComma(c: char) { c == ',' }

  // ----- reading

  /** `v.strip().strip('"').strip("'")`. */
  function Unquote(v: string): string {
    Strip(Strip(Strip(v, IsSpace), IsDouble), IsSingle)
  }

  /** A value without quotes and without blanks at its ends is read the same bare, padded,
      and in either kind of quotes or both. */
  lemma UnquoteReads(v: string)
    requires v != "" && Tight(v, IsSpace) && Free(v, IsDouble) && Free(v, IsSingle)
    ensures Unquote(v) == v && Unquote([' '] + v + [' ']) == v
    ensures Unquote(['"'] + v + ['"']) == v && Unquote(['\''] + v + ['\'']) == v
    ensures Unquote(['"'] + (['\''] + v + ['\'']) + ['"']) == v
  {
    var s := ['\''] + v + ['\''];
    StripTight(v, IsSpace);
    StripFree(v, IsDouble);
    StripFree(v, IsSingle);
    StripWrapped(v, ' ', IsSpace);
    StripWrapped(v, '"', IsDouble);
    StripWrapped(v, '\'', IsSingle);
    StripTight(['"'] + v + ['"'], IsSpace);
    StripTight(s, IsSpace);
    StripTight(s, IsDouble);
    StripTight(['"'] + s + ['"'], IsSpace);
    StripWrapped(s, '"', IsDouble);
  }

  /** Single quotes are taken off last: around double quotes they leave those. */
  lemma DoubleInsideSingleStays(v: string)
    requires v != "" && Tight(v, IsSpace) && Free(v, IsDouble) && Free(v, IsSingle)
    ensures Unquote(['\''] + (['"'] + v + ['"']) + ['\'']) == ['"'] + v + ['"']
  {
    var d := ['"'] + v + ['"'];
    var q := ['\''] + d + ['\''];
    StripTight(q, IsSpace);
    StripTight(q, IsDouble);
    StripWrapped(d, '\'', IsSingle);
  }

  function FieldsAtEq(line: string): (r: (string, string))
    requires !Free(line, IsEq)
    ensures line == r.0 + "=" + r.1 && Free(r.0, IsEq)
  {
    if line[0] == '=' then
      assert line == "" + "=" + line[1..];
      ("", line[1..])
    else
      var (k, v) := FieldsAtEq(line[1..]);
      assert line == [line[0]] + line[1..];
      ([line[0]] + k, v)
  }

  lemma {:induction false} FieldsUnique(k: string, v: string)
    requires Free(k, IsEq)
    ensures !Free(k + "=" + v, IsEq) && FieldsAtEq(k + "=" + v) == (k, v)
  {
    var line := k + "=" + v;
    assert line[|k|] == '=';
    if k == "" {
      assert line[1..] == v;
    } else {
      assert line[1..] == k[1..] + "=" + v;
      FieldsUnique(k[1..], v);
      assert k == [k[0]] + k[1..];
    }
  }

  /** One line of the file: None for blanks, comments and lines without a key. */
  function ParseLine(line: string): Option<(string, string)> {
    var l := Strip(line, IsSpace);
    if l == "" || l[0] == '#' || Free(l, IsEq) then None
    else
      var (k, v) := FieldsAtEq(l);
      if Strip(k, IsSpace) == "" then None else Some((Strip(k, IsSpace), Unquote(v)))
  }

  type LineParser = string -> Option<(string, string)>

  /** The dictionary of `_read_cluster_env`: a later line wins. */
  function Collect(lines: seq<string>, parse: LineParser): map<string, string> {
    if lines == [] then map[]
    else
      var before := Collect(lines[..|lines| - 1], parse);
      match parse(lines[|lines| - 1])
      case None => before
      case Some((k, v)) => before[k := v]
  }

  function ReadEnv(text: string): map<string, string> {
    Collect(Split(text, IsBreak), ParseLine)
  }

  method CollectLines(lines: seq<string>, parse: LineParser) returns (out: map<string, string>)
    ensures out == Collect(lines, parse)
  {
    out := map[];
    for i := 0 to |lines|
      invariant out == Collect(lines[..i], parse)
    {
      assert lines[..i + 1][..i] == lines[..i];
      var entry := parse(lines[i]);
      if entry.Some? {
        out := out[entry.value.0 := entry.value.1];
      }
    }
    assert lines[..|lines|] == lines;
  }

  /** `_read_cluster_env`. */
  method ReadClusterEnv(text: string) returns (out: map<string, string>)
    ensures out == ReadEnv(text)
  {
    out := CollectLines(Split(text, IsBreak), ParseLine);
  }

  lemma {:induction false} CollectAppend(a: seq<string>, b: seq<string>, parse: LineParser)
    ensures Collect(a + b, parse) == Collect(a, parse) + Collect(b, parse)
  {
    if b == [] {
      assert a + b == a;
    } else {
      assert (a + b)[..|a + b| - 1] == a + b[..|b| - 1];
      CollectAppend(a, b[..|b| - 1], parse);
    }
  }

  lemma CollectOne(line: string, parse: LineParser)
    ensures Collect([line], parse) ==
            match parse(line) { case None => map[] case Some((k, v)) => map[k := v] }
  {
    assert [line][..0] == [];
    assert Collect([], parse) == map[];
  }

  // ----- what a line says

  predicate CleanKey(k: string) {
    && k != "" && Tight(k, IsSpace) && k[0] != '#'
    && Free(k, IsEq) && Free(k, IsBreak)
  }

  lemma StripEntry(k: string, v: string, p: char -> bool)
    requires k != "" && Tight(k, p) && !p('=')
    ensures Strip(k + "=" + v, p) == k + "=" + StripRight(v, p)
  {
    StripRightAppend(k + "=", v, p);
  }

  lemma UnquoteAbsorbsRight(v: string)
    ensures Unquote(StripRight(v, IsSpace)) == Unquote(v)
  {
    StripAbsorbsRight(v, IsSpace);
  }

  lemma EntryLine(k: string, v: string)
    requires CleanKey(k)
    ensures ParseLine(k + "=" + v) == Some((k, Unquote(v)))
  {
    StripEntry(k, v, IsSpace);
    var v' := StripRight(v, IsSpace);
    FieldsUnique(k, v');
    StripTight(k, IsSpace);
    UnquoteAbsorbsRight(v);
  }

  lemma CommentLine(text: string)
    ensures ParseLine("#" + text) == None
  {
    StripRightAppend("#", text, IsSpace);
  }

  lemma FreeSlice(s: string, i: nat, j: nat, p: char -> bool)
    requires i <= j <= |s| && Free(s, p)
    ensures Free(s[i..j], p)
  {
  }

  lemma StripKeepsFree(s: string, p: char -> bool, q: char -> bool)
    requires Free(s, q)
    ensures Free(Strip(s, p), q)
  {
    var i := StripEnds(s, p);
    FreeSlice(s, i, i + |Strip(s, p)|, q);
  }

  /** Stripping a prefix of a stripped line keeps its first character. */
  lemma StripHead(l: string, k: string, p: char -> bool)
    requires k <= l && k != "" && !p(l[0])
    ensures Strip(k, p) != "" && Strip(k, p)[0] == l[0]
  {
    assert k == [k[0]] + k[1..];
    StripRightAppend([k[0]], k[1..], p);
  }

  lemma KeyPart(line: string, sp: char -> bool, br: char -> bool)
    requires Free(line, br) && Strip(line, sp) != "" && !Free(Strip(line, sp), IsEq)
    ensures var k := Strip(FieldsAtEq(Strip(line, sp)).0, sp);
            && Tight(k, sp) && Free(k, br) && Free(k, IsEq)
            && (k != "" ==> k[0] == Strip(line, sp)[0])
  {
    var l := Strip(line, sp);
    StripKeepsFree(line, sp, br);
    var _ := StripEnds(line, sp);
    var (k, v) := FieldsAtEq(l);
    var _ := StripEnds(k, sp);
    assert k == l[..|k|];
    FreeSlice(l, 0, |k|, br);
    StripKeepsFree(k, sp, br);
    StripKeepsFree(k, sp, IsEq);
    if k != "" {
      StripHead(l, k, sp);
    }
  }

  /** What the reader returns is always a clean key, whatever the file. */
  lemma ReaderKeyIsClean(line: string)
    requires Free(line, IsBreak) && ParseLine(line).Some?
    ensures CleanKey(ParseLine(line).value.0)
  {
    KeyPart(line, IsSpace, IsBreak);
  }

  /** Lines that say nothing: blank ones, comments, ones without an equals sign, ones
      without a key. */
  lemma SilentLine(blanks: string, text: string)
    requires forall i :: 0 <= i < |blanks| ==> blanks[i] == ' '
    requires text == "" || text[0] == '#' || text[0] == '=' || (Tight(text, IsSpace) && Free(text, IsEq))
    ensures ParseLine(blanks + text) == None
  {
    LeadingBlanks(blanks, text);
    if text != "" {
      assert text == [text[0]] + text[1..];
      StripRightCons(text[0], text[1..], IsSpace);
      if text[0] == '=' || text[0] == '#' {
        assert StripLeft(text, IsSpace) == text;
        assert Strip(text, IsSpace)[0] == text[0];
      } else {
        StripTight(text, IsSpace);
      }
    }
  }

  /** Lines end at a line feed, vertical tab, form feed, carriage return, at the three
      upper information separators, at U+0085, U+2028 and U+2029, and nowhere else. */
  lemma LinesExactly(a: string, c: char, b: string)
    requires Free(a, IsBreak) && Free(b, IsBreak)
    ensures c as int in {10, 11, 12, 13, 28, 29, 30, 0x85, 0x2028, 0x2029} ==> Split(a + [c] + b, IsBreak) == [a, b]
    ensures c as int !in {10, 11, 12, 13, 28, 29, 30, 0x85, 0x2028, 0x2029} ==>
      Split(a + [c] + b, IsBreak) == [a + [c] + b]
  {
    SplitFree(b, IsBreak);
    if IsBreak(c) { SplitHead(a, c, b, IsBreak); } else { SplitFree(a + [c] + b, IsBreak); }
  }

  lemma {:induction false} LeadingBlanks(blanks: string, text: string)
    requires forall i :: 0 <= i < |blanks| ==> blanks[i] == ' '
    ensures StripLeft(blanks + text, IsSpace) == StripLeft(text, IsSpace)
    decreases |blanks|
  {
    if blanks == "" {
      assert blanks + text == text;
    } else {
      assert (blanks + text)[1..] == blanks[1..] + text;
      LeadingBlanks(blanks[1..], text);
    }
  }

  // ----- the joiner's file

  const PER_PEER_KEYS := {
    "PEER_IPS", "PEER_NAMES", "NODE_NAME", "LOCAL_IP", "ETCD_INITIAL_CLUSTER_STATE", "HOST_REPO_ROOT"
  }

  /** The leader's dictionary in insertion order. */
  type Dict = seq<(string, string)>

  function AsMap(env: Dict): map<string, string> {
    if env == [] then map[] else AsMap(env[..|env| - 1])[env[|env| - 1].0 := env[|env| - 1].1]
  }

  /** A banner of comments and blank lines; its wording does not matter. */
  predicate IsBanner(banner: seq<string>) {
    forall i :: 0 <= i < |banner| ==>
      (banner[i] == "" || banner[i][0] == '#') && Free(banner[i], IsBreak)
  }

  const PEER_KEYS := ["NODE_NAME", "LOCAL_IP", "PEER_IPS", "PEER_NAMES", "ETCD_INITIAL_CLUSTER_STATE"]

  function PeerValues(name: string, ip: string, ips: seq<string>, names: seq<string>): seq<string> {
    [name, ip, Join(ips, ','), Join(names, ','), "existing"]
  }

  function Zip(ks: seq<string>, vs: seq<string>): (d: Dict)
    requires |ks| == |vs|
    ensures |d| == |ks| && forall i :: 0 <= i < |d| ==> d[i] == (ks[i], vs[i])
  {
    seq(|ks|, i requires 0 <= i < |ks| => (ks[i], vs[i]))
  }

  function PeerDict(name: string, ip: string, ips: seq<string>, names: seq<string>): Dict {
    Zip(PEER_KEYS, PeerValues(name, ip, ips, names))
  }

  function EntryLines(env: Dict): seq<string> {
    seq(|env|, i requires 0 <= i < |env| => env[i].0 + "=" + env[i].1)
  }

  function SharedLines(env: Dict, skip: set<string>): seq<string> {
    if env == [] then []
    else
      var (k, v) := env[|env| - 1];
      SharedLines(env[..|env| - 1], skip) + (if k in skip then [] else [k + "=" + v])
  }

  function JoinerLines(banner: seq<string>, env: Dict, name: string, ip: string, ips: seq<string>, names: seq<string>): seq<string> {
    banner + EntryLines(PeerDict(name, ip, ips, names)) + [""]
      + SharedLines(env, PER_PEER_KEYS) + [""]
  }

  /** `_build_joiner_cluster_env`; None is a JoinError. */
  method BuildJoinerEnv(banner: seq<string>, env: Dict, name: string, ip: string, ips: seq<string>, names: seq<string>)
    returns (text: Option<string>)
    ensures text.Some? <==> |names| == |ips| && ip in ips && name in names
    ensures text.Some? ==> text.value == Join(JoinerLines(banner, env, name, ip, ips, names), '\n')
  {
    if |names| != |ips| || ip !in ips || name !in names {
      return None;
    }
    var lines := banner;
    lines := lines + ["NODE_NAME" + "=" + name];
    lines := lines + ["LOCAL_IP" + "=" + ip];
    lines := lines + ["PEER_IPS" + "=" + Join(ips, ',')];
    lines := lines + ["PEER_NAMES" + "=" + Join(names, ',')];
    lines := lines + ["ETCD_INITIAL_CLUSTER_STATE" + "=" + "existing"];
    lines := lines + [""];
    ghost var head := banner + EntryLines(PeerDict(name, ip, ips, names)) + [""];
    assert lines == head;
    for i := 0 to |env|
      invariant lines == head + SharedLines(env[..i], PER_PEER_KEYS)
    {
      assert env[..i + 1][..i] == env[..i];
      var (k, v) := env[i];
      if k !in PER_PEER_KEYS {
        lines := lines + [k + "=" + v];
      }
    }
    assert env[..|env|] == env;
    return Some(Join(lines + [""], '\n'));
  }

  // ----- round trip

  /** Keys as the reader produces them, values on one line. */
  ghost predicate PlainDict(env: Dict) {
    forall i :: 0 <= i < |env| ==> CleanKey(env[i].0) && Free(env[i].1, IsBreak)
  }

  function MapValues(env: Dict, f: string -> string): (r: Dict)
    ensures |r| == |env|
  {
    seq(|env|, i requires 0 <= i < |env| => (env[i].0, f(env[i].1)))
  }

  lemma {:induction false} CollectShared(env: Dict, skip: set<string>, parse: LineParser, f: string -> string)
    requires forall i :: 0 <= i < |env| ==> parse(env[i].0 + "=" + env[i].1) == Some((env[i].0, f(env[i].1)))
    ensures Collect(SharedLines(env, skip), parse) == AsMap(MapValues(env, f)) - skip
  {
    if env != [] {
      var before := env[..|env| - 1];
      CollectShared(before, skip, parse, f);
      var (k, v) := env[|env| - 1];
      assert MapValues(env, f)[..|env| - 1] == MapValues(before, f);
      if k in skip {
        assert SharedLines(env, skip) == SharedLines(before, skip);
      } else {
        assert parse(env[|env| - 1].0 + "=" + env[|env| - 1].1) == Some((k, f(v)));
        CollectOne(k + "=" + v, parse);
        CollectAppend(SharedLines(before, skip), [k + "=" + v], parse);
      }
    }
  }

  lemma ReadShared(env: Dict, skip: set<string>)
    requires PlainDict(env)
    ensures Collect(SharedLines(env, skip), ParseLine) == AsMap(MapValues(env, Unquote)) - skip
  {
    forall i | 0 <= i < |env|
      ensures ParseLine(env[i].0 + "=" + env[i].1) == Some((env[i].0, Unquote(env[i].1)))
    {
      EntryLine(env[i].0, env[i].1);
    }
    CollectShared(env, skip, ParseLine, Unquote);
  }

  lemma {:induction false} SharedLinesAll(env: Dict)
    ensures SharedLines(env, {}) == EntryLines(env)
  {
    if env != [] {
      SharedLinesAll(env[..|env| - 1]);
      assert EntryLines(env) == EntryLines(env[..|env| - 1]) + [env[|env| - 1].0 + "=" + env[|env| - 1].1];
    }
  }

  function PeerEntries(name: string, ip: string, ips: seq<string>, names: seq<string>): map<string, string> {
    map["NODE_NAME" := name, "LOCAL_IP" := ip, "PEER_IPS" := Join(ips, ','),
        "PEER_NAMES" := Join(names, ','), "ETCD_INITIAL_CLUSTER_STATE" := "existing"]
  }

  lemma AsMapSnoc(env: Dict, k: string, v: string)
    ensures AsMap(env + [(k, v)]) == AsMap(env)[k := v]
  {
    assert (env + [(k, v)])[..|env|] == env;
  }

  lemma PeerDictAsMap(name: string, ip: string, ips: seq<string>, names: seq<string>)
    ensures AsMap(PeerDict(name, ip, ips, names)) == PeerEntries(name, ip, ips, names)
  {
    var d := PeerDict(name, ip, ips, names);
    AsMapSnoc([], d[0].0, d[0].1);
    AsMapSnoc(d[..1], d[1].0, d[1].1);
    AsMapSnoc(d[..2], d[2].0, d[2].1);
    AsMapSnoc(d[..3], d[3].0, d[3].1);
    AsMapSnoc(d[..4], d[4].0, d[4].1);
    assert d[..1] == [] + [d[0]] && d[..2] == d[..1] + [d[1]] && d[..3] == d[..2] + [d[2]];
    assert d[..4] == d[..3] + [d[3]] && d == d[..4] + [d[4]];
  }

  /** A shell variable name: letters, digits and underscores. */
  predicate EnvName(k: string) {
    k != "" && forall i :: 0 <= i < |k| ==>
      'A' <= k[i] <= 'Z' || 'a' <= k[i] <= 'z' || '0' <= k[i] <= '9' || k[i] == '_'
  }

  lemma EnvNameIsClean(k: string)
    requires EnvName(k)
    ensures CleanKey(k)
  {
  }

  /** A nonempty word without blanks, quotes or commas. */
  predicate Token(s: string) {
    s != "" && Free(s, IsSpace) && Free(s, IsDouble) && Free(s, IsSingle) && Free(s, IsComma)
  }

  lemma TokenList(xs: seq<string>)
    requires forall i :: 0 <= i < |xs| ==> Token(xs[i])
    ensures Unquote(Join(xs, ',')) == Join(xs, ',') && Free(Join(xs, ','), IsSpace)
  {
    JoinFree(xs, ',', IsSpace);
    JoinFree(xs, ',', IsDouble);
    JoinFree(xs, ',', IsSingle);
    StripFree(Join(xs, ','), IsSpace);
    StripFree(Join(xs, ','), IsDouble);
    StripFree(Join(xs, ','), IsSingle);
  }

  lemma TokenIsPlain(s: string)
    requires Token(s)
    ensures Unquote(s) == s
  {
    StripFree(s, IsSpace);
    StripFree(s, IsDouble);
    StripFree(s, IsSingle);
  }

  lemma SpaceFreeIsBreakFree(s: string)
    requires Free(s, IsSpace)
    ensures Free(s, IsBreak)
  {
    forall i | 0 <= i < |s| ensures !IsBreak(s[i]) { assert !IsSpace(s[i]); }
  }

  lemma {:induction false} CollectNothing(lines: seq<string>, parse: LineParser)
    requires forall i :: 0 <= i < |lines| ==> parse(lines[i]) == None
    ensures Collect(lines, parse) == map[]
  {
    if lines != [] {
      CollectNothing(lines[..|lines| - 1], parse);
    }
  }

  lemma BlankLine()
    ensures ParseLine("") == None
  {
  }

  lemma BannerIsSilent(banner: seq<string>)
    requires IsBanner(banner)
    ensures Collect(banner, ParseLine) == map[]
  {
    forall i | 0 <= i < |banner| ensures ParseLine(banner[i]) == None {
      if banner[i] == "" {
        BlankLine();
      } else {
        assert banner[i] == "#" + banner[i][1..];
        CommentLine(banner[i][1..]);
      }
    }
    CollectNothing(banner, ParseLine);
  }

  ghost predicate Tokens(xs: seq<string>) {
    forall i :: 0 <= i < |xs| ==> Token(xs[i])
  }

  /** A value the reader returns unchanged. */
  predicate CleanValue(v: string) {
    Free(v, IsBreak) && Unquote(v) == v
  }

  lemma CleanPairs(d: Dict)
    requires forall i :: 0 <= i < |d| ==> CleanKey(d[i].0) && CleanValue(d[i].1)
    ensures PlainDict(d) && MapValues(d, Unquote) == d
  {
  }

  lemma PeerKeysAreClean()
    ensures forall i :: 0 <= i < |PEER_KEYS| ==> CleanKey(PEER_KEYS[i])
  {
    assert EnvName("NODE_NAME") && EnvName("LOCAL_IP") && EnvName("PEER_IPS") && EnvName("PEER_NAMES");
    assert EnvName("ETCD_INITIAL_CLUSTER_STATE");
    EveryKey(PEER_KEYS, EnvName);
    forall i | 0 <= i < |PEER_KEYS| ensures CleanKey(PEER_KEYS[i]) {
      EnvNameIsClean(PEER_KEYS[i]);
    }
  }

  lemma EveryKey(xs: seq<string>, p: string -> bool)
    requires |xs| == 5 && p(xs[0]) && p(xs[1]) && p(xs[2]) && p(xs[3]) && p(xs[4])
    ensures forall i :: 0 <= i < |xs| ==> p(xs[i])
  {
    forall i | 0 <= i < |xs| ensures p(xs[i]) {
      assert i == 0 || i == 1 || i == 2 || i == 3 || i == 4;
    }
  }

  lemma TokenIsClean(s: string)
    requires Token(s)
    ensures CleanValue(s)
  {
    TokenIsPlain(s);
    SpaceFreeIsBreakFree(s);
  }

  lemma TokenListIsClean(xs: seq<string>)
    requires Tokens(xs)
    ensures CleanValue(Join(xs, ','))
  {
    TokenList(xs);
    SpaceFreeIsBreakFree(Join(xs, ','));
  }

  lemma PeerValuesAreClean(name: string, ip: string, ips: seq<string>, names: seq<string>)
    requires Token(name) && Token(ip) && Tokens(ips) && Tokens(names)
    ensures var vs := PeerValues(name, ip, ips, names);
            forall i :: 0 <= i < |vs| ==> CleanValue(vs[i])
  {
    ExistingIsClean();
    TokenIsClean(name);
    TokenIsClean(ip);
    TokenListIsClean(ips);
    TokenListIsClean(names);
    FiveOf(name, ip, Join(ips, ','), Join(names, ','), "existing", CleanValue);
  }

  lemma ExistingIsClean()
    ensures CleanValue("existing")
  {
    assert Token("existing");
    TokenIsClean("existing");
  }

  lemma FiveOf(a: string, b: string, c: string, d: string, e: string, p: string -> bool)
    requires p(a) && p(b) && p(c) && p(d) && p(e)
    ensures var vs := [a, b, c, d, e]; forall i :: 0 <= i < |vs| ==> p(vs[i])
  {
    EveryKey([a, b, c, d, e], p);
  }

  lemma CleanPairsAre(ks: seq<string>, vs: seq<string>)
    requires |ks| == |vs|
    requires forall i :: 0 <= i < |ks| ==> CleanKey(ks[i]) && CleanValue(vs[i])
    ensures PlainDict(Zip(ks, vs)) && MapValues(Zip(ks, vs), Unquote) == Zip(ks, vs)
  {
    CleanPairs(Zip(ks, vs));
  }

  lemma PeerDictIsPlain(name: string, ip: string, ips: seq<string>, names: seq<string>)
    requires Token(name) && Token(ip) && Tokens(ips) && Tokens(names)
    ensures PlainDict(PeerDict(name, ip, ips, names))
    ensures MapValues(PeerDict(name, ip, ips, names), Unquote) == PeerDict(name, ip, ips, names)
  {
    var vs := PeerValues(name, ip, ips, names);
    PeerKeysAreClean();
    PeerValuesAreClean(name, ip, ips, names);
    CleanPairsAre(PEER_KEYS, vs);
  }

  lemma ReadPeerLines(name: string, ip: string, ips: seq<string>, names: seq<string>)
    requires Token(name) && Token(ip) && Tokens(ips) && Tokens(names)
    ensures Collect(EntryLines(PeerDict(name, ip, ips, names)), ParseLine) == PeerEntries(name, ip, ips, names)
  {
    var d := PeerDict(name, ip, ips, names);
    PeerDictIsPlain(name, ip, ips, names);
    SharedLinesAll(d);
    ReadShared(d, {});
    PeerDictAsMap(name, ip, ips, names);
  }

  lemma FreeConcat(a: string, b: string, p: char -> bool)
    requires Free(a, p) && Free(b, p)
    ensures Free(a + b, p)
  {
  }

  ghost predicate OneLine(lines: seq<string>) {
    forall i :: 0 <= i < |lines| ==> Free(lines[i], IsBreak)
  }

  lemma {:induction false} SharedLinesAreLines(env: Dict, skip: set<string>)
    requires PlainDict(env)
    ensures OneLine(SharedLines(env, skip))
  {
    if env != [] {
      SharedLinesAreLines(env[..|env| - 1], skip);
      var (k, v) := env[|env| - 1];
      FreeConcat(k, "=", IsBreak);
      FreeConcat(k + "=", v, IsBreak);
    }
  }

  lemma JoinerLinesAreLines(banner: seq<string>, env: Dict, name: string, ip: string, ips: seq<string>, names: seq<string>)
    requires PlainDict(env) && IsBanner(banner)
    requires Token(name) && Token(ip) && Tokens(ips) && Tokens(names)
    ensures OneLine(JoinerLines(banner, env, name, ip, ips, names))
  {
    var d := PeerDict(name, ip, ips, names);
    PeerDictIsPlain(name, ip, ips, names);
    SharedLinesAreLines(d, {});
    SharedLinesAll(d);
    SharedLinesAreLines(env, PER_PEER_KEYS);
  }

  lemma CollectFive(a: seq<string>, b: seq<string>, c: seq<string>, parse: LineParser)
    requires Collect(a, parse) == map[] && parse("") == None
    ensures Collect(a + b + [""] + c + [""], parse) == Collect(b, parse) + Collect(c, parse)
  {
    CollectOne("", parse);
    CollectAppend(a, b, parse);
    CollectAppend(a + b, [""], parse);
    CollectAppend(a + b + [""], c, parse);
    CollectAppend(a + b + [""] + c, [""], parse);
  }

  /** Parsing the file the leader builds gives back the per-peer entries and every
      shared entry with its value stripped once more. */
  lemma JoinerEnvReads(banner: seq<string>, env: Dict, name: string, ip: string, ips: seq<string>, names: seq<string>)
    requires PlainDict(env) && IsBanner(banner)
    requires Token(name) && Token(ip) && Tokens(ips) && Tokens(names)
    ensures ReadEnv(Join(JoinerLines(banner, env, name, ip, ips, names), '\n'))
            == PeerEntries(name, ip, ips, names) + (AsMap(MapValues(env, Unquote)) - PER_PEER_KEYS)
  {
    JoinerLinesAreLines(banner, env, name, ip, ips, names);
    SplitJoin(JoinerLines(banner, env, name, ip, ips, names), '\n', IsBreak);
    BannerIsSilent(banner);
    BlankLine();
    CollectFive(banner, EntryLines(PeerDict(name, ip, ips, names)), SharedLines(env, PER_PEER_KEYS), ParseLine);
    ReadPeerLines(name, ip, ips, names);
    ReadShared(env, PER_PEER_KEYS);
  }

  /** The names that are shared: all but the five the joiner has its own values for
      and the leader's repository path. */
  ghost predicate NotPerPeer(k: string) {
    && k != "NODE_NAME" && k != "LOCAL_IP" && k != "PEER_IPS" && k != "PEER_NAMES"
    && k != "ETCD_INITIAL_CLUSTER_STATE" && k != "HOST_REPO_ROOT"
  }

  /** The joiner's own five entries stand under their names, whatever is shared. */
  lemma OwnEntriesByName(name: string, ip: string, ips: seq<string>, names: seq<string>, m: map<string, string>)
    ensures var got := PeerEntries(name, ip, ips, names) + (m - PER_PEER_KEYS);
            && "NODE_NAME" in got && got["NODE_NAME"] == name && "LOCAL_IP" in got && got["LOCAL_IP"] == ip
            && "PEER_IPS" in got && got["PEER_IPS"] == Join(ips, ',')
            && "PEER_NAMES" in got && got["PEER_NAMES"] == Join(names, ',')
            && "ETCD_INITIAL_CLUSTER_STATE" in got && got["ETCD_INITIAL_CLUSTER_STATE"] == "existing"
  {
  }

  /** Every other entry is the shared one, and the repository path is none of them. */
  lemma SharedEntriesByName(name: string, ip: string, ips: seq<string>, names: seq<string>, m: map<string, string>)
    ensures var got := PeerEntries(name, ip, ips, names) + (m - PER_PEER_KEYS);
            && "HOST_REPO_ROOT" !in got
            && (forall k :: k in m && NotPerPeer(k) ==> k in got && got[k] == m[k])
  {
  }

  /** By name: the joiner gets its own five entries, and of the leader's nothing under
      those names and no repository path. */
  lemma JoinerEnvByName(banner: seq<string>, env: Dict, name: string, ip: string, ips: seq<string>, names: seq<string>)
    requires PlainDict(env) && IsBanner(banner)
    requires Token(name) && Token(ip) && Tokens(ips) && Tokens(names)
    ensures var got := ReadEnv(Join(JoinerLines(banner, env, name, ip, ips, names), '\n'));
            && "NODE_NAME" in got && got["NODE_NAME"] == name && "LOCAL_IP" in got && got["LOCAL_IP"] == ip
            && "PEER_IPS" in got && got["PEER_IPS"] == Join(ips, ',')
            && "PEER_NAMES" in got && got["PEER_NAMES"] == Join(names, ',')
            && "ETCD_INITIAL_CLUSTER_STATE" in got && got["ETCD_INITIAL_CLUSTER_STATE"] == "existing"
            && "HOST_REPO_ROOT" !in got
            && forall k :: k in AsMap(env) && NotPerPeer(k) ==> k in got && got[k] == Unquote(AsMap(env)[k])
  {
    JoinerEnvReads(banner, env, name, ip, ips, names);
    AsMapOfValues(env, Unquote);
    OwnEntriesByName(name, ip, ips, names, AsMap(MapValues(env, Unquote)));
    SharedEntriesByName(name, ip, ips, names, AsMap(MapValues(env, Unquote)));
  }

  lemma {:induction false} AsMapOfValues(env: Dict, f: string -> string)
    ensures AsMap(MapValues(env, f)).Keys == AsMap(env).Keys
    ensures forall k :: k in AsMap(env) ==> AsMap(MapValues(env, f))[k] == f(AsMap(env)[k])
  {
    if env != [] {
      AsMapOfValues(env[..|env| - 1], f);
      assert MapValues(env, f)[..|env| - 1] == MapValues(env[..|env| - 1], f);
    }
  }

  /** Round trip: the joiner reads every shared key exactly as the leader had it if
      and only if the leader's shared values are fixed points of the reader's
      strip. */
  lemma JoinerEnvRoundTrip(banner: seq<string>, env: Dict, name: string, ip: string, ips: seq<string>, names: seq<string>)
    requires PlainDict(env) && IsBanner(banner)
    requires Token(name) && Token(ip) && Tokens(ips) && Tokens(names)
    ensures var got := ReadEnv(Join(JoinerLines(banner, env, name, ip, ips, names), '\n'));
            (got == PeerEntries(name, ip, ips, names) + (AsMap(env) - PER_PEER_KEYS)) <==>
              (forall k :: k in AsMap(env) && k !in PER_PEER_KEYS ==> Unquote(AsMap(env)[k]) == AsMap(env)[k])
  {
    JoinerEnvReads(banner, env, name, ip, ips, names);
    SharedAgree(env, PeerEntries(name, ip, ips, names), PER_PEER_KEYS, Unquote);
  }

  lemma WithoutOwn(own: map<string, string>, m: map<string, string>, skip: set<string>)
    requires own.Keys <= skip
    ensures own + (m - skip) - skip == m - skip
  {
  }

  lemma SharedAgree(env: Dict, own: map<string, string>, skip: set<string>, f: string -> string)
    requires own.Keys <= skip
    ensures (own + (AsMap(MapValues(env, f)) - skip) == own + (AsMap(env) - skip)) <==>
              (forall k :: k in AsMap(env) && k !in skip ==> f(AsMap(env)[k]) == AsMap(env)[k])
  {
    AsMapOfValues(env, f);
    var a, b := own + (AsMap(MapValues(env, f)) - skip), own + (AsMap(env) - skip);
    assert a.Keys == b.Keys;
    if forall k :: k in AsMap(env) && k !in skip ==> f(AsMap(env)[k]) == AsMap(env)[k] {
      assert forall k :: k in a ==> a[k] == b[k];
    } else {
      var k :| k in AsMap(env) && k !in skip && f(AsMap(env)[k]) != AsMap(env)[k];
      assert k !in own && a[k] != b[k];
    }
  }
}
