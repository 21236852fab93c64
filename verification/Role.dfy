/** Ordering the peer lists for a joiner (daemon/joining.py) and finding oneself in
    them again on the joiner (lib/role.sh). */
module Role {
  import opened Text
  import opened NodeNames
  import opened ClusterEnv
  import Joining

  // ----- the ordered peer lists

  /** Topology entries with an IP, and the joiner's own. */
  function Combined(topo: map<string, string>, name: string, ip: string): map<string, string> {
    (map n | n in topo && topo[n] != "" :: topo[n])[name := ip]
  }

  function IpsOf(names: seq<string>, peers: map<string, string>): (ips: seq<string>)
    requires forall n :: n in names ==> n in peers
    ensures |ips| == |names| && forall i :: 0 <= i < |names| ==> ips[i] == peers[names[i]]
  {
    seq(|names|, i requires 0 <= i < |names| => peers[names[i]])
  }

  function NamesAfterJoin(topo: map<string, string>, name: string, ip: string): seq<string> {
    Sorted(Combined(topo, name, ip).Keys)
  }

  function IpsAfterJoin(topo: map<string, string>, name: string, ip: string): seq<string> {
    IpsOf(NamesAfterJoin(topo, name, ip), Combined(topo, name, ip))
  }

  /** The joiner stands beside its own IP and every other peer beside its entry. */
  lemma ListsInWords(topo: map<string, string>, name: string, ip: string)
    ensures var names, ips := NamesAfterJoin(topo, name, ip), IpsAfterJoin(topo, name, ip);
            && |names| == |ips| && name in names && ip in ips && Ascending(names)
            && (forall n :: n in names <==> n == name || (n in topo && topo[n] != ""))
            && forall i :: 0 <= i < |names| ==> ips[i] == if names[i] == name then ip else topo[names[i]]
  {
    var names, ips := NamesAfterJoin(topo, name, ip), IpsAfterJoin(topo, name, ip);
    assert name in names;
    var k :| 0 <= k < |names| && names[k] == name;
    assert ips[k] == ip;
    forall i | 0 <= i < |names| ensures ips[i] == if names[i] == name then ip else topo[names[i]] {
      assert names[i] in names;
    }
  }

  /** `_ordered_peer_names_and_ips_after_join`: the two parallel lists. */
  method OrderedPeersAfterJoin(topo: map<string, string>, name: string, ip: string)
    returns (names: seq<string>, ips: seq<string>)
    ensures names == NamesAfterJoin(topo, name, ip) && ips == IpsAfterJoin(topo, name, ip)
    ensures |names| == |ips| && name in names && ip in ips && Ascending(names)
    ensures forall n :: n in names <==> n == name || (n in topo && topo[n] != "")
    ensures forall i :: 0 <= i < |names| ==> ips[i] == if names[i] == name then ip else topo[names[i]]
  {
    var combined: map<string, string> := map[];
    var todo := topo.Keys;
    while todo != {}
      invariant todo <= topo.Keys
      invariant combined == map n | n in topo && n !in todo && topo[n] != "" :: topo[n]
      decreases todo
    {
      var n :| n in todo;
      todo := todo - {n};
      if topo[n] != "" {
        combined := combined[n := topo[n]];
      }
    }
    combined := combined[name := ip];
    names, ips := Sorted(combined.Keys), [];
    for i := 0 to |names|
      invariant |ips| == i && forall k :: 0 <= k < i ==> ips[k] == combined[names[k]]
    {
      assert names[i] in names;
      ips := ips + [combined[names[i]]];
    }
    assert combined == Combined(topo, name, ip);
    assert ips == IpsAfterJoin(topo, name, ip);
    ListsInWords(topo, name, ip);
  }

  // ----- tokens

  lemma DigitsAreTokens(s: string)
    requires s != "" && forall i :: 0 <= i < |s| ==> IsDigit(s[i]) || s[i] == '.'
    ensures Token(s)
  {
  }

  lemma NumberedNameIsToken(name: string)
    requires Suffix(name).Some?
    ensures Token(name)
  {
    var d := name[|STEM|..];
    DigitsAreTokens(d);
    StemIsToken();
    assert name == STEM + d;
    FreeConcat(STEM, d, IsSpace);
    FreeConcat(STEM, d, IsDouble);
    FreeConcat(STEM, d, IsSingle);
    FreeConcat(STEM, d, IsComma);
  }

  lemma StemIsToken()
    ensures Token(STEM)
  {
  }

  lemma {:induction false} PartsCover(s: string, sep: char -> bool, p: char -> bool)
    requires forall k :: 0 <= k < |Split(s, sep)| ==> Free(Split(s, sep)[k], p)
    ensures forall i :: 0 <= i < |s| ==> sep(s[i]) || !p(s[i])
  {
    if s != "" {
      var rest := Split(s[1..], sep);
      var all := Split(s, sep);
      if sep(s[0]) {
        assert forall k :: 0 <= k < |rest| ==> rest[k] == all[k + 1];
      } else {
        assert all[0] == [s[0]] + rest[0] && forall k :: 1 <= k < |rest| ==> rest[k] == all[k];
        assert Free(all[0], p);
        assert forall j :: 0 <= j < |rest[0]| ==> rest[0][j] == all[0][j + 1];
        assert !p(all[0][0]);
      }
      PartsCover(s[1..], sep, p);
      forall i | 0 <= i < |s| ensures sep(s[i]) || !p(s[i]) {
        if i > 0 { assert s[i] == s[1..][i - 1]; }
      }
    }
  }

  lemma Ipv4IsDigitsAndDots(ip: string)
    requires Joining.IsIpv4(ip)
    ensures ip != "" && forall i :: 0 <= i < |ip| ==> IsDigit(ip[i]) || ip[i] == '.'
  {
    var dot := IsDot;
    var other := (c: char) => !IsDigit(c);
    var parts := Split(ip, dot);
    forall k | 0 <= k < |parts| ensures Free(parts[k], other) {
      assert Joining.IsOctet(parts[k]);
    }
    PartsCover(ip, dot, other);
  }

  lemma Ipv4IsToken(ip: string)
    requires Joining.IsIpv4(ip)
    ensures Token(ip)
  {
    Ipv4IsDigitsAndDots(ip);
    DigitsAreTokens(ip);
  }

  // ----- role detection

  datatype Role = Found(index: nat, name: string, ip: string, size: nat) | Died | NeedsHostname

  /** `IFS=',' read -ra`: fields between commas; a trailing empty field is dropped. */
  function ReadArray(s: string): seq<string> {
    var fields := Split(s, IsComma);
    if fields[|fields| - 1] == "" then fields[..|fields| - 1] else fields
  }

  ghost predicate CommaFree(xs: seq<string>) {
    forall i :: 0 <= i < |xs| ==> Free(xs[i], IsComma)
  }

  lemma ReadArrayOf(xs: seq<string>)
    requires |xs| > 0 && CommaFree(xs)
    ensures ReadArray(Join(xs, ',')) == if xs[|xs| - 1] == "" then xs[..|xs| - 1] else xs
  {
    SplitJoin(xs, ',', IsComma);
  }

  lemma EmptyFieldDropped(xs: seq<string>)
    requires CommaFree(xs)
    ensures CommaFree(xs + [""]) && ReadArray(Join(xs + [""], ',')) == xs
  {
    ReadArrayOf(xs + [""]);
    assert (xs + [""])[..|xs|] == xs;
  }

  /** The empty value has no fields, one trailing comma adds none, and a second one
      does. */
  lemma TrailingComma(xs: seq<string>)
    requires |xs| > 0 && xs[|xs| - 1] != "" && CommaFree(xs)
    ensures ReadArray("") == []
    ensures ReadArray(Join(xs, ',')) == xs && ReadArray(Join(xs + [""], ',')) == xs
    ensures ReadArray(Join(xs + ["", ""], ',')) == xs + [""]
  {
    ReadArrayOf(xs);
    EmptyFieldDropped(xs);
    EmptyFieldDropped(xs + [""]);
    assert xs + ["", ""] == xs + [""] + [""];
  }

  function Positional(n: nat): (names: seq<string>)
    ensures |names| == n && forall i :: 0 <= i < n ==> names[i] == NodeName(i + 1)
  {
    seq(n, i requires 0 <= i < n => NodeName(i + 1))
  }

  function NamesFor(peerNames: string, size: nat): seq<string> {
    if peerNames == "" then Positional(size) else ReadArray(peerNames)
  }

  /** The first index of `x` at or after `from`. */
  function Find(xs: seq<string>, x: string, from: nat): (r: Option<nat>)
    requires from <= |xs|
    ensures r.Some? ==> from <= r.value < |xs| && xs[r.value] == x && forall j :: from <= j < r.value ==> xs[j] != x
    ensures r.None? ==> forall j :: from <= j < |xs| ==> xs[j] != x
    decreases |xs| - from
  {
    if from == |xs| then None else if xs[from] == x then Some(from) else Find(xs, x, from + 1)
  }

  function RoleOf(peerIps: string, peerNames: string, nodeName: string, localIp: string): Role {
    var ips := ReadArray(peerIps);
    var names := NamesFor(peerNames, |ips|);
    if |names| != |ips| then Died
    else if nodeName == "" then NeedsHostname
    else match Find(names, nodeName, 0)
         case None => Died
         case Some(i) => Found(i + 1, nodeName, if localIp != "" then localIp else ips[i], |ips|)
  }

  /** Legacy names by position when PEER_NAMES is not set. */
  method PositionalNames(n: nat) returns (names: seq<string>)
    ensures names == Positional(n)
  {
    names := [];
    for i := 0 to n
      invariant names == Positional(i)
    {
      names := names + [NodeName(i + 1)];
    }
  }

  method IndexOf(names: seq<string>, x: string) returns (r: Option<nat>)
    ensures r == Find(names, x, 0)
  {
    for i := 0 to |names|
      invariant Find(names, x, 0) == Find(names, x, i)
    {
      if names[i] == x {
        return Some(i);
      }
    }
    return None;
  }

  /** What an answer says: it dies when the lists differ in length or the name is not
      listed, asks for the hostname when there is no name, and otherwise finds the first
      place of the name. */
  ghost predicate Answers(r: Role, ips: seq<string>, names: seq<string>, nodeName: string, localIp: string) {
    && (r.Died? <==> |names| != |ips| || (nodeName != "" && nodeName !in names))
    && (r.NeedsHostname? <==> |names| == |ips| && nodeName == "")
    && (r.Found? ==>
          && 1 <= r.index <= |ips| && |names| == |ips| && names[r.index - 1] == nodeName
          && nodeName !in names[..r.index - 1]
          && r.name == nodeName && r.size == |ips|
          && r.ip == if localIp != "" then localIp else ips[r.index - 1])
  }

  lemma RoleAnswers(peerIps: string, peerNames: string, nodeName: string, localIp: string)
    ensures Answers(RoleOf(peerIps, peerNames, nodeName, localIp),
                    ReadArray(peerIps), NamesFor(peerNames, |ReadArray(peerIps)|), nodeName, localIp)
  {
    var names := NamesFor(peerNames, |ReadArray(peerIps)|);
    var m := Find(names, nodeName, 0);
    assert m.Some? ==> names[m.value] == nodeName && nodeName !in names[..m.value];
  }

  /** `role_detect` without FORCE_NODE_INDEX; a missing NODE_NAME falls through to
      matching `hostname -I`. */
  method RoleDetect(peerIps: string, peerNames: string, nodeName: string, localIp: string) returns (r: Role)
    ensures r == RoleOf(peerIps, peerNames, nodeName, localIp)
    ensures Answers(r, ReadArray(peerIps), NamesFor(peerNames, |ReadArray(peerIps)|), nodeName, localIp)
  {
    RoleAnswers(peerIps, peerNames, nodeName, localIp);
    var ips := ReadArray(peerIps);
    var names;
    if peerNames != "" {
      names := ReadArray(peerNames);
      if |names| != |ips| {
        return Died;
      }
    } else {
      names := PositionalNames(|ips|);
    }
    if nodeName == "" {
      return NeedsHostname;
    }
    var i := IndexOf(names, nodeName);
    if i.None? {
      return Died;
    }
    return Found(i.value + 1, nodeName, if localIp != "" then localIp else ips[i.value], |ips|);
  }

  /** `_role_resolve_pulsar_host_ip`: the IP beside the first matching name, else the
      first peer's. */
  method ResolvePulsarHostIp(ips: seq<string>, names: seq<string>, host: string) returns (ip: string)
    requires |ips| == |names|
    ensures var m := Find(names, host, 0);
            ip == if m.Some? && ips[m.value] != "" then ips[m.value] else if |ips| > 0 then ips[0] else ""
  {
    ip := "";
    for i := 0 to |ips|
      invariant ip == "" && Find(names, host, 0) == Find(names, host, i)
    {
      if names[i] == host {
        ip := ips[i];
        break;
      }
    }
    if ip == "" && |ips| > 0 {
      ip := ips[0];
    }
  }

  lemma TokensReadBack(xs: seq<string>)
    requires |xs| > 0 && Tokens(xs)
    ensures ReadArray(Join(xs, ',')) == xs && Join(xs, ',') != ""
  {
    forall i | 0 <= i < |xs| ensures Free(xs[i], IsComma) { assert Token(xs[i]); }
    SplitJoin(xs, ',', IsComma);
    assert Token(xs[|xs| - 1]);
    assert Token(xs[0]);
    SplitFree("", IsComma);
  }

  // ----- the joiner finds itself

  ghost predicate NumberedTopology(topo: map<string, string>) {
    forall n :: n in topo ==> Suffix(n).Some? && (topo[n] == "" || Token(topo[n]))
  }

  lemma ListsAreTokens(topo: map<string, string>, name: string, ip: string)
    requires NumberedTopology(topo) && Suffix(name).Some? && Token(ip)
    ensures Tokens(NamesAfterJoin(topo, name, ip)) && Tokens(IpsAfterJoin(topo, name, ip))
  {
    var names, ips := NamesAfterJoin(topo, name, ip), IpsAfterJoin(topo, name, ip);
    forall i | 0 <= i < |names| ensures Token(names[i]) && Token(ips[i]) {
      assert names[i] in names;
      NumberedNameIsToken(names[i]);
    }
  }

  /** The entries of a joiner's file that place it among its peers. */
  ghost predicate Announces(got: map<string, string>, name: string, ip: string, ips: seq<string>, names: seq<string>) {
    && "NODE_NAME" in got && got["NODE_NAME"] == name
    && "LOCAL_IP" in got && got["LOCAL_IP"] == ip
    && "PEER_IPS" in got && got["PEER_IPS"] == Join(ips, ',')
    && "PEER_NAMES" in got && got["PEER_NAMES"] == Join(names, ',')
  }

  lemma PeerEntriesStand(name: string, ip: string, ips: seq<string>, names: seq<string>, m: map<string, string>)
    ensures Announces(PeerEntries(name, ip, ips, names) + (m - PER_PEER_KEYS), name, ip, ips, names)
  {
  }

  /** From the leader's topology and environment to the joiner's own role: the file's
      two comma lists split back into lists of equal length, sorted strictly by
      (suffix, name), that hold exactly the topology and the joiner; and role
      detection on the parsed entries succeeds at the one index that holds the
      joiner's name, where its own IP stands too. */
  lemma JoinerFindsItself(banner: seq<string>, env: Dict, topo: map<string, string>, name: string, ip: string)
    requires PlainDict(env) && IsBanner(banner)
    requires NumberedTopology(topo) && Suffix(name).Some? && Joining.IsIpv4(ip)
    ensures
      var names, ips := NamesAfterJoin(topo, name, ip), IpsAfterJoin(topo, name, ip);
      && Announces(ReadEnv(Join(JoinerLines(banner, env, name, ip, ips, names), '\n')), name, ip, ips, names)
      && SelfLocated(topo, name, ip)
  {
    Ipv4IsToken(ip);
    NumberedNameIsToken(name);
    ListsAreTokens(topo, name, ip);
    var names, ips := NamesAfterJoin(topo, name, ip), IpsAfterJoin(topo, name, ip);
    JoinerEnvReads(banner, env, name, ip, ips, names);
    PeerEntriesStand(name, ip, ips, names, AsMap(MapValues(env, Unquote)));
    ListsLocate(topo, name, ip);
  }

  /** What the two comma lists of a joiner's file say to role detection. */
  ghost predicate SelfLocated(topo: map<string, string>, name: string, ip: string) {
    var names, ips := NamesAfterJoin(topo, name, ip), IpsAfterJoin(topo, name, ip);
    && ReadArray(Join(names, ',')) == names && ReadArray(Join(ips, ',')) == ips
    && |names| == |ips| && Ascending(names)
    && (forall n :: n in names <==> n == name || (n in topo && topo[n] != ""))
    && exists i ::
         && 0 <= i < |names| && names[i] == name && ips[i] == ip
         && (forall j :: 0 <= j < |names| && names[j] == name ==> j == i)
         && RoleOf(Join(ips, ','), Join(names, ','), name, ip) == Found(i + 1, name, ip, |names|)
  }

  lemma ListsLocate(topo: map<string, string>, name: string, ip: string)
    requires NumberedTopology(topo) && Suffix(name).Some? && Token(ip)
    ensures SelfLocated(topo, name, ip)
  {
    NumberedNameIsToken(name);
    ListsAreTokens(topo, name, ip);
    var names, ips := NamesAfterJoin(topo, name, ip), IpsAfterJoin(topo, name, ip);
    var i := WhereJoinerStands(topo, name, ip);
    TokensReadBack(names);
    TokensReadBack(ips);
    RoleAt(names, ips, name, ip, i);
  }

  lemma WhereJoinerStands(topo: map<string, string>, name: string, ip: string) returns (i: nat)
    ensures var names, ips := NamesAfterJoin(topo, name, ip), IpsAfterJoin(topo, name, ip);
            && i < |names| && names[i] == name && ips[i] == ip
            && (forall j :: 0 <= j < |names| && names[j] == name ==> j == i)
  {
    var names := NamesAfterJoin(topo, name, ip);
    AscendingDistinct(names);
    assert name in Combined(topo, name, ip).Keys && name in names;
    i :| 0 <= i < |names| && names[i] == name;
  }

  lemma RoleAt(names: seq<string>, ips: seq<string>, name: string, ip: string, i: nat)
    requires |names| == |ips| && i < |names| && names[i] == name
    requires forall j :: 0 <= j < |names| && names[j] == name ==> j == i
    requires Tokens(names) && Tokens(ips) && Token(name) && Token(ip)
    ensures RoleOf(Join(ips, ','), Join(names, ','), name, ip) == Found(i + 1, name, ip, |names|)
  {
    TokensReadBack(names);
    TokensReadBack(ips);
  }
}
