/** The rolling version-upgrade job (daemon/workers/version_upgrade.py). */
module VersionUpgrade {
  import opened Text
  import opened NodeNames
  import opened ClusterEnv
  import opened Role

  // ----- tags

  /** The digits a string starts with. */
  function Digits(s: string): (d: string)
    ensures d <= s && AllDigits(d)
    ensures |d| < |s| ==> !IsDigit(s[|d|])
  {
    if s != "" && IsDigit(s[0]) then [s[0]] + Digits(s[1..]) else ""
  }

  predicate Numeral(d: string) {
    d != "" && AllDigits(d)
  }

  datatype Pair = Pair(major: string, minor: string, rest: string)

  /** `(\d+)\.(\d+)` at the start of a string, and what follows. */
  function DottedPair(t: string): (r: Option<Pair>)
    ensures r.Some? ==> Reads(t, r.value.major, r.value.minor, r.value.rest)
  {
    var major := Digits(t);
    var dotted := t[|major|..];
    assert t == major + dotted;
    if major == "" || dotted == "" || dotted[0] != '.' then None
    else
      var minor := Digits(dotted[1..]);
      var rest := dotted[1..][|minor|..];
      assert dotted == "." + dotted[1..] && dotted[1..] == minor + rest;
      if minor == "" then None else Some(Pair(major, minor, rest))
  }

  predicate Reads(t: string, a: string, b: string, rest: string) {
    Numeral(a) && Numeral(b) && (rest == "" || !IsDigit(rest[0])) && t == a + ("." + (b + rest))
  }

  function Unprefixed(tag: string): string {
    if tag != "" && tag[0] == 'v' then tag[1..] else tag
  }

  /** `^v?(\d+\.\d+)`: the "X.Y" of a tag. */
  function MajorMinor(tag: string): Option<string> {
    match DottedPair(Unprefixed(tag))
    case None => None
    case Some(p) => Some(p.major + "." + p.minor)
  }

  /** `^v\d+\.\d+\.\d+$`. */
  predicate IsRelease(tag: string) {
    tag != "" && tag[0] == 'v' &&
    match DottedPair(tag[1..])
    case None => false
    case Some(p) => p.rest != "" && p.rest[0] == '.' && Numeral(p.rest[1..])
  }

  lemma ReleaseParses(tag: string)
    requires IsRelease(tag)
    ensures MajorMinor(tag).Some?
  {
  }

  // ----- what tags mean

  predicate Numerals(a: string, b: string, c: string) {
    Numeral(a) && Numeral(b) && Numeral(c)
  }

  /** A release tag. */
  function Tag(a: string, b: string, c: string): string {
    "v" + a + "." + b + "." + c
  }

  lemma {:induction false} DigitsOf(d: string, rest: string)
    requires AllDigits(d) && (rest == "" || !IsDigit(rest[0]))
    ensures Digits(d + rest) == d
    decreases |d|
  {
    if d == "" {
      assert d + rest == rest;
    } else {
      assert (d + rest)[1..] == d[1..] + rest;
      DigitsOf(d[1..], rest);
    }
  }

  lemma PairOf(a: string, b: string, rest: string)
    requires Numeral(a) && Numeral(b) && (rest == "" || !IsDigit(rest[0]))
    ensures DottedPair(a + ("." + (b + rest))) == Some(Pair(a, b, rest))
  {
    var dotted := "." + (b + rest);
    DigitsOf(a, dotted);
    DigitsOf(b, rest);
    assert (a + dotted)[|a|..] == dotted && dotted[1..] == b + rest && (b + rest)[|b|..] == rest;
  }

  lemma PrefixOnly(t: string)
    requires t != "" && t[0] != 'v'
    ensures Unprefixed(t) == t && Unprefixed("v" + t) == t
  {
    assert ("v" + t)[1..] == t;
  }

  /** Two numerals joined by a dot are read off the front of a tag, with or without a
      `v` before them, whatever follows, as long as it does not go on with a digit. */
  lemma MajorMinorOf(a: string, b: string, rest: string)
    requires Numeral(a) && Numeral(b) && (rest == "" || !IsDigit(rest[0]))
    ensures MajorMinor(a + ("." + (b + rest))) == Some(a + "." + b)
    ensures MajorMinor("v" + (a + ("." + (b + rest)))) == Some(a + "." + b)
  {
    var t := a + ("." + (b + rest));
    PairOf(a, b, rest);
    assert t[0] == a[0];
    PrefixOnly(t);
  }

  lemma ParsedParts(tag: string) returns (t: string, p: Pair)
    requires MajorMinor(tag).Some?
    ensures Reads(t, p.major, p.minor, p.rest) && (tag == t || tag == "v" + t)
  {
    t := Unprefixed(tag);
    p := DottedPair(t).value;
    if t != tag { HeadAndTail(tag, 'v'); }
  }

  lemma PartsAreParsed(tag: string, t: string, a: string, b: string, rest: string)
    requires Reads(t, a, b, rest) && (tag == t || tag == "v" + t)
    ensures MajorMinor(tag) == Some(a + "." + b)
  {
    MajorMinorOf(a, b, rest);
  }

  /** No other tag has a major.minor. */
  lemma MajorMinorExactly(tag: string)
    ensures MajorMinor(tag).Some? <==> exists t, a, b, rest :: Reads(t, a, b, rest) && (tag == t || tag == "v" + t)
  {
    if MajorMinor(tag).Some? {
      var t, p := ParsedParts(tag);
    }
    forall t, a, b, rest | Reads(t, a, b, rest) && (tag == t || tag == "v" + t) ensures MajorMinor(tag).Some? {
      PartsAreParsed(tag, t, a, b, rest);
    }
  }

  lemma TagIsRelease(a: string, b: string, c: string)
    requires Numerals(a, b, c)
    ensures IsRelease(Tag(a, b, c)) && MajorMinor(Tag(a, b, c)) == Some(a + "." + b)
  {
    var rest := "." + c;
    var t := a + ("." + (b + rest));
    assert Tag(a, b, c) == "v" + t && ("v" + t)[1..] == t && rest[1..] == c;
    PairOf(a, b, rest);
    MajorMinorOf(a, b, rest);
  }

  lemma PartsOfRelease(tag: string) returns (a: string, b: string, c: string)
    requires IsRelease(tag)
    ensures Numerals(a, b, c) && tag == Tag(a, b, c)
  {
    var p := DottedPair(tag[1..]).value;
    a, b, c := p.major, p.minor, p.rest[1..];
    HeadAndTail(p.rest, '.');
    HeadAndTail(tag, 'v');
    Regrouped(a, b, c);
  }

  lemma HeadAndTail(s: string, c: char)
    requires s != "" && s[0] == c
    ensures s == [c] + s[1..]
  {
  }

  lemma Regrouped(a: string, b: string, c: string)
    ensures "v" + (a + ("." + (b + ("." + c)))) == Tag(a, b, c)
  {
  }

  /** The releases are the tags v, numeral, dot, numeral, dot, numeral. */
  lemma ReleaseExactly(tag: string)
    ensures IsRelease(tag) <==> exists a, b, c :: Numerals(a, b, c) && tag == Tag(a, b, c)
  {
    if IsRelease(tag) {
      var a, b, c := PartsOfRelease(tag);
    }
    if a, b, c :| Numerals(a, b, c) && tag == Tag(a, b, c) {
      TagIsRelease(a, b, c);
    }
  }

  lemma SameParts(a: string, b: string, x: string, y: string)
    requires Numeral(a) && Numeral(b) && Numeral(x) && Numeral(y)
    ensures a + "." + b == x + "." + y <==> a == x && b == y
  {
    if a + "." + b == x + "." + y {
      assert a + "." + b == a + ("." + (b + "")) && x + "." + y == x + ("." + (y + ""));
      PairOf(a, b, "");
      PairOf(x, y, "");
    }
  }

  // ----- copying tags

  predicate VersionChar(c: char) {
    IsDigit(c) || c == '.' || c == 'v'
  }

  lemma ReleaseIsPlain(tag: string)
    requires IsRelease(tag)
    ensures Unquote(tag) == tag
  {
    var a, b, c := PartsOfRelease(tag);
    VersionIsToken(a, b, c);
    TokenIsPlain(tag);
  }

  lemma VersionIsToken(a: string, b: string, c: string)
    requires AllDigits(a) && AllDigits(b) && AllDigits(c)
    ensures Token("v" + a + "." + b + "." + c)
  {
    var s := "v" + a + "." + b + "." + c;
    assert forall i :: 0 <= i < |s| ==> VersionChar(s[i]);
    VersionCharsAreTokens(s);
  }

  lemma VersionCharsAreTokens(s: string)
    requires s != "" && forall i :: 0 <= i < |s| ==> VersionChar(s[i])
    ensures Token(s)
  {
  }

  /** The cross-version guard on the leader's own tag; an absent tag reads as "". */
  predicate MayUpgrade(current: string, target: string) {
    && IsRelease(target)
    && !(current != target && current != "" && MajorMinor(current).Some? && MajorMinor(current) != MajorMinor(target))
  }

  /** Between releases the guard compares exactly the first two numbers. */
  lemma GuardOfReleases(a: string, b: string, c: string, x: string, y: string, z: string)
    requires Numerals(a, b, c) && Numerals(x, y, z)
    ensures MayUpgrade(Tag(a, b, c), Tag(x, y, z)) <==> a == x && b == y
  {
    TagIsRelease(a, b, c);
    TagIsRelease(x, y, z);
    SameParts(a, b, x, y);
    GuardIsExact(Tag(a, b, c), Tag(x, y, z));
  }

  /** A leader whose tag parses can only roll out a tag with the same major.minor. */
  lemma GuardKeepsMinor(current: string, target: string, mm: string)
    requires MajorMinor(current) == Some(mm) && MayUpgrade(current, target)
    ensures MajorMinor(target) == Some(mm)
  {
    ReleaseParses(target);
    assert MajorMinor("") == None;
  }

  // ----- order

  /** Leader first when it is mirrored with an IP, then the others by (suffix, name). */
  ghost predicate IsRollout(order: seq<string>, mirror: map<string, string>, leader: string) {
    && (forall i, j :: 0 <= i < j < |order| ==> order[i] != order[j])
    && (forall n :: n in order <==> n in mirror && mirror[n] != "")
    && (leader in order ==> order[0] == leader)
    && (forall i, j :: 0 <= i < j < |order| && order[i] != leader ==> Precedes(order[i], order[j]))
  }

  /** Sort by key, drop peers without an IP, then the stable sort that moves the
      leader to the front. */
  method RolloutOrder(mirror: map<string, string>, leader: string) returns (order: seq<string>)
    ensures IsRollout(order, mirror, leader)
  {
    var withIp := set n | n in mirror && mirror[n] != "";
    var others := KeepSorted(mirror.Keys, withIp - {leader});
    AscendingDistinct(others);
    order := if leader in withIp then [leader] + others else others;
  }

  // ----- the rollout

  /** How one peer's local upgrade ends: done, or failed before or after its tag was
      rewritten. */
  datatype Local = Succeeds | FailsBefore | FailsAfter

  datatype Result = Refused | Aborted(at: string) | Completed

  /** The tags after the first k peers of the order were rewritten. */
  ghost predicate Rolled(tags: map<string, string>, tags': map<string, string>, order: seq<string>, k: nat, target: string)
    requires k <= |order|
  {
    && tags'.Keys == tags.Keys
    && forall n :: n in tags ==> tags'[n] == if n in order[..k] then target else tags[n]
  }

  lemma RolledNext(tags: map<string, string>, tags': map<string, string>, order: seq<string>, k: nat, target: string)
    requires k < |order| && order[k] in tags && Rolled(tags, tags', order, k, target)
    ensures Rolled(tags, tags'[order[k] := target], order, k + 1, target)
  {
    assert order[..k + 1] == order[..k] + [order[k]];
  }

  /** The run failed at position i of the order, having rewritten the first k tags. */
  ghost predicate StoppedAt(order: seq<string>, local: string -> Local, i: nat, k: nat) {
    && i < |order| && !local(order[i]).Succeeds?
    && k == (if local(order[i]).FailsAfter? then i + 1 else i)
    && forall j :: 0 <= j < i ==> local(order[j]).Succeeds?
  }

  /** The loop over the order: stop at the first peer that fails. */
  method RollOut(tags: map<string, string>, order: seq<string>, target: string, local: string -> Local)
    returns (failed: Option<nat>, ghost k: nat, tags': map<string, string>)
    requires forall n :: n in order ==> n in tags
    ensures k <= |order| && Rolled(tags, tags', order, k, target)
    ensures failed.Some? ==> StoppedAt(order, local, failed.value, k)
    ensures failed.None? ==> k == |order| && forall n :: n in order ==> local(n).Succeeds?
  {
    tags', k, failed := tags, 0, None;
    for i := 0 to |order|
      invariant k == i && Rolled(tags, tags', order, i, target)
      invariant forall j :: 0 <= j < i ==> local(order[j]).Succeeds?
    {
      var name := order[i];
      assert name in order;
      if local(name).FailsBefore? {
        return Some(i), k, tags';
      }
      RolledNext(tags, tags', order, i, target);
      tags' := tags'[name := target];
      k := i + 1;
      if local(name).FailsAfter? {
        return Some(i), k, tags';
      }
    }
    forall n | n in order ensures local(n).Succeeds? {
      var j :| 0 <= j < |order| && order[j] == n;
    }
  }

  /** `run_version_upgrade`.  The peers whose tag changed are a prefix of the order;
      the run completes only when every peer of the order succeeded, and only then is
      the cluster-wide version anchor written. */
  method RunVersionUpgrade(
      tags: map<string, string>, mirror: map<string, string>, leader: string, isLeader: bool, target: string,
      local: string -> Local, anchor: string, anchorLands: bool)
    returns (result: Result, order: seq<string>, ghost k: nat, tags': map<string, string>, anchor': string)
    requires leader in tags && forall n :: n in mirror ==> n in tags
    ensures result.Refused? <==> !isLeader || !MayUpgrade(tags[leader], target)
    ensures forall a, b, c, x, y, z ::
      Numerals(a, b, c) && Numerals(x, y, z) && tags[leader] == Tag(a, b, c) && target == Tag(x, y, z) ==>
        (result.Refused? <==> !isLeader || a != x || b != y)
    ensures result.Refused? ==> tags' == tags && order == []
    ensures !result.Refused? ==> IsRollout(order, mirror, leader)
    ensures k <= |order| && Rolled(tags, tags', order, k, target)
    ensures result.Aborted? ==> exists i: nat :: StoppedAt(order, local, i, k) && order[i] == result.at
    ensures result.Completed? ==> k == |order| && forall n :: n in order ==> local(n).Succeeds?
    ensures anchor' == if result.Completed? && anchorLands then target else anchor
    ensures !result.Refused? ==>
      var e, w := Upgrade(target, order, k), World(tags, leader); Enabled(w, e) && tags' == Apply(w, e).tags
  {
    tags', anchor', order, k := tags, anchor, [], 0;
    forall a, b, c, x, y, z | Numerals(a, b, c) && Numerals(x, y, z)
      ensures MayUpgrade(Tag(a, b, c), Tag(x, y, z)) <==> a == x && b == y
    {
      GuardOfReleases(a, b, c, x, y, z);
    }
    if !isLeader || !MayUpgrade(tags[leader], target) {
      return Refused, order, k, tags', anchor';
    }
    order := RolloutOrder(mirror, leader);
    var failed;
    failed, k, tags' := RollOut(tags, order, target, local);
    RunIsEvent(World(tags, leader), tags', order, k, target);
    if failed.Some? {
      return Aborted(order[failed.value]), order, k, tags', anchor';
    }
    if anchorLands {
      anchor' := target;
    }
    return Completed, order, k, tags', anchor';
  }

  // ----- histories

  /** Every peer's tag parses to the same major.minor and survives being copied. */
  ghost predicate SameMinor(tags: map<string, string>, mm: string) {
    forall n :: n in tags ==> Carries(tags[n], mm)
  }

  predicate Carries(tag: string, mm: string) {
    MajorMinor(tag) == Some(mm) && Unquote(tag) == tag
  }

  lemma TargetCarries(current: string, target: string, mm: string)
    requires Carries(current, mm) && MayUpgrade(current, target)
    ensures Carries(target, mm)
  {
    GuardKeepsMinor(current, target, mm);
    ReleaseIsPlain(target);
  }

  lemma CopyCarries(tag: string, mm: string)
    requires Carries(tag, mm)
    ensures Carries(Unquote(tag), mm)
  {
  }

  lemma RewriteKeeps(tags: map<string, string>, order: seq<string>, target: string, mm: string)
    requires SameMinor(tags, mm) && Carries(target, mm)
    ensures SameMinor(map n | n in tags :: if n in order then target else tags[n], mm)
  {
  }

  datatype World = World(tags: map<string, string>, leader: string)

  /** An upgrade run that got as far as the first k peers of its order, a join served
      by the leader, a leader change, a removal. */
  datatype Event =
    | Upgrade(target: string, order: seq<string>, k: nat)
    | Join(name: string)
    | Elect(name: string)
    | Leave(name: string)

  ghost predicate Enabled(w: World, e: Event) {
    && w.leader in w.tags
    && match e
       case Upgrade(target, order, k) => k <= |order| && MayUpgrade(w.tags[w.leader], target)
       case Join(name) => name !in w.tags
       case Elect(name) => name in w.tags
       case Leave(name) => name != w.leader
  }

  ghost function Apply(w: World, e: Event): World
    requires Enabled(w, e)
  {
    match e
    case Upgrade(target, order, k) =>
      w.(tags := map n | n in w.tags :: if n in order[..k] then target else w.tags[n])
    case Join(name) => w.(tags := w.tags[name := Unquote(w.tags[w.leader])])
    case Elect(name) => w.(leader := name)
    case Leave(name) => w.(tags := w.tags - {name})
  }

  ghost predicate Legal(w: World, run: seq<Event>)
    decreases run
  {
    run == [] || (Enabled(w, run[0]) && Legal(Apply(w, run[0]), run[1..]))
  }

  ghost function After(w: World, run: seq<Event>): World
    requires Legal(w, run)
    decreases run
  {
    if run == [] then w else After(Apply(w, run[0]), run[1..])
  }

  lemma UpdateKeeps(tags: map<string, string>, name: string, tag: string, mm: string)
    requires SameMinor(tags, mm) && Carries(tag, mm)
    ensures SameMinor(tags[name := tag], mm)
  {
  }

  lemma StepKeepsMinor(w: World, e: Event, mm: string)
    requires SameMinor(w.tags, mm) && Enabled(w, e)
    ensures SameMinor(Apply(w, e).tags, mm)
  {
    match e
    case Upgrade(target, order, k) =>
      TargetCarries(w.tags[w.leader], target, mm);
      RewriteKeeps(w.tags, order[..k], target, mm);
    case Join(name) =>
      CopyCarries(w.tags[w.leader], mm);
      UpdateKeeps(w.tags, name, Unquote(w.tags[w.leader]), mm);
    case _ =>
  }

  /** The event `Upgrade` is what a run of the job does to the tags. */
  lemma RunIsEvent(w: World, tags': map<string, string>, order: seq<string>, k: nat, target: string)
    requires k <= |order| && Rolled(w.tags, tags', order, k, target) && Enabled(w, Upgrade(target, order, k))
    ensures tags' == Apply(w, Upgrade(target, order, k)).tags
  {
  }

  /** The member whose election came last. */
  ghost function LastElected(leader: string, run: seq<Event>): string
    decreases run
  {
    if run == [] then leader else LastElected(if run[0].Elect? then run[0].name else leader, run[1..])
  }

  /** The last event that joined or removed a name decides whether it is a peer. */
  ghost function IsPeer(n: string, was: bool, run: seq<Event>): bool
    decreases run
  {
    if run == [] then was
    else IsPeer(n, if run[0] == Join(n) then true else if run[0] == Leave(n) then false else was, run[1..])
  }

  lemma {:induction false} HistoriesTrack(w: World, run: seq<Event>)
    requires Legal(w, run)
    ensures After(w, run).leader == LastElected(w.leader, run)
    ensures forall n :: n in After(w, run).tags <==> IsPeer(n, n in w.tags, run)
    decreases run
  {
    if run != [] {
      HistoriesTrack(Apply(w, run[0]), run[1..]);
    }
  }

  /** Over every history of upgrade jobs that abort anywhere, joins, leader changes and
      removals, every peer keeps the one major.minor the cluster started with, and the
      peers are those who joined and did not leave. */
  lemma {:induction false} HistoriesKeepMinor(w: World, run: seq<Event>, mm: string)
    requires SameMinor(w.tags, mm) && Legal(w, run)
    ensures SameMinor(After(w, run).tags, mm)
    ensures forall n :: n in After(w, run).tags <==> IsPeer(n, n in w.tags, run)
    decreases run
  {
    HistoriesTrack(w, run);
    if run != [] {
      StepKeepsMinor(w, run[0], mm);
      HistoriesKeepMinor(Apply(w, run[0]), run[1..], mm);
    }
  }

  /** The guard looks at the leader's tag only, and lets a release through exactly when
      that tag does not parse or has the same major.minor. */
  lemma GuardIsExact(current: string, target: string)
    requires IsRelease(target)
    ensures MayUpgrade(current, target) <==>
      MajorMinor(current).None? || MajorMinor(current) == MajorMinor(target)
  {
    assert MajorMinor("") == None;
  }
}
