/** The topology mirror of daemon/topology.py: seeded by a range scan, then kept by
    a watch that starts after the scan and may lose events when it reconnects. */
module Topology {
  import opened Text
  import opened Etcd

  const PREFIX := "/cluster/topology/peers/"

  datatype Info = Info(ip: string, hostname: string)

  /** A stored value as the two readers see it: a JSON object, an empty string
      (which the watch turns into an empty object and a scan rejects), or text
      that is not JSON. */
  datatype Value = Json(info: Info) | Blank | Malformed

  datatype Change = Put(key: string, value: Value) | Delete(key: string)

  function NameOf(key: string): string
    requires PREFIX <= key
  {
    key[|PREFIX|..]
  }

  function KeyOf(name: string): (key: string)
    ensures PREFIX <= key && NameOf(key) == name
  {
    PREFIX + name
  }

  lemma KeyOfName(key: string)
    requires PREFIX <= key
    ensures KeyOf(NameOf(key)) == key
  {
  }

  // ----- etcd

  /** The store after a history of changes. */
  function StoreAt(h: seq<Change>): map<string, Value> {
    if h == [] then map[]
    else
      var before := StoreAt(h[..|h| - 1]);
      match h[|h| - 1]
      case Put(key, value) => before[key := value]
      case Delete(key) => before - {key}
  }

  /** A scan holds the entry of every registered name, and nothing else. */
  lemma ScanKeys(store: map<string, Value>)
    ensures var raw := GetPrefix(store, PREFIX).value;
            && (forall n :: KeyOf(n) in raw <==> KeyOf(n) in store)
            && (forall k :: k in raw ==> PREFIX <= k && KeyOf(NameOf(k)) == k && k in store && raw[k] == store[k])
  {
    ScanIsFilter(store, PREFIX);
    forall k | k in GetPrefix(store, PREFIX).value ensures KeyOf(NameOf(k)) == k { KeyOfName(k); }
  }

  /** A scan of the prefix, decoded; entries that do not decode are dropped. */
  function Authoritative(store: map<string, Value>): (peers: map<string, Info>)
    ensures forall n :: n in peers <==> KeyOf(n) in store && store[KeyOf(n)].Json?
    ensures forall n :: n in peers ==> peers[n] == store[KeyOf(n)].info
  {
    ScanKeys(store);
    var raw := GetPrefix(store, PREFIX).value;
    map k | k in raw && raw[k].Json? :: NameOf(k) := raw[k].info
  }

  // ----- the mirror

  datatype Notice = Added(now: Info) | Updated(was: Info, now: Info) | Removed(gone: Option<Info>)

  function Look<V>(m: map<string, V>, k: string): Option<V> {
    if k in m then Some(m[k]) else None
  }

  function Absorb(peers: map<string, Info>, ev: Change): map<string, Info> {
    if !(PREFIX <= ev.key) then peers
    else
      var name := NameOf(ev.key);
      match ev
      case Delete(_) => peers - {name}
      case Put(_, Json(info)) => peers[name := info]
      case Put(_, Blank) => peers[name := Info("", "")]
      case Put(_, Malformed) => peers
  }

  /** What `_apply_event` tells the handlers. */
  function Notify(peers: map<string, Info>, ev: Change): seq<Notice> {
    if !(PREFIX <= ev.key) then []
    else
      var was := Look(peers, NameOf(ev.key));
      match ev
      case Delete(_) => [Removed(was)]
      case Put(_, Malformed) => []
      case Put(_, value) =>
        var info := if value.Json? then value.info else Info("", "");
        if was.Some? then [Updated(was.value, info)] else [Added(info)]
  }

  function AbsorbAll(peers: map<string, Info>, evs: seq<Change>): map<string, Info> {
    if evs == [] then peers else Absorb(AbsorbAll(peers, evs[..|evs| - 1]), evs[|evs| - 1])
  }

  function NotifyAll(peers: map<string, Info>, evs: seq<Change>): seq<Notice> {
    if evs == [] then []
    else NotifyAll(peers, evs[..|evs| - 1]) + Notify(AbsorbAll(peers, evs[..|evs| - 1]), evs[|evs| - 1])
  }

  lemma FoldsStep(peers: map<string, Info>, evs: seq<Change>, i: nat)
    requires i < |evs|
    ensures AbsorbAll(peers, evs[..i + 1]) == Absorb(AbsorbAll(peers, evs[..i]), evs[i])
    ensures NotifyAll(peers, evs[..i + 1]) == NotifyAll(peers, evs[..i]) + Notify(AbsorbAll(peers, evs[..i]), evs[i])
  {
    assert evs[..i + 1][..i] == evs[..i];
  }

  // ----- gaps

  /** `seen` lists the revisions after the seed that the watch delivered, in order. */
  ghost predicate Delivery(h: seq<Change>, s: nat, seen: seq<nat>) {
    && s <= |h|
    && (forall i :: 0 <= i < |seen| ==> s <= seen[i] < |h|)
    && (forall i, j :: 0 <= i < j < |seen| ==> seen[i] < seen[j])
  }

  function Pick(h: seq<Change>, seen: seq<nat>): (evs: seq<Change>)
    requires forall i :: 0 <= i < |seen| ==> seen[i] < |h|
    ensures |evs| == |seen| && forall i :: 0 <= i < |seen| ==> evs[i] == h[seen[i]]
  {
    seq(|seen|, i requires 0 <= i < |seen| => h[seen[i]])
  }

  ghost function Mirror(h: seq<Change>, s: nat, seen: seq<nat>): map<string, Info>
    requires Delivery(h, s, seen)
  {
    AbsorbAll(Authoritative(StoreAt(h[..s])), Pick(h, seen))
  }

  ghost predicate LastTouch(h: seq<Change>, key: string, i: nat) {
    i < |h| && h[i].key == key && forall j :: i < j < |h| ==> h[j].key != key
  }

  ghost predicate Untouched(h: seq<Change>, key: string) {
    forall j :: 0 <= j < |h| ==> h[j].key != key
  }

  /** What a change leaves under its key for a scan to decode. */
  function Leaves(c: Change): Option<Info> {
    if c.Put? && c.value.Json? then Some(c.value.info) else None
  }

  /** The two readers decode this change alike. */
  predicate Decodes(c: Change) {
    c.Delete? || c.value.Json?
  }

  lemma {:induction false} StoreByLastTouch(h: seq<Change>, key: string, i: nat)
    requires LastTouch(h, key, i)
    ensures Look(StoreAt(h), key) == if h[i].Put? then Some(h[i].value) else None
  {
    if i < |h| - 1 {
      StoreByLastTouch(h[..|h| - 1], key, i);
    }
  }

  lemma {:induction false} StoreUntouched(h: seq<Change>, key: string)
    requires Untouched(h, key)
    ensures key !in StoreAt(h)
  {
    if h != [] {
      StoreUntouched(h[..|h| - 1], key);
    }
  }

  lemma AbsorbElsewhere(peers: map<string, Info>, ev: Change, name: string)
    requires ev.key != KeyOf(name)
    ensures Look(Absorb(peers, ev), name) == Look(peers, name)
  {
    if PREFIX <= ev.key { KeyOfName(ev.key); }
  }

  lemma {:induction false} MirrorUntouched(peers: map<string, Info>, evs: seq<Change>, name: string)
    requires Untouched(evs, KeyOf(name))
    ensures Look(AbsorbAll(peers, evs), name) == Look(peers, name)
  {
    if evs != [] {
      MirrorUntouched(peers, evs[..|evs| - 1], name);
      AbsorbElsewhere(AbsorbAll(peers, evs[..|evs| - 1]), evs[|evs| - 1], name);
    }
  }

  lemma {:induction false} MirrorByLastTouch(peers: map<string, Info>, evs: seq<Change>, name: string, i: nat)
    requires LastTouch(evs, KeyOf(name), i) && Decodes(evs[i])
    ensures Look(AbsorbAll(peers, evs), name) == Leaves(evs[i])
  {
    if i < |evs| - 1 {
      MirrorByLastTouch(peers, evs[..|evs| - 1], name, i);
      AbsorbElsewhere(AbsorbAll(peers, evs[..|evs| - 1]), evs[|evs| - 1], name);
    }
  }

  /** For every history and every pattern of gaps, the mirror and a fresh read agree
      on each name that was never changed, whose latest change came before the seed,
      or whose latest change was delivered and decodes. */
  lemma {:induction false} AgreesWhereSeen(h: seq<Change>, s: nat, seen: seq<nat>, name: string, i: nat)
    requires Delivery(h, s, seen)
    requires Untouched(h, KeyOf(name))
             || (LastTouch(h, KeyOf(name), i) && (i < s || (i in seen && Decodes(h[i]))))
    ensures Look(Mirror(h, s, seen), name) == Look(Authoritative(StoreAt(h)), name)
  {
    var key, evs := KeyOf(name), Pick(h, seen);
    if Untouched(h, key) {
      StoreUntouched(h, key);
      StoreUntouched(h[..s], key);
      MirrorUntouched(Authoritative(StoreAt(h[..s])), evs, name);
    } else {
      StoreByLastTouch(h, key, i);
      if i < s {
        StoreByLastTouch(h[..s], key, i);
        MirrorUntouched(Authoritative(StoreAt(h[..s])), evs, name);
      } else {
        var k :| 0 <= k < |seen| && seen[k] == i;
        MirrorByLastTouch(Authoritative(StoreAt(h[..s])), evs, name, k);
      }
    }
  }

  lemma {:induction false} TouchedOrNot(h: seq<Change>, key: string) returns (i: nat)
    ensures Untouched(h, key) || LastTouch(h, key, i)
  {
    i := 0;
    if h != [] {
      if h[|h| - 1].key == key {
        i := |h| - 1;
      } else {
        i := TouchedOrNot(h[..|h| - 1], key);
      }
    }
  }

  lemma SameLooks<V>(m: map<string, V>, a: map<string, V>)
    requires forall k :: Look(m, k) == Look(a, k)
    ensures m == a
  {
    assert forall k :: k in m ==> Look(a, k) == Some(m[k]);
    assert forall k :: k in a ==> Look(m, k) == Some(a[k]);
  }

  /** Without a gap, and with entries both readers decode, the mirror is the fresh
      read. */
  lemma {:induction false} NoGapNoDifference(h: seq<Change>, s: nat, seen: seq<nat>)
    requires Delivery(h, s, seen)
    requires forall i :: s <= i < |h| ==> i in seen && Decodes(h[i])
    ensures Mirror(h, s, seen) == Authoritative(StoreAt(h))
  {
    forall name ensures Look(Mirror(h, s, seen), name) == Look(Authoritative(StoreAt(h)), name) {
      var i := TouchedOrNot(h, KeyOf(name));
      AgreesWhereSeen(h, s, seen, name, i);
    }
    SameLooks(Mirror(h, s, seen), Authoritative(StoreAt(h)));
  }

  /** The premises are needed: a change that falls between the scan and the watch
      is lost ... */
  lemma {:induction false} GapDiffers(name: string, info: Info)
    ensures var h := [Put(KeyOf(name), Json(info))];
            name !in Mirror(h, 0, []) && name in Authoritative(StoreAt(h))
  {
    var h := [Put(KeyOf(name), Json(info))];
    StoreByLastTouch(h, KeyOf(name), 0);
    StoreUntouched(h[..0], KeyOf(name));
    MirrorUntouched(Authoritative(StoreAt(h[..0])), Pick(h, []), name);
  }

  /** ... and a delivered value that does not decode leaves the mirror on the entry a
      scan no longer reports. */
  lemma {:induction false} GarbageDiffers(name: string, info: Info)
    ensures var h := [Put(KeyOf(name), Json(info)), Put(KeyOf(name), Malformed)];
            name in Mirror(h, 1, [1]) && name !in Authoritative(StoreAt(h))
  {
    var h := [Put(KeyOf(name), Json(info)), Put(KeyOf(name), Malformed)];
    StoreByLastTouch(h, KeyOf(name), 1);
    StoreByLastTouch(h[..1], KeyOf(name), 0);
    var seed, evs := Authoritative(StoreAt(h[..1])), Pick(h, [1]);
    assert name in seed;
    assert AbsorbAll(seed, evs[..0]) == seed;
    assert Absorb(seed, evs[0]) == seed;
  }

  // ----- conservation

  function Joined(ns: seq<Notice>): nat {
    if ns == [] then 0 else Joined(ns[..|ns| - 1]) + (if ns[|ns| - 1].Added? then 1 else 0)
  }

  function Left(ns: seq<Notice>): nat {
    if ns == [] then 0
    else Left(ns[..|ns| - 1]) + (if ns[|ns| - 1].Removed? && ns[|ns| - 1].gone.Some? then 1 else 0)
  }

  lemma CountLast(ns: seq<Notice>, n: Notice)
    ensures Joined(ns + [n]) == Joined(ns) + (if n.Added? then 1 else 0)
    ensures Left(ns + [n]) == Left(ns) + (if n.Removed? && n.gone.Some? then 1 else 0)
  {
    assert (ns + [n])[..|ns|] == ns;
  }

  lemma CountOne(n: Notice)
    ensures Joined([n]) == (if n.Added? then 1 else 0)
    ensures Left([n]) == (if n.Removed? && n.gone.Some? then 1 else 0)
  {
    CountLast([], n);
    assert [] + [n] == [n];
  }

  lemma DropSize(m: map<string, Info>, k: string)
    ensures |m - {k}| == |m| - (if k in m then 1 else 0)
  {
    assert (m - {k}).Keys == m.Keys - {k};
  }

  lemma PutSize(m: map<string, Info>, k: string, info: Info)
    ensures |m[k := info]| == |m| + (if k in m then 0 else 1)
  {
    assert m[k := info].Keys == m.Keys + {k};
  }

  /** One event: the mirror grows by what its notice says. */
  lemma NoticeCountsChange(m: map<string, Info>, ev: Change)
    ensures |Notify(m, ev)| <= 1
    ensures Joined(Notify(m, ev)) - Left(Notify(m, ev)) == |Absorb(m, ev)| - |m|
  {
    if Notify(m, ev) != [] {
      CountOne(Notify(m, ev)[0]);
      assert Notify(m, ev) == [Notify(m, ev)[0]];
      var name := NameOf(ev.key);
      match ev
      case Delete(_) => DropSize(m, name);
      case Put(_, value) => PutSize(m, name, if value.Json? then value.info else Info("", ""));
    }
  }

  lemma CountsAdd(ns: seq<Notice>, more: seq<Notice>)
    requires |more| <= 1
    ensures Joined(ns + more) == Joined(ns) + Joined(more) && Left(ns + more) == Left(ns) + Left(more)
  {
    if more == [] {
      assert ns + more == ns;
    } else {
      CountLast(ns, more[0]);
      CountOne(more[0]);
      assert more == [more[0]];
    }
  }

  /** ADDED notices minus REMOVED notices that carry an old value is what the mirror
      grew by, for every sequence of events. */
  lemma {:induction false} NoticesCountPeers(peers: map<string, Info>, evs: seq<Change>)
    ensures Joined(NotifyAll(peers, evs)) - Left(NotifyAll(peers, evs)) == |AbsorbAll(peers, evs)| - |peers|
  {
    if evs != [] {
      var before, ev := evs[..|evs| - 1], evs[|evs| - 1];
      NoticesCountPeers(peers, before);
      var m := AbsorbAll(peers, before);
      NoticeCountsChange(m, ev);
      CountsAdd(NotifyAll(peers, before), Notify(m, ev));
    }
  }

  /** `out` is what the entries not in `todo` decode to. */
  ghost predicate Decoded(raw: map<string, Value>, todo: set<string>, out: map<string, Info>) {
    && (forall n :: n in out <==> KeyOf(n) in raw && KeyOf(n) !in todo && raw[KeyOf(n)].Json?)
    && (forall n :: n in out ==> out[n] == raw[KeyOf(n)].info)
  }

  lemma DecodeOne(raw: map<string, Value>, todo: set<string>, out: map<string, Info>, k: string)
    requires Decoded(raw, todo, out) && k in todo && k in raw && PREFIX <= k
    ensures Decoded(raw, todo - {k}, if raw[k].Json? then out[NameOf(k) := raw[k].info] else out)
  {
    KeyOfName(k);
  }

  // ----- the object

  class TopologyWatcher {
    var peers: map<string, Info>
    var notices: seq<Notice>

    constructor ()
      ensures peers == map[] && notices == []
    {
      peers, notices := map[], [];
    }

    /** `authoritative_peers`: decode a scan entry by entry. */
    static method AuthoritativePeers(store: map<string, Value>) returns (out: map<string, Info>)
      ensures out == Authoritative(store)
    {
      ScanKeys(store);
      var raw := GetPrefix(store, PREFIX).value;
      out := map[];
      var todo := raw.Keys;
      while todo != {}
        invariant todo <= raw.Keys
        invariant Decoded(raw, todo, out)
        decreases todo
      {
        var k :| k in todo;
        DecodeOne(raw, todo, out, k);
        todo := todo - {k};
        if raw[k].Json? {
          out := out[NameOf(k) := raw[k].info];
        }
      }
    }

    method Seed(store: map<string, Value>)
      requires peers == map[]
      modifies this`peers
      ensures peers == Authoritative(store)
    {
      peers := AuthoritativePeers(store);
    }

    method ApplyEvent(ev: Change)
      modifies this
      ensures peers == Absorb(old(peers), ev)
      ensures notices == old(notices) + Notify(old(peers), ev)
      ensures !("/cluster/topology/peers/" <= ev.key) ==> peers == old(peers) && notices == old(notices)
      ensures "/cluster/topology/peers/" <= ev.key && ev.Delete? ==>
        var name := ev.key[24..];
        && peers == old(peers) - {name}
        && notices == old(notices) + [Removed(if name in old(peers) then Some(old(peers)[name]) else None)]
      ensures "/cluster/topology/peers/" <= ev.key && ev.Put? && ev.value.Json? ==>
        var name, info := ev.key[24..], ev.value.info;
        && peers == old(peers)[name := info]
        && notices == old(notices) + [if name in old(peers) then Updated(old(peers)[name], info) else Added(info)]
      ensures ev.Put? && ev.value.Malformed? ==> peers == old(peers) && notices == old(notices)
    {
      if !(PREFIX <= ev.key) {
        return;
      }
      var name := NameOf(ev.key);
      var was := Look(peers, name);
      match ev
      case Delete(_) =>
        peers := peers - {name};
        notices := notices + [Removed(was)];
      case Put(_, value) =>
        if value.Malformed? {
          return;
        }
        var info := if value.Json? then value.info else Info("", "");
        peers := peers[name := info];
        notices := notices + [if was.Some? then Updated(was.value, info) else Added(info)];
    }

    /** `run` against the events the watch delivers before it is stopped. */
    method Run(store: map<string, Value>, evs: seq<Change>)
      requires peers == map[] && notices == []
      modifies this
      ensures peers == AbsorbAll(Authoritative(store), evs)
      ensures notices == NotifyAll(Authoritative(store), evs)
      ensures Joined(notices) - Left(notices) == |peers| - |Authoritative(store)|
    {
      Seed(store);
      ghost var seeded := peers;
      for i := 0 to |evs|
        invariant peers == AbsorbAll(seeded, evs[..i])
        invariant notices == NotifyAll(seeded, evs[..i])
      {
        FoldsStep(seeded, evs, i);
        ApplyEvent(evs[i]);
      }
      assert evs[..|evs|] == evs;
      NoticesCountPeers(Authoritative(store), evs);
    }
  }
}
