/** The parts of the etcd client that carry logic of their own: the range end of
    a prefix scan and the retry schedule (daemon/etcd_client.py). */
module Etcd {
  import opened Text

  // ----- prefix scans

  /** The next code point exists; surrogates are not scalar values. */
  predicate CanIncrement(c: char) {
    c as int < 0x10_FFFF && c as int != 0xD7FF
  }

  predicate Scannable(prefix: string) {
    prefix != [] && CanIncrement(prefix[|prefix| - 1])
  }

  /** `_prefix_end`: the last character incremented; "" for the empty prefix. */
  function PrefixEnd(prefix: string): string
    requires prefix == [] || Scannable(prefix)
  {
    if prefix == [] then ""
    else prefix[..|prefix| - 1] + [(prefix[|prefix| - 1] as int + 1) as char]
  }

  /** The server's range read: `[key, end)`, or the single key when `end` is empty; a
      request without a key is refused. */
  function Range<V>(store: map<string, V>, key: string, end: string): Option<map<string, V>> {
    if key == "" then None
    else if end == "" then Some(map k | k in store && k == key :: store[k])
    else Some(map k | k in store && !Before(k, key) && Before(k, end) :: store[k])
  }

  function GetPrefix<V>(store: map<string, V>, prefix: string): Option<map<string, V>>
    requires prefix == [] || Scannable(prefix)
  {
    Range(store, prefix, PrefixEnd(prefix))
  }

  lemma OneCharacter(prefix: string, key: string)
    requires |prefix| == 1 && CanIncrement(prefix[0])
    ensures (!Before(key, prefix) && Before(key, PrefixEnd(prefix))) <==> prefix <= key
  {
    var end := PrefixEnd(prefix);
    assert prefix[1..] == [] && end[1..] == [];
    if key != [] {
      assert !Before(key[1..], []);
      assert Before(key, prefix) <==> key[0] < prefix[0];
      assert Before(key, end) <==> key[0] < end[0];
    }
  }

  lemma {:induction false} PrefixIsInterval(prefix: string, key: string)
    requires Scannable(prefix)
    ensures (!Before(key, prefix) && Before(key, PrefixEnd(prefix))) <==> prefix <= key
  {
    if |prefix| == 1 {
      OneCharacter(prefix, key);
    } else if key != [] && key[0] == prefix[0] {
      assert PrefixEnd(prefix)[1..] == PrefixEnd(prefix[1..]);
      PrefixIsInterval(prefix[1..], key[1..]);
      assert key == [key[0]] + key[1..] && prefix == [prefix[0]] + prefix[1..];
    }
  }

  /** Without an end the range is the one key. */
  lemma RangeOfOneKey<V>(store: map<string, V>, key: string)
    requires key != ""
    ensures var r := Range(store, key, "");
            && r.Some? && r.value.Keys == (if key in store then {key} else {})
            && (key in store ==> r.value[key] == store[key])
  {
  }

  /** A prefix scan is refused for the empty prefix alone, and otherwise returns exactly
      the keys that start with the prefix. */
  lemma ScanIsFilter<V>(store: map<string, V>, prefix: string)
    requires prefix == [] || Scannable(prefix)
    ensures GetPrefix(store, prefix)
            == if prefix == "" then None else Some(map k | k in store && prefix <= k :: store[k])
  {
    if prefix != "" {
      assert PrefixEnd(prefix) != "";
      forall k | k in store
        ensures k in GetPrefix(store, prefix).value <==> prefix <= k
      {
        PrefixIsInterval(prefix, k);
      }
      assert GetPrefix(store, prefix).value == map k | k in store && prefix <= k :: store[k];
    }
  }

  // ----- retry and failover

  /** One HTTP attempt: a connection error, a timeout or a 503 is transient. */
  datatype Reply<+T> = Transient | Rejected(status: nat) | Accepted(body: T)

  datatype PostResult<+T> = Answered(body: T) | Raised(status: nat) | Exhausted

  const DELAYS: seq<nat> := [0, 1, 2, 4, 8, 8, 8]

  function Total(xs: seq<nat>): nat {
    if xs == [] then 0 else Total(xs[..|xs| - 1]) + xs[|xs| - 1]
  }

  lemma {:induction false} TotalPrefix(xs: seq<nat>, k: nat)
    requires k <= |xs|
    ensures Total(xs[..k]) <= Total(xs)
    decreases |xs| - k
  {
    if k < |xs| {
      assert xs[..k + 1][..k] == xs[..k];
      TotalPrefix(xs, k + 1);
    } else {
      assert xs[..k] == xs;
    }
  }

  lemma TotalSnoc(xs: seq<nat>, x: nat)
    ensures Total(xs + [x]) == Total(xs) + x
  {
    assert (xs + [x])[..|xs|] == xs;
  }

  lemma BackoffTotal()
    ensures Total(DELAYS) == 31
  {
    assert DELAYS == [] + [0] + [1] + [2] + [4] + [8] + [8] + [8];
    TotalSnoc([], 0);
    TotalSnoc([] + [0], 1);
    TotalSnoc([] + [0] + [1], 2);
    TotalSnoc([] + [0] + [1] + [2], 4);
    TotalSnoc([] + [0] + [1] + [2] + [4], 8);
    TotalSnoc([] + [0] + [1] + [2] + [4] + [8], 8);
    TotalSnoc([] + [0] + [1] + [2] + [4] + [8] + [8], 8);
  }

  function Sum(xs: seq<real>): real {
    if xs == [] then 0.0 else Sum(xs[..|xs| - 1]) + xs[|xs| - 1]
  }

  /** n attempts of at most `limit` each. */
  function Times(n: nat, limit: real): real {
    if n == 0 then 0.0 else Times(n - 1, limit) + limit
  }

  lemma {:induction false} TimesGrows(n: nat, limit: real)
    requires n <= 7 && limit >= 0.0
    ensures Times(n, limit) <= Times(7, limit)
    decreases 7 - n
  {
    if n < 7 { TimesGrows(n + 1, limit); }
  }

  lemma SevenTimes(limit: real)
    ensures Times(7, limit) == 7.0 * limit
  {
    assert Times(1, limit) == limit && Times(2, limit) == limit + limit;
    assert Times(3, limit) == Times(2, limit) + limit && Times(4, limit) == Times(3, limit) + limit;
    assert Times(5, limit) == Times(4, limit) + limit && Times(6, limit) == Times(5, limit) + limit;
  }

  class EtcdClient {
    const endpoints: nat
    var idx: nat

    constructor (endpoints: nat)
      requires endpoints > 0
      ensures this.endpoints == endpoints && idx == 0
    {
      this.endpoints := endpoints;
      idx := 0;
    }

    /** `_post` against the replies the endpoints would give and the time each attempt
        would take, at most `limit`.  The answer is the first non-transient reply;
        every transient one moves the preferred endpoint on by one; the sleeping in
        between never exceeds 31 s, and the whole call never 31 s and seven
        attempts. */
    method Post<T>(replies: seq<Reply<T>>, took: seq<real>, limit: real)
      returns (r: PostResult<T>, slept: nat, attempts: nat, elapsed: real)
      requires |replies| == |DELAYS| == |took|
      requires forall i :: 0 <= i < |took| ==> 0.0 <= took[i] <= limit
      modifies this
      ensures 1 <= attempts <= 7 && slept == Total(DELAYS[..attempts]) && slept <= 31
      ensures elapsed == slept as real + Sum(took[..attempts]) <= 31.0 + 7.0 * limit
      ensures forall i :: 0 <= i < attempts - 1 ==> replies[i].Transient?
      ensures r.Exhausted? <==> forall i :: 0 <= i < |replies| ==> replies[i].Transient?
      ensures r.Answered? ==> replies[attempts - 1] == Accepted(r.body)
      ensures r.Raised? ==> replies[attempts - 1] == Rejected(r.status)
      ensures idx == old(idx) + (if r.Exhausted? then 7 else attempts - 1)
    {
      BackoffTotal();
      SevenTimes(limit);
      slept, attempts, elapsed := 0, 0, 0.0;
      while attempts < |DELAYS|
        invariant 0 <= attempts <= |DELAYS|
        invariant slept == Total(DELAYS[..attempts])
        invariant elapsed == slept as real + Sum(took[..attempts])
        invariant Sum(took[..attempts]) <= Times(attempts, limit)
        invariant forall i :: 0 <= i < attempts ==> replies[i].Transient?
        invariant idx == old(idx) + attempts
      {
        assert DELAYS[..attempts + 1][..attempts] == DELAYS[..attempts];
        assert took[..attempts + 1][..attempts] == took[..attempts];
        slept := slept + DELAYS[attempts];
        elapsed := elapsed + DELAYS[attempts] as real + took[attempts];
        TotalPrefix(DELAYS, attempts + 1);
        TimesGrows(attempts + 1, limit);
        attempts := attempts + 1;
        match replies[attempts - 1]
        case Transient => idx := idx + 1;
        case Rejected(status) => return Raised(status), slept, attempts, elapsed;
        case Accepted(body) => return Answered(body), slept, attempts, elapsed;
      }
      assert DELAYS[..7] == DELAYS;
      return Exhausted, slept, attempts, elapsed;
    }
  }
}
