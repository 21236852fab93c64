/** Peer names: the `node-N` convention, the order peers are listed in, and the
    allocation of the next name (daemon/joining.py). */
module NodeNames {
  import opened Text

  const STEM := "node-"
  const UNNUMBERED := 1_000_000_000

  function NodeName(n: nat): string {
    STEM + Show(n)
  }

  /** The N of a name `node-N`; None for any other name. */
  function Suffix(name: string): Option<nat> {
    if STEM <= name && |name| > |STEM| && AllDigits(name[|STEM|..])
    then Some(Value(name[|STEM|..]))
    else None
  }

  lemma SuffixOfNodeName(n: nat)
    ensures Suffix(NodeName(n)) == Some(n)
  {
    ValueOfShow(n);
    assert NodeName(n)[|STEM|..] == Show(n);
  }

  // ----- order

  function KeyNumber(name: string): nat {
    match Suffix(name)
    case Some(n) => n
    case None => UNNUMBERED
  }

  /** Strict order of the sort key (suffix, name). */
  predicate Precedes(a: string, b: string) {
    KeyNumber(a) < KeyNumber(b) || (KeyNumber(a) == KeyNumber(b) && Before(a, b))
  }

  /** Numbered names are ordered by number, whatever their digits spell: node-2 before
      node-10. */
  lemma NumbersDecide(a: nat, b: nat)
    ensures Precedes(NodeName(a), NodeName(b)) <==> a < b
  {
    SuffixOfNodeName(a);
    SuffixOfNodeName(b);
    BeforeIrreflexive(NodeName(a));
  }

  /** A name of another form comes after every number below a thousand million, and among
      its like in the order of characters. */
  lemma OthersComeLast(a: nat, x: string, y: string)
    requires Suffix(x).None? && Suffix(y).None?
    ensures a < 1_000_000_000 ==> Precedes(NodeName(a), x)
    ensures Precedes(x, y) <==> Before(x, y)
  {
    SuffixOfNodeName(a);
  }

  /** The names that count as numbered are `node-` and digits. */
  lemma SuffixExactly(name: string)
    ensures Suffix(name).Some? <==> exists d :: d != "" && AllDigits(d) && name == "node-" + d
    ensures forall d :: d != "" && AllDigits(d) && name == "node-" + d ==> Suffix(name) == Some(Value(d))
  {
    if Suffix(name).Some? {
      assert name == "node-" + name[5..];
    }
    forall d | d != "" && AllDigits(d) && name == "node-" + d ensures Suffix(name) == Some(Value(d)) {
      assert name[5..] == d;
    }
  }

  lemma PrecedesOrder(a: string, b: string, c: string)
    ensures !Precedes(a, a)
    ensures a == b || Precedes(a, b) || Precedes(b, a)
    ensures Precedes(a, b) && Precedes(b, c) ==> Precedes(a, c)
    ensures !(Precedes(a, b) && Precedes(b, a))
  {
    BeforeIrreflexive(a);
    BeforeTotal(a, b);
    if Before(a, b) && Before(b, c) {
      BeforeTransitive(a, b, c);
    }
    if Before(a, b) && Before(b, a) {
      BeforeTransitive(a, b, a);
    }
  }

  predicate IsLeast(m: string, s: set<string>) {
    m in s && forall n :: n in s && n != m ==> Precedes(m, n)
  }

  lemma {:induction false} LeastExists(s: set<string>)
    requires s != {}
    ensures exists m :: IsLeast(m, s)
  {
    var x :| x in s;
    var rest := s - {x};
    if rest == {} {
      assert s == {x};
      assert IsLeast(x, s);
    } else {
      LeastExists(rest);
      var m :| IsLeast(m, rest);
      PrecedesOrder(m, x, x);
      var w := if Precedes(x, m) then x else m;
      forall n | n in s && n != w
        ensures Precedes(w, n)
      {
        PrecedesOrder(x, m, n);
        PrecedesOrder(m, x, n);
      }
      assert IsLeast(w, s);
    }
  }

  lemma LeastUnique(a: string, b: string, s: set<string>)
    requires IsLeast(a, s) && IsLeast(b, s)
    ensures a == b
  {
    PrecedesOrder(a, b, a);
  }

  function Least(s: set<string>): (m: string)
    requires s != {}
    ensures IsLeast(m, s)
  {
    LeastExists(s);
    assert forall a, b :: IsLeast(a, s) && IsLeast(b, s) ==> a == b by {
      forall a, b | IsLeast(a, s) && IsLeast(b, s) ensures a == b { LeastUnique(a, b, s); }
    }
    var m :| m in s && IsLeast(m, s);
    m
  }

  ghost predicate Ascending(xs: seq<string>) {
    forall i, j :: 0 <= i < j < |xs| ==> Precedes(xs[i], xs[j])
  }

  /** `sorted(names, key=_node_sort_key)`. */
  function Sorted(s: set<string>): (xs: seq<string>)
    ensures forall n :: n in xs <==> n in s
    ensures Ascending(xs)
    decreases |s|
  {
    if s == {} then []
    else
      var m := Least(s);
      [m] + Sorted(s - {m})
  }

  /** The listing is determined by the set: any strictly ascending listing of
      the same names is the one `Sorted` returns. */
  lemma {:induction false} SortedUnique(s: set<string>, ys: seq<string>)
    requires Ascending(ys)
    requires forall n :: n in ys <==> n in s
    ensures ys == Sorted(s)
    decreases |s|
  {
    if ys == [] {
      assert forall n :: n in s ==> n in ys;
    } else {
      assert ys[0] in s;
      var m := Least(s);
      var i :| 0 <= i < |ys| && ys[i] == m;
      if i > 0 {
        assert Precedes(ys[0], ys[i]) && ys[0] in s;
        PrecedesOrder(m, ys[0], m);
      }
      assert i == 0;
      var rest := ys[1..];
      forall n ensures n in rest <==> n in s - {m} {
        if n in rest {
          var k :| 0 <= k < |rest| && rest[k] == n;
          assert n == ys[k + 1] && Precedes(ys[0], ys[k + 1]);
          PrecedesOrder(m, m, m);
          assert n in ys;
        }
        if n in s - {m} {
          var k :| 0 <= k < |ys| && ys[k] == n;
          assert n == rest[k - 1];
        }
      }
      SortedUnique(s - {m}, rest);
      assert ys == [ys[0]] + rest;
    }
  }

  lemma AscendingDistinct(xs: seq<string>)
    requires Ascending(xs)
    ensures forall i, j :: 0 <= i < j < |xs| ==> xs[i] != xs[j]
  {
    forall i, j | 0 <= i < j < |xs| ensures xs[i] != xs[j] {
      PrecedesOrder(xs[i], xs[j], xs[i]);
    }
  }

  /** The loop `for name in sorted(..): if wanted: append`. */
  method KeepSorted(all: set<string>, wanted: set<string>) returns (kept: seq<string>)
    ensures Ascending(kept)
    ensures forall n :: n in kept <==> n in all && n in wanted
    ensures kept == Sorted(all * wanted)
  {
    var names := Sorted(all);
    kept := [];
    for i := 0 to |names|
      invariant Ascending(kept)
      invariant forall n :: n in kept <==> n in names[..i] && n in wanted
    {
      assert names[..i + 1] == names[..i] + [names[i]];
      if names[i] in wanted {
        forall k | 0 <= k < |kept| ensures Precedes(kept[k], names[i]) {
          assert kept[k] in kept;
        }
        kept := kept + [names[i]];
      }
    }
    assert names[..|names|] == names;
    SortedUnique(all * wanted, kept);
  }

  // ----- allocation

  function Elems(xs: seq<string>): set<string> {
    set x | x in xs
  }

  function Used(names: set<string>): set<nat> {
    set n | n in names && Suffix(n).Some? :: Suffix(n).value
  }

  lemma {:induction false} UsedSize(names: set<string>)
    ensures |Used(names)| <= |names|
  {
    if names != {} {
      var x :| x in names;
      UsedSize(names - {x});
      var extra: set<nat> := if Suffix(x).Some? then {Suffix(x).value} else {};
      assert Used(names) == Used(names - {x}) + extra;
    }
  }

  lemma {:induction false} LeadingRunSize(s: set<nat>, n: nat)
    requires n >= 1 && forall i :: 1 <= i < n ==> i in s
    ensures n - 1 <= |s|
  {
    if n > 1 {
      LeadingRunSize(s - {n - 1}, n - 1);
    }
  }

  lemma LeadingRunIsShort(names: set<string>, n: nat)
    requires n >= 1 && forall i :: 1 <= i < n ==> i in Used(names)
    ensures n <= |names| + 1
  {
    UsedSize(names);
    LeadingRunSize(Used(names), n);
  }

  /** The smallest suffix no existing name uses. */
  ghost predicate IsNextSuffix(names: set<string>, n: nat) {
    n >= 1 && n !in Used(names) && forall i :: 1 <= i < n ==> i in Used(names)
  }

  lemma UsedInWords(existing: seq<string>)
    ensures forall m: nat :: m in Used(Elems(existing)) <==> exists i :: 0 <= i < |existing| && Suffix(existing[i]) == Some(m)
  {
    forall m: nat
      ensures m in Used(Elems(existing)) <==> exists i :: 0 <= i < |existing| && Suffix(existing[i]) == Some(m)
    {
      if m in Used(Elems(existing)) {
        var x :| x in Elems(existing) && Suffix(x) == Some(m);
        var i :| 0 <= i < |existing| && existing[i] == x;
      }
      if i :| 0 <= i < |existing| && Suffix(existing[i]) == Some(m) {
        assert existing[i] in Elems(existing);
      }
    }
  }

  /** `_allocate_next_name`: collects the used suffixes name by name, then counts
      up from 1 past every used one. */
  method AllocateNextName(existing: seq<string>) returns (name: string, ghost n: nat)
    ensures name == NodeName(n) && name !in existing
    ensures IsNextSuffix(Elems(existing), n) && n == NextSuffix(Elems(existing))
    ensures n <= |Elems(existing)| + 1
    ensures n >= 1 && forall i :: 0 <= i < |existing| ==> Suffix(existing[i]) != Some(n)
    ensures forall m: nat :: 1 <= m < n ==> exists i :: 0 <= i < |existing| && Suffix(existing[i]) == Some(m)
  {
    ghost var names := Elems(existing);
    var used: set<nat> := {};
    for k := 0 to |existing|
      invariant used == Used(Elems(existing[..k]))
    {
      var s := Suffix(existing[k]);
      assert Elems(existing[..k + 1]) == Elems(existing[..k]) + {existing[k]};
      if s.Some? {
        used := used + {s.value};
      }
    }
    assert existing[..|existing|] == existing;
    var m := 1;
    while m in used
      invariant m >= 1 && forall i :: 1 <= i < m ==> i in used
      decreases |names| + 2 - m
    {
      LeadingRunIsShort(names, m);
      m := m + 1;
    }
    LeadingRunIsShort(names, m);
    SuffixOfNodeName(m);
    assert NodeName(m) in existing ==> m in Used(names);
    name, n := NodeName(m), m;
    NextSuffixUnique(names, n, NextSuffix(names));
    UsedInWords(existing);
  }

  /** The same allocation as a function of the set of names. */
  ghost function NextSuffix(names: set<string>): (n: nat)
    ensures IsNextSuffix(names, n)
    ensures n <= |names| + 1
    ensures NodeName(n) !in names
  {
    NextSuffixExists(names);
    var n :| IsNextSuffix(names, n);
    LeadingRunIsShort(names, n);
    SuffixOfNodeName(n);
    n
  }

  lemma NextSuffixUnique(names: set<string>, a: nat, b: nat)
    requires IsNextSuffix(names, a) && IsNextSuffix(names, b)
    ensures a == b
  {
  }

  lemma NextSuffixExists(names: set<string>)
    ensures exists n :: IsNextSuffix(names, n)
  {
    var m := 1;
    while m in Used(names)
      invariant m >= 1 && forall i :: 1 <= i < m ==> i in Used(names)
      decreases |names| + 2 - m
    {
      LeadingRunIsShort(names, m);
      m := m + 1;
    }
    assert IsNextSuffix(names, m);
  }
}
