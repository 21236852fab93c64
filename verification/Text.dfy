/** String helpers shared by every component: lexicographic order, decimal
    numerals, splitting, joining and stripping. */
module Text {

  datatype Option<+T> = None | Some(value: T)

  /** Strict lexicographic order on code points.  Section 1 of RFC 3629 makes it
      the same order as the byte order etcd uses on UTF-8 keys. */
  predicate Before(a: string, b: string)
  {
    b != [] && (a == [] || a[0] < b[0] || (a[0] == b[0] && Before(a[1..], b[1..])))
  }

  lemma {:induction false} BeforeIrreflexive(a: string)
    ensures !Before(a, a)
  {
    if a != [] {
      BeforeIrreflexive(a[1..]);
    }
  }

  lemma {:induction false} BeforeTransitive(a: string, b: string, c: string)
    requires Before(a, b) && Before(b, c)
    ensures Before(a, c)
  {
    if a != [] && a[0] == b[0] == c[0] {
      BeforeTransitive(a[1..], b[1..], c[1..]);
    }
  }

  lemma {:induction false} BeforeTotal(a: string, b: string)
    ensures a == b || Before(a, b) || Before(b, a)
  {
    if a != [] && b != [] && a[0] == b[0] {
      BeforeTotal(a[1..], b[1..]);
      assert a == [a[0]] + a[1..] && b == [b[0]] + b[1..];
    }
  }

  // ----- decimal numerals

  predicate IsDigit(c: char) {
    '0' <= c <= '9'
  }

  predicate AllDigits(s: string) {
    forall i :: 0 <= i < |s| ==> IsDigit(s[i])
  }

  function Show(n: nat): (s: string)
    ensures |s| > 0 && AllDigits(s)
  {
    if n < 10 then ['0' + n as char] else Show(n / 10) + ['0' + (n % 10) as char]
  }

  function Value(s: string): nat
    requires AllDigits(s)
  {
    if s == [] then 0
    else Value(s[..|s| - 1]) * 10 + (s[|s| - 1] as int - '0' as int)
  }

  lemma {:induction false} ValueOfShow(n: nat)
    ensures Value(Show(n)) == n
  {
    if n >= 10 {
      ValueOfShow(n / 10);
      assert Show(n)[..|Show(n)| - 1] == Show(n / 10);
    } else {
      assert Show(n)[..0] == [];
    }
  }

  // ----- parts of a string

  predicate Contains(s: string, t: string) {
    t <= s || (s != "" && Contains(s[1..], t))
  }

  predicate EndsWith(s: string, t: string) {
    |t| <= |s| && s[|s| - |t|..] == t
  }

  lemma {:induction false} ContainsSomewhere(s: string, t: string) returns (i: nat)
    requires Contains(s, t)
    ensures i + |t| <= |s| && s[i..i + |t|] == t
  {
    i := 0;
    if t <= s {
      assert s[0..|t|] == t;
    } else {
      var j := ContainsSomewhere(s[1..], t);
      i := j + 1;
      assert s[i..i + |t|] == s[1..][j..j + |t|];
    }
  }

  lemma {:induction false} ContainedAt(s: string, t: string, i: nat)
    requires i + |t| <= |s| && s[i..i + |t|] == t
    ensures Contains(s, t)
    decreases i
  {
    if i == 0 {
      assert t == s[..|t|];
    } else {
      assert s[1..][i - 1..i - 1 + |t|] == s[i..i + |t|];
      ContainedAt(s[1..], t, i - 1);
    }
  }

  // ----- splitting and joining

  /** The fields of `s` between the characters that satisfy `sep`. */
  function Split(s: string, sep: char -> bool): (r: seq<string>)
    ensures |r| > 0
  {
    if s == [] then [""]
    else
      var rest := Split(s[1..], sep);
      if sep(s[0]) then [""] + rest else [[s[0]] + rest[0]] + rest[1..]
  }

  predicate IsDot(c: char) { c == '.' }

  predicate Free(s: string, sep: char -> bool) {
    forall i :: 0 <= i < |s| ==> !sep(s[i])
  }

  lemma {:induction false} SplitFree(s: string, sep: char -> bool)
    requires Free(s, sep)
    ensures Split(s, sep) == [s]
  {
    if s != [] {
      SplitFree(s[1..], sep);
      assert s == [s[0]] + s[1..];
    }
  }

  lemma {:induction false} SplitHead(x: string, c: char, rest: string, sep: char -> bool)
    requires Free(x, sep) && sep(c)
    ensures Split(x + [c] + rest, sep) == [x] + Split(rest, sep)
  {
    var s := x + [c] + rest;
    if x == [] {
      assert s[1..] == rest;
    } else {
      assert s[1..] == x[1..] + [c] + rest;
      SplitHead(x[1..], c, rest, sep);
      assert x == [x[0]] + x[1..];
    }
  }

  function Join(xs: seq<string>, c: char): string {
    if |xs| == 0 then ""
    else if |xs| == 1 then xs[0]
    else xs[0] + [c] + Join(xs[1..], c)
  }

  lemma {:induction false} SplitJoin(xs: seq<string>, c: char, sep: char -> bool)
    requires |xs| > 0 && sep(c)
    requires forall i :: 0 <= i < |xs| ==> Free(xs[i], sep)
    ensures Split(Join(xs, c), sep) == xs
  {
    if |xs| == 1 {
      SplitFree(xs[0], sep);
    } else {
      SplitJoin(xs[1..], c, sep);
      SplitHead(xs[0], c, Join(xs[1..], c), sep);
    }
  }

  lemma JoinCons(x: string, xs: seq<string>, c: char)
    requires |xs| > 0
    ensures Join([x] + xs, c) == x + [c] + Join(xs, c)
  {
    assert ([x] + xs)[1..] == xs;
  }

  lemma JoinPrepend(a: char, xs: seq<string>, c: char)
    requires |xs| > 0
    ensures Join([[a] + xs[0]] + xs[1..], c) == [a] + Join(xs, c)
  {
    if |xs| == 1 {
      assert [[a] + xs[0]] + xs[1..] == [[a] + xs[0]];
    } else {
      JoinCons([a] + xs[0], xs[1..], c);
    }
  }

  lemma {:induction false} SplitIsFree(s: string, sep: char -> bool)
    ensures forall i :: 0 <= i < |Split(s, sep)| ==> Free(Split(s, sep)[i], sep)
  {
    if s != [] {
      SplitIsFree(s[1..], sep);
    }
  }

  lemma {:induction false} JoinSplit(s: string, c: char, sep: char -> bool)
    requires forall x :: sep(x) <==> x == c
    ensures Join(Split(s, sep), c) == s
  {
    if s != [] {
      JoinSplit(s[1..], c, sep);
      var rest := Split(s[1..], sep);
      assert s == [s[0]] + s[1..];
      if sep(s[0]) {
        JoinCons("", rest, c);
      } else {
        JoinPrepend(s[0], rest, c);
      }
    }
  }

  /** Joining elements that avoid `p` with a separator that avoids it gives a
      string that avoids it. */
  lemma {:induction false} JoinFree(xs: seq<string>, c: char, p: char -> bool)
    requires forall i :: 0 <= i < |xs| ==> Free(xs[i], p)
    requires !p(c)
    ensures Free(Join(xs, c), p)
  {
    if |xs| > 1 {
      JoinFree(xs[1..], c, p);
    }
  }

  // ----- stripping

  function StripLeft(s: string, p: char -> bool): string {
    if s != [] && p(s[0]) then StripLeft(s[1..], p) else s
  }

  function StripRight(s: string, p: char -> bool): string {
    if s != [] && p(s[|s| - 1]) then StripRight(s[..|s| - 1], p) else s
  }

  function Strip(s: string, p: char -> bool): string {
    StripRight(StripLeft(s, p), p)
  }

  lemma {:induction false} StripLeftEnds(s: string, p: char -> bool)
    ensures var r := StripLeft(s, p);
            (r == [] || !p(r[0])) && |r| <= |s| && r == s[|s| - |r|..]
  {
    if s != [] && p(s[0]) {
      StripLeftEnds(s[1..], p);
    }
  }

  lemma {:induction false} StripRightEnds(s: string, p: char -> bool)
    ensures var r := StripRight(s, p); r <= s && (r == [] || !p(r[|r| - 1]))
  {
    if s != [] && p(s[|s| - 1]) {
      StripRightEnds(s[..|s| - 1], p);
    }
  }

  /** What is left has nothing to strip, and is a slice of the original. */
  lemma StripEnds(s: string, p: char -> bool) returns (i: nat)
    ensures Tight(Strip(s, p), p)
    ensures i + |Strip(s, p)| <= |s| && Strip(s, p) == s[i..i + |Strip(s, p)|]
  {
    StripLeftEnds(s, p);
    var left := StripLeft(s, p);
    StripRightEnds(left, p);
    i := |s| - |left|;
    assert Strip(s, p) == left[..|Strip(s, p)|];
  }

  /** Nothing to strip at either end. */
  predicate Tight(s: string, p: char -> bool) {
    s == [] || (!p(s[0]) && !p(s[|s| - 1]))
  }

  lemma StripTight(s: string, p: char -> bool)
    requires Tight(s, p)
    ensures Strip(s, p) == s
  {
  }

  /** One character to strip at each end of something tight. */
  lemma StripWrapped(v: string, c: char, p: char -> bool)
    requires v != "" && Tight(v, p) && p(c)
    ensures Strip([c] + v + [c], p) == v
  {
    var q := [c] + v + [c];
    assert q[1..] == v + [c] && (v + [c])[0] == v[0];
    assert StripLeft(v + [c], p) == v + [c];
    StripRightAppend(v, [c], p);
    assert [c][..0] == [];
    assert StripRight([c], p) == [];
  }

  lemma StripFree(s: string, p: char -> bool)
    requires Free(s, p)
    ensures Strip(s, p) == s
  {
  }

  lemma {:induction false} StripRightAppend(a: string, b: string, p: char -> bool)
    requires a != [] && !p(a[|a| - 1])
    ensures StripRight(a + b, p) == a + StripRight(b, p)
  {
    if b == [] {
      assert a + b == a;
    } else if p(b[|b| - 1]) {
      assert (a + b)[..|a + b| - 1] == a + b[..|b| - 1];
      StripRightAppend(a, b[..|b| - 1], p);
    }
  }

  lemma {:induction false} StripRightCons(c: char, b: string, p: char -> bool)
    ensures StripRight([c] + b, p) ==
            (if p(c) && StripRight(b, p) == [] then [] else [c] + StripRight(b, p))
  {
    if b == [] {
      assert [c] + b == [c];
      assert [c][..0] == [];
    } else if p(b[|b| - 1]) {
      assert ([c] + b)[..|b|] == [c] + b[..|b| - 1];
      StripRightCons(c, b[..|b| - 1], p);
    }
  }

  /** Stripping the right end first changes nothing. */
  lemma {:induction false} StripAbsorbsRight(s: string, p: char -> bool)
    ensures Strip(StripRight(s, p), p) == Strip(s, p)
  {
    if s != [] && p(s[0]) {
      StripRightCons(s[0], s[1..], p);
      assert s == [s[0]] + s[1..];
      StripAbsorbsRight(s[1..], p);
      if StripRight(s[1..], p) == [] {
        assert Strip(s[1..], p) == [];
      } else {
        assert StripRight(s, p)[1..] == StripRight(s[1..], p);
      }
    } else if s != [] {
      StripRightAppend([s[0]], s[1..], p);
      assert s == [s[0]] + s[1..];
      StripRightEnds(s, p);
      assert StripRight(StripRight(s, p), p) == StripRight(s, p);
    }
  }

  function Concat(xs: seq<string>): string {
    if xs == [] then "" else xs[0] + Concat(xs[1..])
  }
}
