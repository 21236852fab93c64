/** One line of cluster.env as a shell reads it when `env_load` (lib/env.sh) sources the
    file: tokens, quote removal, assignments. */
module Shell {
  import opened Text
  import opened ClusterEnv

  // ----- words

  predicate IsBlank(c: char) { c == ' ' || c == '\t' }

  /** What ends a simple command or starts another kind of construct. */
  predicate IsOperator(c: char) {
    c == ';' || c == '&' || c == '|' || c == '<' || c == '>' || c == '(' || c == ')' || c == '`' || c == '\n'
  }

  predicate IsQuoting(c: char) { c == '\'' || c == '"' || c == '\\' }

  predicate IsNameChar(c: char) {
    'a' <= c <= 'z' || 'A' <= c <= 'Z' || '0' <= c <= '9' || c == '_'
  }

  predicate ShellName(k: string) {
    EnvName(k) && !IsDigit(k[0])
  }

  /** The characters that turn a dollar sign before them into an expansion. */
  predicate Opens(c: char) {
    || IsNameChar(c) || c == '*' || c == '@' || c == '#' || c == '?' || c == '-' || c == '$' || c == '!'
    || c == '{' || c == '(' || c == '['
  }

  /** An expansion begins here; outside double quotes `$'` and `$"` are quotes too. */
  predicate Expands(s: string, quoted: bool) {
    |s| > 1 && s[0] == '$' && (Opens(s[1]) || (!quoted && (s[1] == '\'' || s[1] == '"')))
  }

  /** A character of a word: bare, or quoted; `Seam` is where a quotation began. */
  datatype Glyph = Bare(c: char) | Hidden(c: char) | Seam

  type Word = seq<Glyph>

  datatype Mode = Open | Single | Double

  /** `Beyond` is whatever this line alone does not decide: expansions, several commands,
      a quotation or a line that goes on. */
  datatype Lexed = Words(ws: seq<Word>) | Beyond

  function Push(w: Word, rest: Lexed): Lexed {
    if rest.Words? then Words([w] + rest.ws) else Beyond
  }

  function Flush(cur: Option<Word>, rest: Lexed): Lexed {
    if cur.Some? then Push(cur.value, rest) else rest
  }

  function So(cur: Option<Word>): Word {
    if cur.Some? then cur.value else []
  }

  function Grow(cur: Option<Word>, g: Glyph): Option<Word> {
    Some(So(cur) + [g])
  }

  /** What reading one character, or a backslash and its character, leads to: an end, or a
      finished word and a new state after `used` characters. */
  datatype Move = Stop(result: Lexed) | Go(done: Option<Word>, cur: Option<Word>, mode: Mode, used: nat)

  predicate IsEscapable(c: char) {
    c == '$' || c == '`' || c == '"' || c == '\\'
  }

  function Next(s: string, cur: Option<Word>, mode: Mode): (m: Move)
    ensures m.Go? ==> 1 <= m.used <= |s|
  {
    if s == "" then Stop(if mode.Open? then Flush(cur, Words([])) else Beyond)
    else
      var c := s[0];
      match mode
      case Single =>
        if c == '\'' then Go(None, cur, Open, 1) else Go(None, Grow(cur, Hidden(c)), Single, 1)
      case Double =>
        if c == '"' then Go(None, cur, Open, 1)
        else if c == '`' || Expands(s, true) then Stop(Beyond)
        else if c == '\\' && |s| > 1 && IsEscapable(s[1]) then Go(None, Grow(cur, Hidden(s[1])), Double, 2)
        else Go(None, Grow(cur, Hidden(c)), Double, 1)
      case Open =>
        if IsBlank(c) then Go(cur, None, Open, 1)
        else if c == '#' && cur.None? then Stop(Words([]))
        else if c == '\'' then Go(None, Grow(cur, Seam), Single, 1)
        else if c == '"' then Go(None, Grow(cur, Seam), Double, 1)
        else if c == '\\' then
          if |s| == 1 then Stop(Beyond) else Go(None, Grow(cur, Hidden(s[1])), Open, 2)
        else if IsOperator(c) || Expands(s, false) then Stop(Beyond)
        else Go(None, Grow(cur, Bare(c)), Open, 1)
  }

  /** The shell's tokens: words between blanks, quotations, backslashes, a comment at
      the start of a word. */
  function Lex(s: string, cur: Option<Word>, mode: Mode): Lexed
    decreases |s|
  {
    match Next(s, cur, mode)
    case Stop(result) => result
    case Go(done, cur', mode', used) => Flush(done, Lex(s[used..], cur', mode'))
  }

  // ----- assignments

  /** A word after quote removal. */
  function Spelled(w: Word): string {
    if w == [] then ""
    else
      var g := w[|w| - 1];
      Spelled(w[..|w| - 1]) + (if g.Seam? then "" else [g.c])
  }

  /** How many bare name characters a word begins with. */
  function NameLen(w: Word): (n: nat)
    ensures n <= |w| && forall i :: 0 <= i < n ==> w[i].Bare? && IsNameChar(w[i].c)
    ensures n < |w| ==> !(w[n].Bare? && IsNameChar(w[n].c))
  {
    if w != [] && w[0].Bare? && IsNameChar(w[0].c) then 1 + NameLen(w[1..]) else 0
  }

  /** A bare tilde at the start of an assigned value or after a colon names a home
      directory. */
  ghost predicate NamesHome(w: Word) {
    exists i :: 0 <= i < |w| && w[i] == Bare('~') && (i == 0 || w[i - 1] == Bare(':'))
  }

  datatype Kind = Assigned(k: string, v: string) | Odd | Command

  /** `Odd` is an array element, an append, or a value with a home directory. */
  ghost function KindOf(w: Word): Kind {
    var n := NameLen(w);
    if n == 0 || IsDigit(w[0].c) || n == |w| then Command
    else if w[n] == Bare('=') then
      if NamesHome(w[n + 1..]) then Odd else Assigned(Spelled(w[..n]), Spelled(w[n + 1..]))
    else if w[n] == Bare('[') || (w[n] == Bare('+') && n + 1 < |w| && w[n + 1] == Bare('=')) then Odd
    else Command
  }

  /** What sourcing a line does: assign, in order; or run a command, for which alone the
      assignments before it hold. */
  datatype Sourced = Sets(bindings: Dict) | Runs | Elsewhere

  function Prepend(k: string, v: string, r: Sourced): Sourced {
    if r.Sets? then Sets([(k, v)] + r.bindings) else r
  }

  ghost function AssignAll(ws: seq<Word>): Sourced {
    if ws == [] then Sets([])
    else match KindOf(ws[0])
         case Assigned(k, v) => Prepend(k, v, AssignAll(ws[1..]))
         case Odd => Elsewhere
         case Command => Runs
  }

  /** Words that follow an assignment. */
  ghost function SourceRest(s: string): Sourced {
    match Lex(s, None, Open)
    case Beyond => Elsewhere
    case Words(ws) => AssignAll(ws)
  }

  /** A whole line; one that begins with a command is none of the reader's business. */
  ghost function SourceLine(line: string): Sourced {
    match Lex(line, None, Open)
    case Beyond => Elsewhere
    case Words(ws) => if ws != [] && !KindOf(ws[0]).Assigned? then Elsewhere else AssignAll(ws)
  }

  // ----- values taken literally

  /** Nothing the lexer acts upon begins here. */
  predicate CalmHead(s: string)
    requires s != ""
  {
    !IsBlank(s[0]) && !IsQuoting(s[0]) && !IsOperator(s[0]) && !Expands(s, false)
  }

  /** ... nor anywhere. */
  predicate Calm(s: string) {
    s == "" || (CalmHead(s) && Calm(s[1..]))
  }

  /** A value free of blanks, quotes, backslashes, operators and expansions, and of a
      tilde at the start or after a colon. */
  predicate Plain(v: string) {
    Calm(v) && forall i :: 0 <= i < |v| && v[i] == '~' ==> i > 0 && v[i - 1] != ':'
  }

  /** The characters that never stand in a plain value. */
  const NEVER_PLAIN := {' ', '\t', '\n', '\'', '"', '\\', ';', '&', '|', '<', '>', '(', ')', '`'}

  /** By character: a plain value has none of these; no dollar sign before a letter, a
      digit or any of `_*@#?-$!{([`; no tilde at its start or after a colon; and every
      value without all that is plain. */
  lemma {:induction false} PlainByCharacter(v: string)
    ensures Calm(v) <==>
      && (forall i :: 0 <= i < |v| ==> v[i] !in NEVER_PLAIN)
      && (forall i :: 0 <= i < |v| - 1 && v[i] == '$' ==>
            !IsNameChar(v[i + 1]) && v[i + 1] !in {'*', '@', '#', '?', '-', '$', '!', '{', '(', '[', '\'', '"'})
    decreases |v|
  {
    if v != "" {
      PlainByCharacter(v[1..]);
      assert forall i :: 0 <= i < |v| - 1 ==> v[1..][i] == v[i + 1];
    }
  }

  function BareWord(s: string): (w: Word)
    ensures |w| == |s| && forall i :: 0 <= i < |s| ==> w[i] == Bare(s[i])
  {
    seq(|s|, i requires 0 <= i < |s| => Bare(s[i]))
  }

  function HiddenWord(s: string): (w: Word)
    ensures |w| == |s| && forall i :: 0 <= i < |s| ==> w[i] == Hidden(s[i])
  {
    seq(|s|, i requires 0 <= i < |s| => Hidden(s[i]))
  }

  lemma {:induction false} SpelledAppend(a: Word, b: Word)
    ensures Spelled(a + b) == Spelled(a) + Spelled(b)
  {
    if b == [] {
      assert a + b == a;
    } else {
      assert (a + b)[..|a + b| - 1] == a + b[..|b| - 1];
      SpelledAppend(a, b[..|b| - 1]);
    }
  }

  lemma SpelledOne(w: Word, g: Glyph)
    ensures Spelled(w + [g]) == Spelled(w) + (if g.Seam? then "" else [g.c])
  {
    assert (w + [g])[..|w|] == w;
  }

  lemma {:induction false} SpelledLetters(w: Word, s: string)
    requires |w| == |s| && forall i :: 0 <= i < |s| ==> !w[i].Seam? && w[i].c == s[i]
    ensures Spelled(w) == s
  {
    if w != [] {
      var n := |w| - 1;
      SpelledLetters(w[..n], s[..n]);
      assert s == s[..n] + [s[n]];
    }
  }

  lemma FirstGlyph(g: Glyph)
    ensures Grow(None, g) == Some([g])
  {
    assert [] + [g] == [g];
  }

  lemma NoExpansion(a: string, rest: string)
    requires a != "" && !Expands(a, false) && (rest == "" || IsBlank(rest[0]))
    ensures !Expands(a + rest, false)
  {
    if |a| > 1 {
      assert (a + rest)[1] == a[1];
    } else if rest != "" {
      assert (a + rest)[1] == rest[0];
    }
  }

  lemma NextFirst(s: string)
    requires s != "" && CalmHead(s) && s[0] != '#'
    ensures Next(s, None, Open) == Go(None, Some([Bare(s[0])]), Open, 1)
  {
    FirstGlyph(Bare(s[0]));
  }

  /** A calm character starts a word, unless it starts a comment. */
  lemma LexFirst(s: string)
    requires s != "" && CalmHead(s) && s[0] != '#'
    ensures Lex(s, None, Open) == Lex(s[1..], Some([Bare(s[0])]), Open)
  {
    NextFirst(s);
  }

  lemma NextPlain(s: string, w: Word)
    requires s != "" && CalmHead(s)
    ensures Next(s, Some(w), Open) == Go(None, Some(w + [Bare(s[0])]), Open, 1)
  {
  }

  /** A calm character is added to the word as it stands. */
  lemma LexPlain(s: string, w: Word)
    requires s != "" && CalmHead(s)
    ensures Lex(s, Some(w), Open) == Lex(s[1..], Some(w + [Bare(s[0])]), Open)
  {
    NextPlain(s, w);
  }

  /** So is calm text. */
  lemma {:induction false} LexCalm(a: string, rest: string, w: Word)
    requires Calm(a) && (rest == "" || IsBlank(rest[0]))
    ensures Lex(a + rest, Some(w), Open) == Lex(rest, Some(w + BareWord(a)), Open)
    decreases |a|
  {
    if a == "" {
      assert a + rest == rest && w + BareWord(a) == w;
    } else {
      assert (a + rest)[1..] == a[1..] + rest;
      NoExpansion(a, rest);
      LexPlain(a + rest, w);
      LexCalm(a[1..], rest, w + [Bare(a[0])]);
      assert w + [Bare(a[0])] + BareWord(a[1..]) == w + BareWord(a);
    }
  }

  /** A line that starts with calm text other than a comment. */
  lemma LexStart(a: string, rest: string)
    requires a != "" && Calm(a) && a[0] != '#' && (rest == "" || IsBlank(rest[0]))
    ensures Lex(a + rest, None, Open) == Lex(rest, Some(BareWord(a)), Open)
  {
    assert (a + rest)[1..] == a[1..] + rest;
    NoExpansion(a, rest);
    LexFirst(a + rest);
    LexCalm(a[1..], rest, [Bare(a[0])]);
    assert [Bare(a[0])] + BareWord(a[1..]) == BareWord(a);
  }

  lemma {:induction false} CalmEntry(k: string, v: string)
    requires forall i :: 0 <= i < |k| ==> IsNameChar(k[i])
    ensures Calm(k + "=" + v) <==> Calm(v)
    decreases |k|
  {
    var s := k + "=" + v;
    if k == "" {
      assert s == "=" + v && s[1..] == v;
    } else {
      assert s[1..] == k[1..] + "=" + v;
      CalmEntry(k[1..], v);
    }
  }

  lemma {:induction false} NameLenIs(w: Word, n: nat)
    requires n < |w| && (forall i :: 0 <= i < n ==> w[i].Bare? && IsNameChar(w[i].c))
    requires !(w[n].Bare? && IsNameChar(w[n].c))
    ensures NameLen(w) == n
    decreases n
  {
    if n > 0 { NameLenIs(w[1..], n - 1); }
  }

  /** The word `k=...` whose value is the glyphs `x`. */
  lemma EntryKind(k: string, x: Word)
    requires ShellName(k)
    ensures KindOf(BareWord(k + "=") + x) == if NamesHome(x) then Odd else Assigned(k, Spelled(x))
  {
    var w := BareWord(k + "=") + x;
    NameLenIs(w, |k|);
    assert w[|k|] == Bare('=') && w[|k| + 1..] == x;
    SpelledLetters(w[..|k|], k);
  }

  lemma HomeOfBare(v: string)
    requires Calm(v)
    ensures NamesHome(BareWord(v)) <==> !Plain(v)
  {
    var w := BareWord(v);
    if i :| 0 <= i < |v| && v[i] == '~' && (i == 0 || v[i - 1] == ':') {
      assert w[i] == Bare('~') && (i == 0 || w[i - 1] == Bare(':'));
    }
    if i :| 0 <= i < |w| && w[i] == Bare('~') && (i == 0 || w[i - 1] == Bare(':')) {
      assert v[i] == '~' && (i == 0 || v[i - 1] == ':');
    }
  }

  /** `k=v` up to a blank, or up to the end, with a calm v. */
  lemma CalmLine(k: string, v: string, rest: string)
    requires ShellName(k) && Calm(v) && (rest == "" || IsBlank(rest[0]))
    ensures Lex(k + "=" + v + rest, None, Open) == Lex(rest, Some(BareWord(k + "=") + BareWord(v)), Open)
    ensures KindOf(BareWord(k + "=") + BareWord(v)) == if Plain(v) then Assigned(k, v) else Odd
  {
    var a := k + "=" + v;
    CalmEntry(k, v);
    assert a[0] == k[0];
    LexStart(a, rest);
    assert BareWord(a) == BareWord(k + "=") + BareWord(v);
    EntryKind(k, BareWord(v));
    HomeOfBare(v);
    SpelledLetters(BareWord(v), v);
  }

  lemma OneWord(w: Word)
    requires KindOf(w).Assigned?
    ensures AssignAll([w]) == Sets([(KindOf(w).k, KindOf(w).v)])
  {
    assert [w][1..] == [];
    assert AssignAll([w][1..]) == Sets([]);
  }

  lemma CalmLineReads(k: string, v: string)
    requires ShellName(k) && Calm(v)
    ensures SourceLine(k + "=" + v) == if Plain(v) then Sets([(k, v)]) else Elsewhere
  {
    var w := BareWord(k + "=") + BareWord(v);
    CalmLine(k, v, "");
    assert k + "=" + v + "" == k + "=" + v;
    assert Push(w, Words([])) == Words([w]);
    if Plain(v) { OneWord(w); }
  }

  // ----- what the shell drops

  function Size(ws: seq<Word>): nat {
    if ws == [] then 0 else |Spelled(ws[0])| + Size(ws[1..])
  }

  lemma SizePush(w: Word, rest: Lexed)
    requires rest.Words?
    ensures Push(w, rest).Words? && Size(Push(w, rest).ws) == |Spelled(w)| + Size(rest.ws)
  {
    assert ([w] + rest.ws)[1..] == rest.ws;
  }

  /** A quotation ended, a word ended, or a glyph was added. */
  ghost predicate Shaped(s: string, cur: Option<Word>, mode: Mode, m: Move)
    requires s != "" && m.Go?
  {
    || (m.done.None? && m.cur == cur && m.mode != mode)
    || (m.done == cur && m.cur.None?)
    || (&& m.done.None? && m.cur.Some? && m.cur.value != []
        && var g := m.cur.value[|m.cur.value| - 1];
           && m.cur == Grow(cur, g)
           && (!g.Seam? && m.used == 1 ==> m.mode == mode && (mode.Open? ==> CalmHead(s))))
  }

  lemma NextIsShaped(s: string, cur: Option<Word>, mode: Mode)
    requires Next(s, cur, mode).Go?
    ensures Shaped(s, cur, mode, Next(s, cur, mode))
  {
  }

  lemma NextSize(s: string, cur: Option<Word>, mode: Mode)
    requires Next(s, cur, mode).Go?
    ensures var m := Next(s, cur, mode); var size := |Spelled(So(m.done))| + |Spelled(So(m.cur))|;
            && size <= |Spelled(So(cur))| + m.used
            && (size == |Spelled(So(cur))| + m.used ==> m.mode == mode && (mode.Open? ==> m.used == 1 && CalmHead(s)))
  {
    NextIsShaped(s, cur, mode);
    ShapeSize(s, cur, mode, Next(s, cur, mode));
  }

  lemma ShapeSize(s: string, cur: Option<Word>, mode: Mode, m: Move)
    requires s != "" && m.Go? && m.used >= 1 && Shaped(s, cur, mode, m)
    ensures var size := |Spelled(So(m.done))| + |Spelled(So(m.cur))|;
            && size <= |Spelled(So(cur))| + m.used
            && (size == |Spelled(So(cur))| + m.used ==> m.mode == mode && (mode.Open? ==> m.used == 1 && CalmHead(s)))
  {
    assert Spelled([]) == "";
    if m.cur.Some? && m.cur.value != [] {
      SpelledOne(So(cur), m.cur.value[|m.cur.value| - 1]);
    }
  }

  lemma StopSize(s: string, cur: Option<Word>, mode: Mode)
    ensures var m := Next(s, cur, mode);
            m.Stop? && m.result.Words? ==>
              && Size(m.result.ws) <= |Spelled(So(cur))| + |s|
              && (Size(m.result.ws) == |Spelled(So(cur))| + |s| ==> mode.Open? && s == "")
  {
    if s == "" && mode.Open? && cur.Some? { SizePush(cur.value, Words([])); }
  }

  lemma SizeFlush(cur: Option<Word>, rest: Lexed)
    requires rest.Words?
    ensures Flush(cur, rest).Words? && Size(Flush(cur, rest).ws) == |Spelled(So(cur))| + Size(rest.ws)
  {
    if cur.Some? { SizePush(cur.value, rest); }
  }

  /** Words hold no more characters than the line, and as many only if the line is
      calm. */
  lemma {:induction false} LexSize(s: string, cur: Option<Word>, mode: Mode)
    requires Lex(s, cur, mode).Words?
    ensures Size(Lex(s, cur, mode).ws) <= |Spelled(So(cur))| + |s|
    ensures Size(Lex(s, cur, mode).ws) == |Spelled(So(cur))| + |s| ==> mode.Open? && Calm(s)
    decreases |s|
  {
    match Next(s, cur, mode)
    case Stop(_) => StopSize(s, cur, mode);
    case Go(done, cur', mode', used) =>
      NextSize(s, cur, mode);
      var rest := Lex(s[used..], cur', mode');
      LexSize(s[used..], cur', mode');
      SizeFlush(done, rest);
  }

  lemma KindSize(w: Word)
    requires KindOf(w).Assigned?
    ensures |KindOf(w).k| + 1 + |KindOf(w).v| == |Spelled(w)|
  {
    var n := NameLen(w);
    assert w == w[..n] + [w[n]] + w[n + 1..];
    SpelledOne(w[..n], w[n]);
    SpelledAppend(w[..n] + [w[n]], w[n + 1..]);
  }

  lemma {:induction false} BindingSizes(ws: seq<Word>)
    requires AssignAll(ws).Sets?
    ensures var b := AssignAll(ws).bindings; forall i :: 0 <= i < |b| ==> |b[i].0| + 1 + |b[i].1| <= Size(ws)
  {
    if ws != [] {
      KindSize(ws[0]);
      BindingSizes(ws[1..]);
    }
  }

  /** The written entry `k=v` is sourced literally if and only if v is plain.  And
      whenever the line only assigns but v is not plain, every value it gives k is
      shorter than v: something was dropped. */
  lemma SourcedLiterallyExactly(k: string, v: string)
    requires ShellName(k)
    ensures SourceLine(k + "=" + v) == Sets([(k, v)]) <==> Plain(v)
    ensures var r := SourceLine(k + "=" + v);
            r.Sets? && !Plain(v) ==>
              forall i :: 0 <= i < |r.bindings| && r.bindings[i].0 == k ==> |r.bindings[i].1| < |v|
  {
    var line := k + "=" + v;
    var r := SourceLine(line);
    if Calm(v) {
      CalmLineReads(k, v);
    } else if r.Sets? {
      var ws := Lex(line, None, Open).ws;
      CalmEntry(k, v);
      LexSize(line, None, Open);
      assert Size(ws) < |line|;
      BindingSizes(ws);
      assert r == AssignAll(ws);
      var b := r.bindings;
      assert b != [] ==> |b[0].0| + 1 + |b[0].1| < |line|;
      assert |line| == |k| + 1 + |v|;
    }
  }

  // ----- the quotes a leader's value loses

  function InQuotes(v: string): string {
    "\"" + v + "\""
  }

  /** Text that stands for itself between double quotes. */
  predicate QuoteCalm(v: string) {
    v == "" || (v[0] != '"' && v[0] != '\\' && v[0] != '`' && v[0] != '\n' && !Expands(v, true) && QuoteCalm(v[1..]))
  }

  lemma {:induction false} QuoteCalmHasNoQuote(v: string)
    requires QuoteCalm(v)
    ensures Free(v, IsDouble)
  {
    if v != "" {
      QuoteCalmHasNoQuote(v[1..]);
      forall i | 0 <= i < |v| ensures !IsDouble(v[i]) {
        if i > 0 { assert v[i] == v[1..][i - 1]; }
      }
    }
  }

  lemma NextQuoted(v: string, w: Word)
    requires v != "" && QuoteCalm(v)
    ensures Next(v + "\"", Some(w), Double) == Go(None, Some(w + [Hidden(v[0])]), Double, 1)
  {
    assert !Expands(v + "\"", true);
  }

  lemma {:induction false} LexQuoted(v: string, w: Word)
    requires QuoteCalm(v)
    ensures Lex(v + "\"", Some(w), Double) == Words([w + HiddenWord(v)])
    decreases |v|
  {
    var s := v + "\"";
    if v == "" {
      assert s == "\"" && s[1..] == "" && w + HiddenWord(v) == w;
      assert Push(w, Words([])) == Words([w]);
    } else {
      assert s[0] == v[0] && s[1..] == v[1..] + "\"";
      NextQuoted(v, w);
      LexQuoted(v[1..], w + [Hidden(v[0])]);
      assert w + [Hidden(v[0])] + HiddenWord(v[1..]) == w + HiddenWord(v);
    }
  }

  /** Names and equals signs up to anything. */
  lemma {:induction false} LexNames(a: string, rest: string, w: Word)
    requires forall i :: 0 <= i < |a| ==> IsNameChar(a[i]) || a[i] == '='
    ensures Lex(a + rest, Some(w), Open) == Lex(rest, Some(w + BareWord(a)), Open)
    decreases |a|
  {
    if a == "" {
      assert a + rest == rest && w + BareWord(a) == w;
    } else {
      assert (a + rest)[1..] == a[1..] + rest;
      LexPlain(a + rest, w);
      LexNames(a[1..], rest, w + [Bare(a[0])]);
      assert w + [Bare(a[0])] + BareWord(a[1..]) == w + BareWord(a);
    }
  }

  /** A name and an equals sign, up to anything. */
  lemma LexKey(k: string, rest: string)
    requires ShellName(k)
    ensures Lex(k + "=" + rest, None, Open) == Lex(rest, Some(BareWord(k + "=")), Open)
  {
    var a := k + "=";
    assert (a + rest)[0] == k[0] && (a + rest)[1..] == a[1..] + rest;
    LexFirst(a + rest);
    assert a[1..] == k[1..] + "=" && forall i :: 0 <= i < |k[1..]| ==> k[1..][i] == k[i + 1];
    LexNames(a[1..], rest, [Bare(k[0])]);
    assert [Bare(k[0])] + BareWord(a[1..]) == BareWord(a);
  }

  lemma LexOpens(inside: string, w: Word)
    ensures Lex("\"" + inside, Some(w), Open) == Lex(inside, Some(w + [Seam]), Double)
    ensures Lex("'" + inside, Some(w), Open) == Lex(inside, Some(w + [Seam]), Single)
  {
    assert ("\"" + inside)[1..] == inside && ("'" + inside)[1..] == inside;
  }

  /** A name, an equals sign and an opening quotation, up to the text inside. */
  lemma LexEntryHead(k: string, inside: string)
    requires ShellName(k)
    ensures Lex(k + "=" + ("\"" + inside), None, Open) == Lex(inside, Some(BareWord(k + "=") + [Seam]), Double)
  {
    LexKey(k, "\"" + inside);
    LexOpens(inside, BareWord(k + "="));
  }

  lemma {:induction false} LexSingle(v: string, w: Word)
    requires Free(v, IsSingle)
    ensures Lex(v + "'", Some(w), Single) == Words([w + HiddenWord(v)])
    decreases |v|
  {
    var s := v + "'";
    if v == "" {
      assert s == "'" && s[1..] == "" && w + HiddenWord(v) == w;
      assert Push(w, Words([])) == Words([w]);
    } else {
      assert s[0] == v[0] && s[1..] == v[1..] + "'";
      LexSingle(v[1..], w + [Hidden(v[0])]);
      assert w + [Hidden(v[0])] + HiddenWord(v[1..]) == w + HiddenWord(v);
    }
  }

  /** Between single quotes everything stands for itself, a tilde and a dollar too. */
  lemma SingleQuoted(k: string, v: string)
    requires ShellName(k) && Free(v, IsSingle)
    ensures SourceLine(k + "=" + ("'" + (v + "'"))) == Sets([(k, v)])
  {
    var w := BareWord(k + "=");
    LexKey(k, "'" + (v + "'"));
    LexOpens(v + "'", w);
    LexSingle(v, w + [Seam]);
    assert w + [Seam] + HiddenWord(v) == w + ([Seam] + HiddenWord(v));
    EntryKind(k, [Seam] + HiddenWord(v));
    QuotedSpells(v);
    QuotedIsNoHome(v);
    OneWord(w + ([Seam] + HiddenWord(v)));
  }

  /** A backslash makes any one character stand for itself. */
  lemma Escaped(k: string, c: char)
    requires ShellName(k)
    ensures SourceLine(k + "=" + ['\\', c]) == Sets([(k, [c])])
  {
    var w := BareWord(k + "=");
    LexKey(k, ['\\', c]);
    LexEscape(c, w);
    EntryKind(k, [Hidden(c)]);
    SpelledHidden(c);
    OneWord(w + [Hidden(c)]);
  }

  lemma LexEscape(c: char, w: Word)
    ensures Lex(['\\', c], Some(w), Open) == Words([w + [Hidden(c)]])
  {
    assert ['\\', c][2..] == "";
    assert Push(w + [Hidden(c)], Words([])) == Words([w + [Hidden(c)]]);
  }

  lemma SpelledHidden(c: char)
    ensures Spelled([Hidden(c)]) == [c] && !NamesHome([Hidden(c)])
  {
    SpelledOne([], Hidden(c));
    assert [] + [Hidden(c)] == [Hidden(c)];
  }

  lemma LexQuotedEntry(k: string, v: string)
    requires ShellName(k) && QuoteCalm(v)
    ensures Lex(k + "=" + InQuotes(v), None, Open) == Words([BareWord(k + "=") + ([Seam] + HiddenWord(v))])
  {
    var w := BareWord(k + "=");
    assert InQuotes(v) == "\"" + (v + "\"");
    LexEntryHead(k, v + "\"");
    LexQuoted(v, w + [Seam]);
    assert w + [Seam] + HiddenWord(v) == w + ([Seam] + HiddenWord(v));
  }

  lemma QuotedSpells(v: string)
    ensures Spelled([Seam] + HiddenWord(v)) == v
  {
    SpelledAppend([Seam], HiddenWord(v));
    SpelledLetters(HiddenWord(v), v);
    SpelledOne([], Seam);
    assert [] + [Seam] == [Seam];
    assert Spelled([Seam]) == "";
  }

  lemma QuotedIsNoHome(v: string)
    ensures !NamesHome([Seam] + HiddenWord(v))
  {
    var x := [Seam] + HiddenWord(v);
    forall i | 0 <= i < |x| ensures x[i] != Bare('~') {
      if i > 0 { assert x[i] == HiddenWord(v)[i - 1]; }
    }
  }

  lemma QuotedSources(k: string, v: string)
    requires ShellName(k) && QuoteCalm(v)
    ensures SourceLine(k + "=" + InQuotes(v)) == Sets([(k, v)])
  {
    var x := [Seam] + HiddenWord(v);
    LexQuotedEntry(k, v);
    EntryKind(k, x);
    QuotedSpells(v);
    QuotedIsNoHome(v);
    OneWord(BareWord(k + "=") + x);
  }

  /** A backslash between double quotes goes before a dollar, a backquote, a double quote
      and a backslash, and stays before every other character. */
  lemma BackslashInQuotes(k: string, c: char)
    requires ShellName(k) && c != '\n'
    ensures SourceLine(k + "=" + ("\"" + ['\\', c, '"'])) ==
            Sets([(k, if c in {'$', '`', '"', '\\'} then [c] else ['\\', c])])
  {
    var w := BareWord(k + "=");
    var kept: string := if IsEscapable(c) then [c] else ['\\', c];
    LexEntryHead(k, ['\\', c, '"']);
    LexBackslash(c, w + [Seam]);
    assert w + [Seam] + HiddenWord(kept) == w + ([Seam] + HiddenWord(kept));
    EntryKind(k, [Seam] + HiddenWord(kept));
    QuotedSpells(kept);
    QuotedIsNoHome(kept);
    OneWord(w + ([Seam] + HiddenWord(kept)));
  }

  lemma LexBackslash(c: char, w: Word)
    requires c != '\n'
    ensures Lex(['\\', c, '"'], Some(w), Double) == Words([w + HiddenWord(if IsEscapable(c) then [c] else ['\\', c])])
  {
    var s := ['\\', c, '"'];
    if IsEscapable(c) {
      assert s[2..] == "\"" && HiddenWord([c]) == [Hidden(c)];
      LexQuoted("", w + [Hidden(c)]);
      assert "" + "\"" == "\"" && w + [Hidden(c)] + HiddenWord("") == w + HiddenWord([c]);
    } else {
      assert s[1..] == [c, '"'] && [c, '"'] == [c] + "\"";
      LexQuoted([c], w + [Hidden('\\')]);
      assert w + [Hidden('\\')] + HiddenWord([c]) == w + HiddenWord(['\\', c]);
    }
  }

  /** A word that begins with a digit assigns nothing. */
  lemma DigitIsNoName(k: string, v: string)
    requires EnvName(k) && IsDigit(k[0]) && Calm(v)
    ensures SourceLine(k + "=" + v) == Elsewhere
  {
    var a := k + "=" + v;
    CalmEntry(k, v);
    assert a[0] == k[0];
    LexStart(a, "");
    assert a + "" == a;
    var w := BareWord(a);
    assert w[0] == Bare(k[0]);
    assert Push(w, Words([])) == Words([w]);
  }

  lemma StripShrinks(v: string, p: char -> bool)
    ensures |Strip(v, p)| <= |v| && (|Strip(v, p)| == |v| ==> Strip(v, p) == v)
  {
    var i := StripEnds(v, p);
  }

  lemma UnquoteFixed(v: string)
    requires Unquote(v) == v
    ensures Strip(v, IsSingle) == v
  {
    StripShrinks(v, IsSpace);
    StripShrinks(Strip(v, IsSpace), IsDouble);
    StripShrinks(Strip(Strip(v, IsSpace), IsDouble), IsSingle);
  }

  lemma QuotedReads(v: string)
    requires v != "" && Free(v, IsDouble) && Unquote(v) == v
    ensures Unquote(InQuotes(v)) == v
  {
    StripTight(InQuotes(v), IsSpace);
    StripWrapped(v, '"', IsDouble);
    UnquoteFixed(v);
  }

  /** A leader's `KEY="two words"` means the same to its shell and to its daemon.  The
      joiner's file carries it without the quotes: its daemon reads it unchanged; its
      shell never has the key at that value, unless a command on the line sets it. */
  lemma QuotesAreLost(k: string, v: string)
    requires ShellName(k) && Unquote(v) == v && QuoteCalm(v) && !Free(v, IsBlank)
    ensures SourceLine(k + "=" + InQuotes(v)) == Sets([(k, v)]) && ParseLine(k + "=" + InQuotes(v)) == Some((k, v))
    ensures ParseLine(k + "=" + v) == Some((k, v))
    ensures var r := SourceLine(k + "=" + v);
            r.Sets? ==> forall i :: 0 <= i < |r.bindings| && r.bindings[i].0 == k ==> |r.bindings[i].1| < |v|
  {
    QuotedSources(k, v);
    EnvNameIsClean(k);
    EntryLine(k, InQuotes(v));
    EntryLine(k, v);
    QuoteCalmHasNoQuote(v);
    QuotedReads(v);
    BlankIsNotPlain(v);
    SourcedLiterallyExactly(k, v);
  }

  lemma {:induction false} BlankIsNotPlain(v: string)
    requires !Free(v, IsBlank)
    ensures !Calm(v)
    decreases |v|
  {
    if !IsBlank(v[0]) {
      assert exists i :: 0 <= i < |v| && IsBlank(v[i]);
      var i :| 0 <= i < |v| && IsBlank(v[i]);
      assert v[1..][i - 1] == v[i];
      BlankIsNotPlain(v[1..]);
    }
  }

  /** The two things that happen instead: when the rest of the line assigns too, the key
      gets the first word; when it holds a command, that runs and nothing is kept. */
  lemma FirstWordExactly(k: string, first: string, rest: string)
    requires ShellName(k) && Plain(first)
    ensures SourceLine(k + "=" + first + (" " + rest)) == Prepend(k, first, SourceRest(rest))
    ensures SourceLine(k + "=" + first + (" " + rest)).Sets? <==> SourceRest(rest).Sets?
  {
    var w := BareWord(k + "=") + BareWord(first);
    CalmLine(k, first, " " + rest);
    assert (" " + rest)[1..] == rest;
    var after := Lex(rest, None, Open);
    if after.Words? {
      assert ([w] + after.ws)[0] == w && ([w] + after.ws)[1..] == after.ws;
    }
  }

  /** `K=x y=z` keeps two variables, `K=x y` runs `y`. */
  lemma TwoWords(k: string, other: string)
    requires ShellName(k) && ShellName(other)
    ensures SourceLine(k + "=x" + (" " + (other + "=z"))) == Sets([(k, "x"), (other, "z")])
    ensures SourceLine(k + "=x" + (" " + other)) == Runs
  {
    assert Calm("x") && Calm("z") by { assert "x"[1..] == "" && "z"[1..] == ""; }
    assert k + "=" + "x" == k + "=x" && other + "=" + "z" == other + "=z";
    FirstWordExactly(k, "x", other + "=z");
    CalmLineReads(other, "z");
    FirstWordExactly(k, "x", other);
    NameIsCommand(other);
  }

  /** An append is no assignment of its own text: the model leaves it open. */
  lemma AppendIsElsewhere(k: string, other: string, v: string)
    requires ShellName(k) && ShellName(other) && Calm(v)
    ensures SourceLine(k + "=x" + (" " + (other + ("+=" + v)))) == Elsewhere
  {
    assert Calm("x") by { assert "x"[1..] == ""; }
    assert k + "=" + "x" == k + "=x";
    FirstWordExactly(k, "x", other + ("+=" + v));
    var a := other + ("+=" + v);
    assert ("+=" + v)[1..] == "=" + v && ("=" + v)[1..] == v;
    assert Calm("+=" + v);
    NameIsCalm(other);
    CalmAppend(other, "+=" + v);
    LexStart(a, "");
    assert a + "" == a;
    assert Push(BareWord(a), Words([])) == Words([BareWord(a)]);
    AppendIsOdd(other, v);
  }

  lemma AppendIsOdd(name: string, v: string)
    requires ShellName(name)
    ensures KindOf(BareWord(name + ("+=" + v))) == Odd
  {
    var w := BareWord(name + ("+=" + v));
    assert w[|name|] == Bare('+') && w[|name| + 1] == Bare('=');
    NameLenIs(w, |name|);
  }

  lemma {:induction false} CalmAppend(a: string, b: string)
    requires (forall i :: 0 <= i < |a| ==> IsNameChar(a[i])) && Calm(b)
    ensures Calm(a + b)
  {
    if a == "" {
      assert a + b == b;
    } else {
      assert (a + b)[1..] == a[1..] + b;
      CalmAppend(a[1..], b);
    }
  }

  lemma NameIsCommand(name: string)
    requires ShellName(name)
    ensures SourceRest(name) == Runs
  {
    NameIsCalm(name);
    LexStart(name, "");
    assert name + "" == name;
    var w := BareWord(name);
    assert Push(w, Words([])) == Words([w]);
    AllNameLen(w);
  }

  lemma {:induction false} NameIsCalm(name: string)
    requires forall i :: 0 <= i < |name| ==> IsNameChar(name[i])
    ensures Calm(name)
  {
    if name != "" { NameIsCalm(name[1..]); }
  }

  lemma {:induction false} AllNameLen(w: Word)
    requires forall i :: 0 <= i < |w| ==> w[i].Bare? && IsNameChar(w[i].c)
    ensures NameLen(w) == |w|
  {
    if w != [] { AllNameLen(w[1..]); }
  }
}
