/** Setting one KEY=VALUE in cluster.env: the daemon's `_upsert_kv`
    (daemon/handlers.py) and the shell's `env_upsert_kv` (lib/env.sh), and the two
    kinds of reader that must agree on the outcome.  Files hold no carriage
    returns. */
module EnvFile {
  import opened Text
  import opened ClusterEnv

  predicate IsNewline(c: char) { c == '\n' }

  /** The newline-separated fields of a file: its lines, then what follows the last
      newline. */
  function Fields(text: string): (fs: seq<string>)
    ensures |fs| > 0
  {
    Split(text, IsNewline)
  }

  function FileOf(fs: seq<string>): string {
    Join(fs, '\n')
  }

  function Entry(key: string, value: string): string {
    key + "=" + value
  }

  predicate Sets(line: string, key: string) {
    key + "=" <= line
  }

  function FirstSetting(fs: seq<string>, key: string, from: nat): (r: Option<nat>)
    requires from <= |fs|
    ensures r.Some? ==> from <= r.value < |fs| && Sets(fs[r.value], key)
    ensures r.Some? ==> forall j :: from <= j < r.value ==> !Sets(fs[j], key)
    ensures r.None? ==> forall j :: from <= j < |fs| ==> !Sets(fs[j], key)
    decreases |fs| - from
  {
    if from == |fs| then None else if Sets(fs[from], key) then Some(from) else FirstSetting(fs, key, from + 1)
  }

  // ----- the daemon's upsert

  /** The fields after `_upsert_kv`: the first line that sets the key is replaced, or
      an entry is written straight after whatever the file ends with. */
  function PyFields(fs: seq<string>, key: string, value: string): seq<string>
    requires |fs| > 0
  {
    PyWrite(fs, key, Entry(key, value))
  }

  function PyWrite(fs: seq<string>, key: string, e: string): seq<string>
    requires |fs| > 0
  {
    var n := |fs| - 1;
    match FirstSetting(fs, key, 0)
    case Some(i) => if i < n then fs[i := e] else fs[..n] + [e, ""]
    case None => fs[..n] + [fs[n] + e, ""]
  }

  /** `readlines`: every line keeps its newline, an unterminated rest is a line too. */
  function KeepLines(fs: seq<string>): (ls: seq<string>)
    requires |fs| > 0
    ensures |ls| == |fs| || (|ls| == |fs| - 1 && fs[|fs| - 1] == "")
    ensures forall i :: 0 <= i < |fs| - 1 ==> ls[i] == fs[i] + "\n"
    ensures |ls| == |fs| ==> ls[|fs| - 1] == fs[|fs| - 1] && fs[|fs| - 1] != ""
  {
    seq(|fs| - 1, i requires 0 <= i < |fs| - 1 => fs[i] + "\n")
      + (if fs[|fs| - 1] == "" then [] else [fs[|fs| - 1]])
  }

  lemma {:induction false} ConcatAppend(a: seq<string>, b: seq<string>)
    ensures Concat(a + b) == Concat(a) + Concat(b)
  {
    if a == [] {
      assert a + b == b;
    } else {
      assert (a + b)[1..] == a[1..] + b;
      ConcatAppend(a[1..], b);
    }
  }

  lemma {:induction false} ConcatKeepLines(fs: seq<string>)
    requires |fs| > 0
    ensures Concat(KeepLines(fs)) == FileOf(fs)
  {
    if |fs| == 1 {
      assert KeepLines(fs) == if fs[0] == "" then [] else [fs[0]];
    } else {
      ConcatKeepLines(fs[1..]);
      assert KeepLines(fs) == [fs[0] + "\n"] + KeepLines(fs[1..]);
    }
  }

  lemma LineSets(f: string, key: string)
    requires '\n' !in key
    ensures Sets(f + "\n", key) <==> Sets(f, key)
  {
    var k := key + "=";
    if |k| <= |f| {
      assert (f + "\n")[..|k|] == f[..|k|];
    } else if |k| == |f| + 1 {
      assert k[|f|] == '=';
    }
  }

  lemma ReplaceLine(fs: seq<string>, i: nat, e: string)
    requires i < |fs| - 1
    ensures Concat(KeepLines(fs)[i := e + "\n"]) == FileOf(fs[i := e])
  {
    ConcatKeepLines(fs[i := e]);
    assert KeepLines(fs[i := e]) == KeepLines(fs)[i := e + "\n"];
  }

  lemma ReplaceRest(fs: seq<string>, e: string)
    requires |fs| > 0 && fs[|fs| - 1] != ""
    ensures Concat(KeepLines(fs)[|fs| - 1 := e + "\n"]) == FileOf(fs[..|fs| - 1] + [e, ""])
  {
    var result := fs[..|fs| - 1] + [e, ""];
    ConcatKeepLines(result);
    assert KeepLines(result) == KeepLines(fs)[|fs| - 1 := e + "\n"];
  }

  lemma ConcatOne(x: string)
    ensures Concat([x]) == x
  {
    assert [x][1..] == [];
  }

  /** An entry appended after an unterminated last line joins that line. */
  lemma AppendEntry(fs: seq<string>, e: string)
    requires |fs| > 0
    ensures Concat(KeepLines(fs) + [e + "\n"]) == FileOf(fs[..|fs| - 1] + [fs[|fs| - 1] + e, ""])
  {
    var n := |fs| - 1;
    var result := fs[..n] + [fs[n] + e, ""];
    var head := KeepLines(fs)[..n];
    ConcatKeepLines(result);
    assert KeepLines(result) == head + [fs[n] + e + "\n"];
    ConcatAppend(head, [fs[n] + e + "\n"]);
    ConcatOne(fs[n] + e + "\n");
    ConcatOne(e + "\n");
    ConcatOne(fs[n]);
    ConcatAppend(KeepLines(fs), [e + "\n"]);
    if fs[n] == "" {
      assert KeepLines(fs) == head;
    } else {
      assert KeepLines(fs) == head + [fs[n]];
      ConcatAppend(head, [fs[n]]);
    }
  }

  /** `_upsert_kv`: scan the lines for the first one that sets the key, replace it in
      place, or append. */
  method UpsertKv(text: string, key: string, value: string) returns (out: string)
    requires '\n' !in key
    ensures out == FileOf(PyFields(Fields(text), key, value))
  {
    ghost var fs := Fields(text);
    var lines := KeepLines(Fields(text));
    ghost var kept := lines;
    for i := 0 to |lines|
      invariant lines == kept
      invariant FirstSetting(fs, key, 0) == FirstSetting(fs, key, i)
    {
      if i < |fs| - 1 { LineSets(fs[i], key); }
      if Sets(lines[i], key) {
        lines := lines[i := Entry(key, value) + "\n"];
        if i < |fs| - 1 { ReplaceLine(fs, i, Entry(key, value)); } else { ReplaceRest(fs, Entry(key, value)); }
        return Concat(lines);
      }
    }
    assert FirstSetting(fs, key, 0) == None by {
      if |kept| == |fs| - 1 { assert !Sets("", key); }
    }
    lines := lines + [Entry(key, value) + "\n"];
    AppendEntry(fs, Entry(key, value));
    out := Concat(lines);
  }

  // ----- the shell's upsert

  /** No character that sed's `s|..|..|` would interpret in a replacement. */
  predicate SedSafe(value: string) {
    forall i :: 0 <= i < |value| ==> value[i] !in {'|', '&', '\\', '\n'}
  }

  /** The guard `"$(tail -c 1 f)" != $'\n'`: command substitution drops the newline
      it asks for, so a newline is added to every file that is not empty. */
  function Terminated(fs: seq<string>): (r: seq<string>)
    requires |fs| > 0
    ensures |r| > 0 && r[|r| - 1] == ""
  {
    if fs == [""] then fs else fs + [""]
  }

  function SetAll(fs: seq<string>, key: string, entry: string): (r: seq<string>)
    ensures |r| == |fs| && forall i :: 0 <= i < |fs| ==> r[i] == if Sets(fs[i], key) then entry else fs[i]
  {
    seq(|fs|, i requires 0 <= i < |fs| => if Sets(fs[i], key) then entry else fs[i])
  }

  /** The fields after `env_upsert_kv`: every line that sets the key is replaced, or
      an entry is appended as a line of its own. */
  function ShFields(fs: seq<string>, key: string, value: string): seq<string>
    requires |fs| > 0 && EnvName(key) && SedSafe(value)
  {
    ShWrite(fs, key, Entry(key, value))
  }

  function ShWrite(fs: seq<string>, key: string, e: string): seq<string>
    requires |fs| > 0
  {
    var t := Terminated(fs);
    if FirstSetting(t, key, 0).Some? then SetAll(t, key, e) else t[..|t| - 1] + [e, ""]
  }

  // ----- when the two agree

  /** The file is empty, or its unterminated last line is the first to set the key. */
  ghost predicate UpsertsAgree(fs: seq<string>, key: string)
    requires |fs| > 0
  {
    fs == [""] || FirstSetting(fs, key, 0) == Some(|fs| - 1)
  }

  lemma {:induction false} FirstInTerminated(fs: seq<string>, key: string, from: nat)
    requires |fs| > 0 && from <= |fs|
    ensures FirstSetting(Terminated(fs), key, from) == FirstSetting(fs, key, from)
    decreases |fs| - from
  {
    if from == |fs| {
      assert !Sets("", key);
    } else if !Sets(fs[from], key) {
      FirstInTerminated(fs, key, from + 1);
    }
  }

  lemma AgreeOnRest(fs: seq<string>, key: string, e: string)
    requires |fs| > 0 && Sets(fs[|fs| - 1], key) && forall j :: 0 <= j < |fs| - 1 ==> !Sets(fs[j], key)
    ensures fs[..|fs| - 1] + [e, ""] == SetAll(fs + [""], key, e)
  {
    assert !Sets("", key);
  }

  /** On the fields: whenever the condition fails, the two results do not even have the
      same number of lines. */
  lemma FieldsAgreeExactly(fs: seq<string>, key: string, e: string)
    requires |fs| > 0
    ensures PyWrite(fs, key, e) == ShWrite(fs, key, e) <==> UpsertsAgree(fs, key)
  {
    match FirstSetting(fs, key, 0)
    case Some(i) => AgreeWhenSet(fs, key, e, i);
    case None => AgreeWhenUnset(fs, key, e);
  }

  lemma ShWriteWhenSet(fs: seq<string>, key: string, e: string, i: nat)
    requires |fs| > 0 && FirstSetting(fs, key, 0) == Some(i)
    ensures fs != [""] && ShWrite(fs, key, e) == SetAll(fs + [""], key, e)
  {
    assert !Sets("", key);
    assert fs != [""];
    FirstInTerminated(fs, key, 0);
  }

  lemma AgreeWhenSet(fs: seq<string>, key: string, e: string, i: nat)
    requires |fs| > 0 && FirstSetting(fs, key, 0) == Some(i)
    ensures PyWrite(fs, key, e) == ShWrite(fs, key, e) <==> UpsertsAgree(fs, key)
  {
    ShWriteWhenSet(fs, key, e, i);
    var sh := SetAll(fs + [""], key, e);
    if i == |fs| - 1 {
      AgreeOnRest(fs, key, e);
    } else {
      assert |PyWrite(fs, key, e)| == |fs| < |sh|;
    }
  }

  lemma AgreeWhenUnset(fs: seq<string>, key: string, e: string)
    requires |fs| > 0 && FirstSetting(fs, key, 0) == None
    ensures PyWrite(fs, key, e) == ShWrite(fs, key, e) <==> UpsertsAgree(fs, key)
  {
    FirstInTerminated(fs, key, 0);
    if fs == [""] {
      assert "" + e == e;
    } else {
      assert |PyWrite(fs, key, e)| == |fs| + 1 && |ShWrite(fs, key, e)| == |fs| + 2;
    }
  }

  ghost predicate NoNewlines(fs: seq<string>) {
    forall i :: 0 <= i < |fs| ==> Free(fs[i], IsNewline)
  }

  /** Files differ exactly when their fields do, since no field holds a newline. */
  lemma SameFieldsSameFile(a: seq<string>, b: seq<string>)
    requires |a| > 0 && |b| > 0 && NoNewlines(a) && NoNewlines(b)
    ensures FileOf(a) == FileOf(b) <==> a == b
  {
    SplitJoin(a, '\n', IsNewline);
    SplitJoin(b, '\n', IsNewline);
  }

  lemma EntryHasNoNewline(key: string, value: string)
    requires EnvName(key) && SedSafe(value)
    ensures Free(Entry(key, value), IsNewline)
  {
    EntryIsLine(key, value, IsNewline);
  }

  lemma PyWriteHasNoNewlines(fs: seq<string>, key: string, e: string)
    requires |fs| > 0 && NoNewlines(fs) && Free(e, IsNewline)
    ensures NoNewlines(PyWrite(fs, key, e))
  {
    FreeConcat(fs[|fs| - 1], e, IsNewline);
  }

  lemma ShWriteHasNoNewlines(fs: seq<string>, key: string, e: string)
    requires |fs| > 0 && NoNewlines(fs) && Free(e, IsNewline)
    ensures NoNewlines(ShWrite(fs, key, e))
  {
    assert NoNewlines(Terminated(fs));
  }

  /** For every file, key and value: the Python and the bash upsert write the same file
      if and only if the file is empty or its unterminated last line is the first line
      that sets the key. */
  lemma UpsertsAgreeExactly(text: string, key: string, value: string)
    requires EnvName(key) && SedSafe(value)
    ensures FileOf(PyFields(Fields(text), key, value)) == FileOf(ShFields(Fields(text), key, value))
            <==> UpsertsAgree(Fields(text), key)
  {
    var fs, e := Fields(text), Entry(key, value);
    SplitIsFree(text, IsNewline);
    EntryHasNoNewline(key, value);
    PyWriteHasNoNewlines(fs, key, e);
    ShWriteHasNoNewlines(fs, key, e);
    SameFieldsSameFile(PyWrite(fs, key, e), ShWrite(fs, key, e));
    FieldsAgreeExactly(fs, key, e);
  }

  /** On a newline-terminated file that is not empty the two never agree: the bash
      upsert leaves a blank line behind, after the file or before the new entry. */
  lemma ShellLeavesABlankLine(line: string, key: string, value: string)
    requires EnvName(key) && SedSafe(value)
    ensures PyFields([line, ""], key, value)
            == if Sets(line, key) then [Entry(key, value), ""] else [line, Entry(key, value), ""]
    ensures ShFields([line, ""], key, value)
            == if Sets(line, key) then [Entry(key, value), "", ""] else [line, "", Entry(key, value), ""]
  {
    var fs, e := [line, ""], Entry(key, value);
    FirstInTerminated(fs, key, 0);
    assert !Sets("", key);
    assert Terminated(fs) == [line, "", ""];
    if Sets(line, key) {
      assert FirstSetting(fs, key, 0) == Some(0);
      assert SetAll([line, "", ""], key, e) == [e, "", ""];
    } else {
      assert FirstSetting(fs, key, 0) == None;
      assert fs[..1] == [line] && "" + e == e;
      assert [line, "", ""][..2] == [line, ""];
    }
  }

  /** The daemon's upsert lacks the shell's guard for an unterminated last line: the
      new entry is glued to it. */
  lemma UnterminatedFileIsMashed(line: string, key: string, value: string)
    requires line != "" && !Sets(line, key) && EnvName(key) && SedSafe(value)
    ensures PyFields([line], key, value) == [line + Entry(key, value), ""]
    ensures ShFields([line], key, value) == [line, Entry(key, value), ""]
  {
    FirstInTerminated([line], key, 0);
    assert Terminated([line])[..1] == [line];
  }

  // ----- readers

  /** `_read_cluster_env_value`: the first line that sets the key. */
  function First(lines: seq<string>, key: string, parse: LineParser): Option<string> {
    if lines == [] then None
    else
      var before := First(lines[..|lines| - 1], key, parse);
      if before.Some? then before
      else match parse(lines[|lines| - 1])
           case None => None
           case Some((k, v)) => if k == key then Some(v) else None
  }

  lemma {:induction false} FirstStays(lines: seq<string>, key: string, parse: LineParser, i: nat)
    requires i <= |lines| && First(lines[..i], key, parse).Some?
    ensures First(lines, key, parse) == First(lines[..i], key, parse)
    decreases |lines|
  {
    if i == |lines| {
      assert lines[..i] == lines;
    } else {
      assert lines[..|lines| - 1][..i] == lines[..i];
      FirstStays(lines[..|lines| - 1], key, parse, i);
    }
  }

  method FirstValue(lines: seq<string>, key: string, parse: LineParser, default: string) returns (v: string)
    ensures v == match First(lines, key, parse) { case Some(x) => x case None => default }
  {
    for i := 0 to |lines|
      invariant First(lines[..i], key, parse) == None
    {
      assert lines[..i + 1][..i] == lines[..i];
      var entry := parse(lines[i]);
      if entry.Some? && entry.value.0 == key {
        FirstStays(lines, key, parse, i + 1);
        return entry.value.1;
      }
    }
    assert lines[..|lines|] == lines;
    v := default;
  }

  /** `_read_cluster_env_value`. */
  method ReadClusterEnvValue(text: string, key: string, default: string) returns (v: string)
    ensures v == match First(Fields(text), key, ParseLine) { case Some(x) => x case None => default }
  {
    v := FirstValue(Fields(text), key, ParseLine, default);
  }

  // ----- well-formed files

  ghost predicate SetsKey(line: string, key: string, parse: LineParser) {
    parse(line).Some? && parse(line).value.0 == key
  }

  /** At most one line per key. */
  ghost predicate OneEach(fs: seq<string>, parse: LineParser) {
    forall i, j :: 0 <= i < j < |fs| && parse(fs[i]).Some? && parse(fs[j]).Some? ==>
      parse(fs[i]).value.0 != parse(fs[j]).value.0
  }

  /** Newline-terminated, one physical line per entry, entries unindented, one per
      key. */
  ghost predicate WellFormedFile(fs: seq<string>, parse: LineParser) {
    && |fs| > 0 && fs[|fs| - 1] == ""
    && OneLine(fs)
    && (forall i :: 0 <= i < |fs| && parse(fs[i]).Some? ==> Sets(fs[i], parse(fs[i]).value.0))
    && OneEach(fs, parse)
  }

  lemma {:induction false} CollectHas(lines: seq<string>, key: string, parse: LineParser)
    ensures key in Collect(lines, parse) <==> exists i :: 0 <= i < |lines| && SetsKey(lines[i], key, parse)
  {
    if lines != [] {
      var before, n := lines[..|lines| - 1], |lines| - 1;
      CollectHas(before, key, parse);
      if key in Collect(lines, parse) {
        if SetsKey(lines[n], key, parse) {
        } else {
          var i :| 0 <= i < |before| && SetsKey(before[i], key, parse);
          assert SetsKey(lines[i], key, parse);
        }
      }
      if i :| 0 <= i < |lines| && SetsKey(lines[i], key, parse) {
        if i < n { assert SetsKey(before[i], key, parse); }
      }
    }
  }

  /** With one line per key the first-match and the last-match reader agree. */
  lemma {:induction false} ReadersAgree(fs: seq<string>, key: string, parse: LineParser)
    requires OneEach(fs, parse)
    ensures First(fs, key, parse) == if key in Collect(fs, parse) then Some(Collect(fs, parse)[key]) else None
  {
    if fs != [] {
      var before := fs[..|fs| - 1];
      ReadersAgree(before, key, parse);
      CollectHas(before, key, parse);
    }
  }

  lemma CollectMiddle(a: seq<string>, x: string, b: seq<string>, parse: LineParser)
    ensures Collect(a + [x] + b, parse) == Collect(a, parse) + Collect([x], parse) + Collect(b, parse)
  {
    CollectAppend(a + [x], b, parse);
    CollectAppend(a, [x], parse);
  }

  lemma LaterLinesDiffer(fs: seq<string>, i: nat, key: string, parse: LineParser)
    requires i < |fs| && OneEach(fs, parse) && SetsKey(fs[i], key, parse)
    ensures key !in Collect(fs[i + 1..], parse)
  {
    var b := fs[i + 1..];
    CollectHas(b, key, parse);
    forall j | 0 <= j < |b| ensures !SetsKey(b[j], key, parse) { assert b[j] == fs[i + 1 + j]; }
  }

  lemma CollectReplaced(fs: seq<string>, i: nat, e: string, key: string, value: string, parse: LineParser)
    requires i < |fs| && OneEach(fs, parse) && SetsKey(fs[i], key, parse) && parse(e) == Some((key, value))
    ensures Collect(fs[i := e], parse) == Collect(fs, parse)[key := value]
  {
    var a, b := fs[..i], fs[i + 1..];
    assert fs == a + [fs[i]] + b && fs[i := e] == a + [e] + b;
    CollectMiddle(a, fs[i], b, parse);
    CollectMiddle(a, e, b, parse);
    CollectOne(fs[i], parse);
    CollectOne(e, parse);
    LaterLinesDiffer(fs, i, key, parse);
  }

  lemma CollectAdded(a: seq<string>, e: string, key: string, value: string, parse: LineParser)
    requires parse(e) == Some((key, value)) && parse("") == None
    ensures Collect(a + [e, ""], parse) == Collect(a + [""], parse)[key := value]
  {
    assert a + [e, ""] == a + [e] + [""];
    CollectAppend(a + [e], [""], parse);
    CollectAppend(a, [e], parse);
    CollectAppend(a, [""], parse);
    CollectOne(e, parse);
    CollectOne("", parse);
  }

  /** What the parser has to say about the key's lines and the new entry. */
  ghost predicate EntryReads(key: string, value: string, parse: LineParser) {
    && parse("") == None && Free(Entry(key, value), IsBreak)
    && parse(Entry(key, value)) == Some((key, value))
  }

  ghost predicate ParserFits(fs: seq<string>, key: string, value: string, parse: LineParser) {
    && EntryReads(key, value, parse)
    && forall i :: 0 <= i < |fs| && Sets(fs[i], key) ==> SetsKey(fs[i], key, parse)
  }

  lemma ReplacedIsWellFormed(fs: seq<string>, i: nat, key: string, value: string, parse: LineParser)
    requires WellFormedFile(fs, parse) && ParserFits(fs, key, value, parse)
    requires i < |fs| - 1 && SetsKey(fs[i], key, parse)
    ensures WellFormedFile(fs[i := Entry(key, value)], parse)
  {
  }

  lemma AddedIsWellFormed(fs: seq<string>, key: string, value: string, parse: LineParser)
    requires WellFormedFile(fs, parse) && ParserFits(fs, key, value, parse)
    requires forall i :: 0 <= i < |fs| ==> !Sets(fs[i], key)
    ensures WellFormedFile(fs[..|fs| - 1] + [Entry(key, value), ""], parse)
  {
    forall i | 0 <= i < |fs| ensures !SetsKey(fs[i], key, parse) { assert !Sets(fs[i], key); }
  }

  /** The daemon's upsert, for any line parser that fits. */
  lemma UpsertReads(fs: seq<string>, key: string, value: string, parse: LineParser)
    requires WellFormedFile(fs, parse) && ParserFits(fs, key, value, parse)
    ensures WellFormedFile(PyFields(fs, key, value), parse)
    ensures Collect(PyFields(fs, key, value), parse) == Collect(fs, parse)[key := value]
  {
    var n, e := |fs| - 1, Entry(key, value);
    var first := FirstSetting(fs, key, 0);
    if first.Some? {
      var i := first.value;
      assert SetsKey(fs[i], key, parse) && i < n;
      CollectReplaced(fs, i, e, key, value, parse);
      ReplacedIsWellFormed(fs, i, key, value, parse);
    } else {
      assert fs == fs[..n] + [""] && fs[n] + e == e;
      CollectAdded(fs[..n], e, key, value, parse);
      AddedIsWellFormed(fs, key, value, parse);
    }
  }

  lemma OnlySetting(fs: seq<string>, i: nat, key: string, parse: LineParser)
    requires OneEach(fs, parse) && i < |fs| && Sets(fs[i], key)
    requires forall j :: 0 <= j < |fs| && Sets(fs[j], key) ==> SetsKey(fs[j], key, parse)
    ensures forall j :: 0 <= j < |fs| && Sets(fs[j], key) ==> j == i
  {
  }

  /** On a well-formed file the bash upsert is the daemon's upsert of the file with one
      more blank line; the two write the same only when the file is empty. */
  lemma ShellPadsThenUpserts(fs: seq<string>, key: string, value: string, parse: LineParser)
    requires WellFormedFile(fs, parse) && ParserFits(fs, key, value, parse)
    ensures ShWrite(fs, key, Entry(key, value)) == PyWrite(Terminated(fs), key, Entry(key, value))
    ensures UpsertsAgree(fs, key) <==> fs == [""]
  {
    var t, e := Terminated(fs), Entry(key, value);
    FirstInTerminated(fs, key, 0);
    assert !Sets("", key);
    match FirstSetting(t, key, 0)
    case Some(i) =>
      assert i < |fs| - 1 && t[i] == fs[i];
      OnlySetting(fs, i, key, parse);
      assert SetAll(t, key, e) == t[i := e];
    case None =>
      assert t[|t| - 1] + e == e;
  }

  lemma PaddingChangesNothing(fs: seq<string>, key: string, value: string, parse: LineParser)
    requires WellFormedFile(fs, parse) && ParserFits(fs, key, value, parse)
    ensures WellFormedFile(Terminated(fs), parse) && ParserFits(Terminated(fs), key, value, parse)
    ensures Collect(Terminated(fs), parse) == Collect(fs, parse)
  {
    assert !Sets("", key);
    CollectOne("", parse);
    CollectAppend(fs, [""], parse);
  }

  lemma EntryFits(key: string, value: string)
    requires CleanKey(key) && Unquote(value) == value
    ensures ParseLine(Entry(key, value)) == Some((key, value))
  {
    EntryLine(key, value);
  }

  lemma EntryIsLine(key: string, value: string, p: char -> bool)
    requires Free(key, p) && Free(value, p) && !p('=')
    ensures Free(Entry(key, value), p)
  {
    FreeConcat(key, "=", p);
    FreeConcat(key + "=", value, p);
  }

  lemma LinesFit(fs: seq<string>, key: string)
    requires CleanKey(key)
    ensures forall i :: 0 <= i < |fs| && Sets(fs[i], key) ==> SetsKey(fs[i], key, ParseLine)
  {
    forall i | 0 <= i < |fs| && Sets(fs[i], key) ensures SetsKey(fs[i], key, ParseLine) {
      SettingLineParses(fs[i], key);
    }
  }

  lemma NewEntryFits(key: string, value: string)
    requires CleanKey(key) && CleanValue(value)
    ensures EntryReads(key, value, ParseLine)
  {
    EntryFits(key, value);
    EntryIsLine(key, value, IsBreak);
    BlankLine();
  }

  lemma ReaderFits(fs: seq<string>, key: string, value: string)
    requires CleanKey(key) && CleanValue(value)
    ensures ParserFits(fs, key, value, ParseLine)
  {
    NewEntryFits(key, value);
    LinesFit(fs, key);
  }

  /** What an upsert promises, for one line parser. */
  ghost predicate Upserted(fs: seq<string>, fs': seq<string>, key: string, value: string, parse: LineParser) {
    && WellFormedFile(fs', parse)
    && Collect(fs', parse) == Collect(fs, parse)[key := value]
    && forall k :: First(fs', k, parse) == if k == key then Some(value) else First(fs, k, parse)
  }

  /** For every well-formed file, and every key and clean value: after the Python upsert
      as after the bash upsert the file is well formed again, the written key reads
      back its value and every other key is unchanged, for the dictionary reader as for
      the first-match reader. */
  lemma UpsertIsSound(fs: seq<string>, key: string, value: string)
    requires WellFormedFile(fs, ParseLine) && EnvName(key) && CleanValue(value) && SedSafe(value)
    ensures Upserted(fs, PyFields(fs, key, value), key, value, ParseLine)
    ensures Upserted(fs, ShFields(fs, key, value), key, value, ParseLine)
  {
    EnvNameIsClean(key);
    ReaderFits(fs, key, value);
    UpsertWith(fs, key, value, ParseLine);
    ShellUpsertWith(fs, key, value, ParseLine);
  }

  lemma UpsertWith(fs: seq<string>, key: string, value: string, parse: LineParser)
    requires WellFormedFile(fs, parse) && ParserFits(fs, key, value, parse)
    ensures Upserted(fs, PyFields(fs, key, value), key, value, parse)
  {
    UpsertReads(fs, key, value, parse);
    FirstAfterUpsert(fs, PyFields(fs, key, value), key, value, parse);
  }

  lemma ShellUpsertWith(fs: seq<string>, key: string, value: string, parse: LineParser)
    requires WellFormedFile(fs, parse) && ParserFits(fs, key, value, parse) && EnvName(key) && SedSafe(value)
    ensures Upserted(fs, ShFields(fs, key, value), key, value, parse)
  {
    var t := Terminated(fs);
    ShellPadsThenUpserts(fs, key, value, parse);
    PaddingChangesNothing(fs, key, value, parse);
    UpsertReads(t, key, value, parse);
    FirstAfterUpsert(fs, PyFields(t, key, value), key, value, parse);
  }

  lemma SettingLineParses(line: string, key: string)
    requires CleanKey(key) && Sets(line, key)
    ensures SetsKey(line, key, ParseLine)
  {
    var rest := line[|key| + 1..];
    assert line == key + "=" + rest;
    EntryLine(key, rest);
  }

  lemma FirstAfterUpsert(fs: seq<string>, fs': seq<string>, key: string, value: string, parse: LineParser)
    requires OneEach(fs, parse) && OneEach(fs', parse)
    requires Collect(fs', parse) == Collect(fs, parse)[key := value]
    ensures forall k :: First(fs', k, parse) == if k == key then Some(value) else First(fs, k, parse)
  {
    forall k ensures First(fs', k, parse) == if k == key then Some(value) else First(fs, k, parse) {
      ReadersAgree(fs, k, parse);
      ReadersAgree(fs', k, parse);
    }
  }

  /** On a well-formed file splitting at newlines and splitting at every line break
      are the same, so the dictionary reader sees these very lines. */
  lemma DictionaryReaderSeesFields(fs: seq<string>)
    requires |fs| > 0 && OneLine(fs)
    ensures ReadEnv(FileOf(fs)) == Collect(fs, ParseLine) && Fields(FileOf(fs)) == fs
  {
    SplitJoin(fs, '\n', IsBreak);
    forall i | 0 <= i < |fs| ensures Free(fs[i], IsNewline) {
      forall k | 0 <= k < |fs[i]| ensures !IsNewline(fs[i][k]) { assert !IsBreak(fs[i][k]); }
    }
    SplitJoin(fs, '\n', IsNewline);
  }
}
