/** Whether a cluster runs on Pulsar, derived from cluster.env in two places: by the
    remove-node worker (daemon/workers/remove_node.py) and by the peer watchdog
    (daemon/watchdog.py).  `mq` and `tag` are MQ_TYPE and MILVUS_IMAGE_TAG as
    `_read_cluster_env_value` returns them, "" when absent. */
module PulsarDeploy {
  import opened Text
  import opened ClusterEnv

  predicate IsV(c: char) { c == 'v' }

  function LowerChar(c: char): char {
    if 'A' <= c <= 'Z' then (c as int + 32) as char else c
  }

  function Lower(s: string): (r: string)
    ensures |r| == |s|
  {
    seq(|s|, i requires 0 <= i < |s| => LowerChar(s[i]))
  }

  /** The worker's test of a tag: leading v's dropped, the first two parts are 2 and
      5. */
  predicate WorkerTag(tag: string) {
    var parts := Split(StripLeft(tag, IsV), IsDot);
    |parts| >= 2 && parts[0] == "2" && parts[1] == "5"
  }

  /** `_is_pulsar_deploy`: an explicit MQ_TYPE wins, else the tag decides. */
  predicate WorkerSaysPulsar(mq: string, tag: string) {
    var explicit := Lower(Strip(mq, IsSpace));
    if explicit != "" then explicit == "pulsar" else WorkerTag(tag)
  }

  /** The watchdog's derivation. */
  predicate WatchdogSaysPulsar(mq: string, tag: string) {
    if mq == "" then "v2.5" <= tag else mq == "pulsar"
  }

  // ----- where they differ

  /** A string that begins with 2.5 and there ends or goes on with a dot. */
  ghost predicate Is25(t: string) {
    "2.5" <= t && (|t| == 3 || t[3] == '.')
  }

  lemma PartsOf25(t: string)
    requires Is25(t)
    ensures var parts := Split(t, IsDot); |parts| >= 2 && parts[0] == "2" && parts[1] == "5"
  {
    var rest := t[2..];
    assert t == "2" + ['.'] + rest;
    SplitHead("2", '.', rest, IsDot);
    if |t| == 3 {
      assert rest == "5";
      SplitFree("5", IsDot);
    } else {
      assert rest == "5" + ['.'] + t[4..];
      SplitHead("5", '.', t[4..], IsDot);
    }
  }

  lemma PartsMake25(t: string)
    requires var parts := Split(t, IsDot); |parts| >= 2 && parts[0] == "2" && parts[1] == "5"
    ensures Is25(t)
  {
    var parts := Split(t, IsDot);
    JoinSplit(t, '.', IsDot);
    assert Join(parts, '.') == "2" + ['.'] + Join(parts[1..], '.');
    var rest := parts[1..];
    if |rest| == 1 {
      assert t == "2.5";
    } else {
      assert Join(rest, '.') == "5" + ['.'] + Join(rest[1..], '.');
      assert t == "2.5." + Join(rest[1..], '.');
    }
  }

  lemma WorkerTagIs25(tag: string)
    ensures WorkerTag(tag) <==> Is25(StripLeft(tag, IsV))
  {
    var t := StripLeft(tag, IsV);
    if Is25(t) { PartsOf25(t); }
    if WorkerTag(tag) { PartsMake25(t); }
  }

  lemma WatchdogTagIsOneV(tag: string)
    ensures "v2.5" <= tag <==> |StripLeft(tag, IsV)| == |tag| - 1 && "2.5" <= StripLeft(tag, IsV)
  {
    var t := StripLeft(tag, IsV);
    StripLeftEnds(tag, IsV);
    if "v2.5" <= tag {
      assert tag[1..][0] == '2';
      assert StripLeft(tag[1..], IsV) == tag[1..];
      assert t == tag[1..];
    }
    if |t| == |tag| - 1 && "2.5" <= t {
      assert t == tag[1..] && IsV(tag[0]);
      assert tag == "v" + t;
    }
  }

  /** What a maintainer can check in the file: without MQ_TYPE, a tag that names 2.5 at
      all carries exactly one v exactly when its minor is exactly 5; a blank MQ_TYPE
      goes with a tag that is not 2.5; any other MQ_TYPE is spelled "pulsar" if it
      means it. */
  ghost predicate SpelledPlainly(mq: string, tag: string) {
    var t := StripLeft(tag, IsV);
    if mq == "" then "2.5" <= t ==> (|t| == |tag| - 1 <==> Is25(t))
    else if Strip(mq, IsSpace) == "" then !Is25(t)
    else mq == "pulsar" || Lower(Strip(mq, IsSpace)) != "pulsar"
  }

  lemma PulsarIsPlain()
    ensures Lower(Strip("pulsar", IsSpace)) == "pulsar"
  {
    assert Free("pulsar", IsSpace);
    StripFree("pulsar", IsSpace);
    assert Lower("pulsar") == "pulsar";
  }

  /** The worker and the watchdog agree on whether there is a Pulsar singleton if and
      only if the file is spelled plainly. */
  lemma DerivationsAgreeExactly(mq: string, tag: string)
    ensures (WorkerSaysPulsar(mq, tag) <==> WatchdogSaysPulsar(mq, tag)) <==> SpelledPlainly(mq, tag)
  {
    WorkerTagIs25(tag);
    WatchdogTagIsOneV(tag);
    PulsarIsPlain();
    if mq == "" {
      StripFree(mq, IsSpace);
      assert Lower("") == "";
    } else if Strip(mq, IsSpace) == "" {
      assert Lower("") == "" && mq != "pulsar";
    } else {
      assert Lower(Strip(mq, IsSpace)) != "";
    }
  }

  /** Three files on which they differ: a tag without v, a minor that only begins with
      5, and a capital letter. */
  lemma TagWithoutV()
    ensures WorkerSaysPulsar("", "2.5.4") && !WatchdogSaysPulsar("", "2.5.4")
  {
    WorkerTagIs25("2.5.4");
    assert Lower("") == "";
    assert "2.5.4"[0] != 'v';
  }

  lemma MinorBeginningWith5()
    ensures !WorkerSaysPulsar("", "v2.50.0") && WatchdogSaysPulsar("", "v2.50.0")
  {
    WorkerTagIs25("v2.50.0");
    assert "v2.50.0"[1..] == "2.50.0" && StripLeft("2.50.0", IsV) == "2.50.0";
    assert Lower("") == "";
  }

  lemma CapitalLetter()
    ensures WorkerSaysPulsar("Pulsar", "") && !WatchdogSaysPulsar("Pulsar", "")
  {
    assert Free("Pulsar", IsSpace);
    StripFree("Pulsar", IsSpace);
    assert Lower("Pulsar") == "pulsar";
  }
}
