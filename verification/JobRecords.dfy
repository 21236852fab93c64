/** The job record of daemon/jobs.py and the code that edits one record: the log
    writer, the progress setter, the owner's verdict and the sweeper's mark. */
module JobRecords {
  import opened Text

  const LOG_TAIL_LINES := 200
  const LOG_LINE_CAP_CHARS := 4000

  datatype State = Pending | Running | Done | Failed | Cancelled

  predicate Terminal(s: State) {
    s.Done? || s.Failed? || s.Cancelled?
  }

  datatype Record = Record(
    id: string, state: State, progress: real, startedAt: real, finishedAt: Option<real>,
    error: Option<string>, owner: string, logs: seq<string>, heartbeat: Option<real>)

  /** What every stored record satisfies. */
  predicate WellFormed(r: Record) {
    && (r.finishedAt.Some? <==> Terminal(r.state))
    && 0.0 <= r.progress <= 1.0
    && (r.state.Done? ==> r.progress == 1.0 && r.error.None?)
    && (r.state.Failed? ==> r.error.Some?)
  }

  // ----- log lines

  function CapLine(line: string): string {
    var text := StripRight(line, c => c == '\n');
    if |text| > LOG_LINE_CAP_CHARS then text[..LOG_LINE_CAP_CHARS] + "\U{2026}[truncated]" else text
  }

  /** A line is kept without its newlines, and cut after 4000 characters. */
  lemma {:induction false} CapLineExactly(text: string, newlines: string)
    requires text == "" || text[|text| - 1] != '\n'
    requires forall i :: 0 <= i < |newlines| ==> newlines[i] == '\n'
    ensures CapLine(text + newlines) == if |text| <= 4000 then text else text[..4000] + "\U{2026}[truncated]"
    decreases |newlines|
  {
    if newlines == "" {
      assert text + newlines == text;
    } else {
      var n := |newlines| - 1;
      assert (text + newlines)[..|text| + n] == text + newlines[..n];
      CapLineExactly(text, newlines[..n]);
    }
  }

  function Tail<T>(xs: seq<T>, n: nat): seq<T> {
    if |xs| > n then xs[|xs| - n..] else xs
  }

  function CapAll(lines: seq<string>): (r: seq<string>)
    ensures |r| == |lines|
  {
    if lines == [] then [] else CapAll(lines[..|lines| - 1]) + [CapLine(lines[|lines| - 1])]
  }

  /** The log buffer a reader should see after the worker wrote `lines`. */
  function LogTail(lines: seq<string>): seq<string> {
    Tail(CapAll(lines), LOG_TAIL_LINES)
  }

  function AppendLog(logs: seq<string>, line: string): seq<string> {
    Tail(logs + [CapLine(line)], LOG_TAIL_LINES)
  }

  lemma AppendLogTracksTail(lines: seq<string>, line: string)
    ensures AppendLog(LogTail(lines), line) == LogTail(lines + [line])
  {
    assert (lines + [line])[..|lines|] == lines;
  }

  lemma {:induction false} CapAllAt(lines: seq<string>, i: nat)
    requires i < |lines|
    ensures CapAll(lines)[i] == CapLine(lines[i])
  {
    if i < |lines| - 1 {
      CapAllAt(lines[..|lines| - 1], i);
    }
  }

  lemma TailAt<T>(xs: seq<T>, n: nat, i: nat)
    requires i < |Tail(xs, n)|
    ensures |Tail(xs, n)| == (if |xs| > n then n else |xs|)
    ensures Tail(xs, n)[i] == xs[|xs| - |Tail(xs, n)| + i]
  {
  }

  /** The buffer holds the last 200 lines, in order, each cut to the cap. */
  lemma {:induction false} LogTailShows(lines: seq<string>, i: nat)
    requires i < |LogTail(lines)|
    ensures |LogTail(lines)| == (if |lines| > 200 then 200 else |lines|)
    ensures LogTail(lines)[i] == CapLine(lines[|lines| - |LogTail(lines)| + i])
  {
    TailAt(CapAll(lines), LOG_TAIL_LINES, i);
    CapAllAt(lines, |lines| - |LogTail(lines)| + i);
  }

  // ----- edits

  function Clamp(p: real): real {
    if p < 0.0 then 0.0 else if p > 1.0 then 1.0 else p
  }

  /** The owner's verdict: a handler that returned, raised, or was cancelled. */
  function Conclude(r: Record, outcome: State, error: string, now: real): Record
    requires Terminal(outcome)
  {
    r.(state := outcome,
       progress := if outcome.Done? then 1.0 else r.progress,
       error := if outcome.Failed? then Some(error) else r.error,
       finishedAt := Some(now))
  }

  predicate Stale(r: Record, cutoff: real) {
    r.state.Running? && (r.heartbeat.None? || r.heartbeat.value < cutoff)
  }

  function MarkFailed(r: Record, error: string, clock: real): Record {
    r.(state := Failed, finishedAt := Some(clock), error := Some(error))
  }

  /** The in-memory job object an executing daemon edits. */
  class Job {
    var rec: Record
    ghost var written: seq<string>

    ghost predicate Valid()
      reads this
    {
      rec.logs == LogTail(written) && 0.0 <= rec.progress <= 1.0
    }

    constructor (id: string, owner: string, now: real)
      ensures Valid() && written == [] && WellFormed(rec)
      ensures rec == Record(id, Pending, 0.0, now, None, None, owner, [], None)
    {
      rec := Record(id, Pending, 0.0, now, None, None, owner, [], None);
      written := [];
    }

    /** `log_writer`: strip, cut, append, trim. */
    method LogWriter(line: string)
      requires Valid()
      modifies this
      ensures Valid() && written == old(written) + [line]
      ensures rec == old(rec).(logs := LogTail(written))
    {
      AppendLogTracksTail(written, line);
      var text := StripRight(line, c => c == '\n');
      if |text| > LOG_LINE_CAP_CHARS {
        text := text[..LOG_LINE_CAP_CHARS] + "\U{2026}[truncated]";
      }
      var logs := rec.logs + [text];
      if |logs| > LOG_TAIL_LINES {
        logs := logs[|logs| - LOG_TAIL_LINES..];
      }
      rec := rec.(logs := logs);
      written := written + [line];
    }

    method SetProgress(p: real)
      requires Valid()
      modifies this`rec
      ensures Valid() && rec == old(rec).(progress := Clamp(p))
      ensures 0.0 <= p <= 1.0 ==> rec.progress == p
      ensures p > 1.0 ==> rec.progress == 1.0
      ensures p < 0.0 ==> rec.progress == 0.0
    {
      rec := rec.(progress := if p < 0.0 then 0.0 else if p > 1.0 then 1.0 else p);
    }

    /** The start of `_execute`. */
    method Begin(now: real)
      requires Valid()
      modifies this`rec
      ensures Valid() && rec == old(rec).(state := Running, heartbeat := Some(now))
    {
      rec := rec.(state := Running, heartbeat := Some(now));
    }

    /** The flusher's stamp before each put. */
    method Beat(now: real)
      requires Valid()
      modifies this`rec
      ensures Valid() && rec == old(rec).(heartbeat := Some(now))
    {
      rec := rec.(heartbeat := Some(now));
    }

    /** The end of `_execute`: a handler that returned is done, one that was cancelled is
        cancelled, one that raised has failed with its error; each is finished now, and
        nothing else of the record changes. */
    method Finish(outcome: State, error: string, now: real)
      requires Valid() && Terminal(outcome)
      modifies this`rec
      ensures Valid() && rec == Conclude(old(rec), outcome, error, now)
      ensures rec.state == outcome && rec.finishedAt == Some(now)
      ensures rec.progress == if outcome == Done then 1.0 else old(rec).progress
      ensures rec.error == if outcome == Failed then Some(error) else old(rec).error
      ensures rec.id == old(rec).id && rec.owner == old(rec).owner && rec.logs == old(rec).logs
      ensures rec.startedAt == old(rec).startedAt && rec.heartbeat == old(rec).heartbeat
    {
      match outcome {
        case Done => rec := rec.(state := Done, progress := 1.0);
        case Cancelled => rec := rec.(state := Cancelled);
        case Failed => rec := rec.(state := Failed, error := Some(error));
      }
      rec := rec.(finishedAt := Some(now));
    }
  }

  predicate Expired(r: Record, cutoff: real) {
    Terminal(r.state) && r.finishedAt.Some? && r.finishedAt.value < cutoff
  }

  // ----- sweeps over the stored jobs

  /** What a sweep with this cutoff leaves under one key. */
  function Swept(r: Record, cutoff: real, error: string, clock: real): Record {
    if Stale(r, cutoff) then MarkFailed(r, error, clock) else r
  }

  class JobsManager {
    var store: map<string, Record>

    constructor ()
      ensures store == map[]
    {
      store := map[];
    }

    /** `prune_stuck_running` run without interference: `ids` is the listing order
        and `lands[i]` says whether the i-th put succeeds.  Exactly the stale
        running jobs whose put lands are marked, each one once; nothing else
        changes. */
    method PruneStuckRunning(cutoff: real, error: string, clock: real, ids: seq<string>, lands: seq<bool>)
      returns (marked: nat)
      requires |ids| == |lands| && forall i, j :: 0 <= i < j < |ids| ==> ids[i] != ids[j]
      requires forall k :: k in ids <==> k in store
      modifies this
      ensures store.Keys == old(store).Keys
      ensures forall i :: 0 <= i < |ids| ==>
        var was := old(store)[ids[i]];
        store[ids[i]] == if lands[i] && was.state == Running && (was.heartbeat.None? || was.heartbeat.value < cutoff)
                         then was.(state := Failed, finishedAt := Some(clock), error := Some(error))
                         else was
      ensures (forall k :: k in old(store) ==> WellFormed(old(store)[k])) ==>
              forall k :: k in store ==> WellFormed(store[k])
      ensures marked <= |ids|
      ensures marked == 0 <==> store == old(store)
    {
      marked := 0;
      var listing := store;
      for i := 0 to |ids|
        invariant store.Keys == listing.Keys
        invariant forall k :: 0 <= k < i ==>
          store[ids[k]] == if lands[k] then Swept(listing[ids[k]], cutoff, error, clock) else listing[ids[k]]
        invariant forall k :: i <= k < |ids| ==> store[ids[k]] == listing[ids[k]]
        invariant marked <= i
        invariant marked == 0 <==> store == listing
      {
        var job := listing[ids[i]];
        if Stale(job, cutoff) && lands[i] {
          store := store[ids[i] := MarkFailed(job, error, clock)];
          marked := marked + 1;
          assert store[ids[i]] != listing[ids[i]];
        }
      }
    }

    /** `prune_old`: deletes the terminated jobs finished before the cutoff and
        never a pending or running one. */
    method PruneOld(cutoff: real, ids: seq<string>, lands: seq<bool>) returns (deleted: nat)
      requires |ids| == |lands| && forall i, j :: 0 <= i < j < |ids| ==> ids[i] != ids[j]
      requires forall k :: k in ids <==> k in store
      modifies this
      ensures forall k :: k in store ==> k in old(store) && store[k] == old(store)[k]
      ensures forall i :: 0 <= i < |ids| ==>
        var was := old(store)[ids[i]];
        (ids[i] !in store <==>
          && lands[i] && (was.state == Done || was.state == Failed || was.state == Cancelled)
          && was.finishedAt.Some? && was.finishedAt.value < cutoff)
      ensures deleted <= |ids|
      ensures deleted == 0 <==> store == old(store)
    {
      deleted := 0;
      var listing := store;
      for i := 0 to |ids|
        invariant forall k :: k in store ==> k in listing && store[k] == listing[k]
        invariant forall k :: 0 <= k < i ==>
          (ids[k] !in store <==> lands[k] && Expired(listing[ids[k]], cutoff))
        invariant forall k :: i <= k < |ids| ==> ids[k] in store
        invariant deleted <= i
        invariant deleted == 0 <==> store == listing
      {
        var job := listing[ids[i]];
        if Expired(job, cutoff) && lands[i] {
          store := store - {ids[i]};
          deleted := deleted + 1;
          assert ids[i] in listing && ids[i] !in store;
        }
      }
    }
  }
}
