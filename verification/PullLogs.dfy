/** One server's batch of tailed files, cycle after cycle (internal/collector/pipeline.go). */
module PullLogs {
  import opened Text
  import opened LogTail

  /** What one cycle meets at one file: a failing cursor read, a failing SSH run, the remote file,
      a failing cursor write. */
  datatype FileEnv = FileEnv(cursorReadFails: bool, sshFails: bool, sight: Sight, cursorWriteFails: bool)

  type Cursors = map<string, nat>

  function ReadCursor(c: Cursors, path: string, env: FileEnv): CursorRead {
    if env.cursorReadFails then ReadError else if path in c then Found(c[path]) else NotFound
  }

  function OffsetOf(c: Cursors, path: string): nat {
    if path in c then c[path] else 0
  }

  /** One file's tail within a cycle. */
  function TailOne(c: Cursors, path: string, env: FileEnv, maxBytes: nat): TailResult {
    var cursor := ReadCursor(c, path, env);
    TailSpec(cursor, if env.sshFails then None else Some(RemoteOutput(env.sight, PrevOffset(cursor), maxBytes)))
  }

  /** The streams a cycle pushes: the tails that yielded entries, in file order. */
  function Streams(c: Cursors, files: seq<string>, env: seq<FileEnv>, maxBytes: nat): seq<(string, seq<string>)>
    requires |files| == |env|
  {
    if files == [] then []
    else
      var n := |files| - 1;
      var r := TailOne(c, files[n], env[n], maxBytes);
      Streams(c, files[..n], env[..n], maxBytes) +
      if r.Tailed? && r.entries != [] then [(files[n], r.entries)] else []
  }

  /** The cursor writes that follow an accepted push, in file order: every tail that succeeded. */
  function WriteAll(c0: Cursors, files: seq<string>, env: seq<FileEnv>, maxBytes: nat): Cursors
    requires |files| == |env|
  {
    if files == [] then c0
    else
      var n := |files| - 1;
      var before := WriteAll(c0, files[..n], env[..n], maxBytes);
      var r := TailOne(c0, files[n], env[n], maxBytes);
      if r.Tailed? && !env[n].cursorWriteFails then before[files[n] := r.newOffset] else before
  }

  function Succeeded(c: Cursors, files: seq<string>, env: seq<FileEnv>, maxBytes: nat): nat
    requires |files| == |env|
  {
    if files == [] then 0
    else
      var n := |files| - 1;
      Succeeded(c, files[..n], env[..n], maxBytes) + if TailOne(c, files[n], env[n], maxBytes).Tailed? then 1 else 0
  }

  class Pipeline {
    const maxBytes: nat
    /** The stored cursors of one server, keyed by log path. */
    var cursors: Cursors

    constructor (maxBytesPerCycle: int)
      ensures maxBytes == (if maxBytesPerCycle <= 0 then 1048576 else maxBytesPerCycle) && cursors == map[]
    {
      maxBytes := MaxBytes(maxBytesPerCycle);
      cursors := map[];
    }

    /** Tail every file, push all streams at once, then advance every cursor. */
    method PullLogsOnce(files: seq<string>, env: seq<FileEnv>, serverKnown: bool, pushOk: bool)
      returns (ok: nat, errs: nat, pushed: seq<(string, seq<string>)>, failed: bool)
      requires |files| == |env|
      modifies this
      ensures !serverKnown ==> failed && ok == errs == 0 && pushed == [] && cursors == old(cursors)
      ensures serverKnown ==>
                && failed == !pushOk
                && pushed == Streams(old(cursors), files, env, maxBytes)
                && ok == Succeeded(old(cursors), files, env, maxBytes) && ok + errs == |files|
                && cursors == if pushOk then WriteAll(old(cursors), files, env, maxBytes) else old(cursors)
    {
      hide TailSpec;
      hide RemoteOutput;
      ok, errs, pushed, failed := 0, 0, [], true;
      if !serverKnown {
        return;
      }
      var pending: seq<(string, nat, bool)> := [];
      for i := 0 to |files|
        invariant cursors == old(cursors) && ok + errs == i
        invariant pushed == Streams(cursors, files[..i], env[..i], maxBytes)
        invariant ok == Succeeded(cursors, files[..i], env[..i], maxBytes)
        invariant pending == Pending(cursors, files[..i], env[..i], maxBytes)
      {
        assert files[..i + 1][..i] == files[..i] && env[..i + 1][..i] == env[..i];
        var cursor := ReadCursor(cursors, files[i], env[i]);
        var res := TailFile(cursor, if env[i].sshFails then None
                                    else Some(RemoteOutput(env[i].sight, PrevOffset(cursor), maxBytes)));
        if res.TailFailed? {
          errs := errs + 1;
        } else {
          if res.entries != [] {
            pushed := pushed + [(files[i], res.entries)];
          }
          pending := pending + [(files[i], res.newOffset, env[i].cursorWriteFails)];
          ok := ok + 1;
        }
      }
      assert files[..|files|] == files && env[..|files|] == env;
      if !pushOk {
        return;
      }
      ghost var c0 := cursors;
      for i := 0 to |pending|
        invariant cursors == Write(c0, pending[..i])
      {
        assert pending[..i + 1][..i] == pending[..i];
        var (path, offset, fails) := pending[i];
        if !fails {
          cursors := cursors[path := offset];
        }
      }
      assert pending[..|pending|] == pending;
      WritePending(c0, files, env, maxBytes);
      failed := false;
    }
  }

  /** The cursor writes a cycle has pending: path, offset, and whether the write will fail. */
  function Pending(c: Cursors, files: seq<string>, env: seq<FileEnv>, maxBytes: nat): seq<(string, nat, bool)>
    requires |files| == |env|
  {
    if files == [] then []
    else
      var n := |files| - 1;
      var r := TailOne(c, files[n], env[n], maxBytes);
      Pending(c, files[..n], env[..n], maxBytes) +
      if r.Tailed? then [(files[n], r.newOffset, env[n].cursorWriteFails)] else []
  }

  function Write(c: Cursors, pending: seq<(string, nat, bool)>): Cursors {
    if pending == [] then c
    else
      var (path, offset, fails) := pending[|pending| - 1];
      var before := Write(c, pending[..|pending| - 1]);
      if !fails then before[path := offset] else before
  }

  lemma {:induction false} WritePending(c: Cursors, files: seq<string>, env: seq<FileEnv>, maxBytes: nat)
    requires |files| == |env|
    ensures Write(c, Pending(c, files, env, maxBytes)) == WriteAll(c, files, env, maxBytes)
  {
    hide TailOne;
    if files != [] {
      var n := |files| - 1;
      WritePending(c, files[..n], env[..n], maxBytes);
      var p := Pending(c, files, env, maxBytes);
      var q := Pending(c, files[..n], env[..n], maxBytes);
      if TailOne(c, files[n], env[n], maxBytes).Tailed? {
        assert p[..|p| - 1] == q;
      } else {
        assert p == q;
      }
    }
  }

  // ----------------------------------------------------------- what `ok` counts

  /** How many of the pending cursor writes take effect. */
  function TookEffect(pending: seq<(string, nat, bool)>): nat {
    if pending == [] then 0
    else TookEffect(pending[..|pending| - 1]) + if pending[|pending| - 1].2 then 0 else 1
  }

  /** How many cursors a cycle writes: those of its pending list, after an accepted push only. */
  function CursorsWritten(c: Cursors, files: seq<string>, env: seq<FileEnv>, maxBytes: nat, pushOk: bool): nat
    requires |files| == |env|
  {
    if pushOk then TookEffect(Pending(c, files, env, maxBytes)) else 0
  }

  /** Some tailed file's cursor write fails. */
  ghost predicate SomeWriteFails(c: Cursors, files: seq<string>, env: seq<FileEnv>, maxBytes: nat)
    requires |files| == |env|
  {
    exists i :: 0 <= i < |files| && TailOne(c, files[i], env[i], maxBytes).Tailed? && env[i].cursorWriteFails
  }

  lemma {:induction false} SomeWriteFailsMore(c: Cursors, files: seq<string>, env: seq<FileEnv>, maxBytes: nat)
    requires |files| == |env| && files != []
    ensures var n := |files| - 1;
            SomeWriteFails(c, files, env, maxBytes) <==>
            SomeWriteFails(c, files[..n], env[..n], maxBytes)
            || (TailOne(c, files[n], env[n], maxBytes).Tailed? && env[n].cursorWriteFails)
  {
    hide TailOne;
    var n := |files| - 1;
    if i :| 0 <= i < n && TailOne(c, files[..n][i], env[..n][i], maxBytes).Tailed? && env[..n][i].cursorWriteFails {
      assert TailOne(c, files[i], env[i], maxBytes).Tailed? && env[i].cursorWriteFails;
    }
    if i :| 0 <= i < |files| && TailOne(c, files[i], env[i], maxBytes).Tailed? && env[i].cursorWriteFails {
      if i < n {
        assert TailOne(c, files[..n][i], env[..n][i], maxBytes).Tailed? && env[..n][i].cursorWriteFails;
      }
    }
  }

  lemma {:induction false} PendingMore(c: Cursors, files: seq<string>, env: seq<FileEnv>, maxBytes: nat)
    requires |files| == |env| && files != []
    ensures var n := |files| - 1;
            var r := TailOne(c, files[n], env[n], maxBytes);
            TookEffect(Pending(c, files, env, maxBytes)) ==
            TookEffect(Pending(c, files[..n], env[..n], maxBytes)) + if r.Tailed? && !env[n].cursorWriteFails then 1 else 0
  {
    hide TailOne;
    var n := |files| - 1;
    var p, q := Pending(c, files, env, maxBytes), Pending(c, files[..n], env[..n], maxBytes);
    if TailOne(c, files[n], env[n], maxBytes).Tailed? {
      assert p[..|p| - 1] == q;
    } else {
      assert p == q;
    }
  }

  lemma {:induction false} PendingCounts(c: Cursors, files: seq<string>, env: seq<FileEnv>, maxBytes: nat)
    requires |files| == |env|
    ensures var written, ok := TookEffect(Pending(c, files, env, maxBytes)), Succeeded(c, files, env, maxBytes);
            written <= ok && (written == ok <==> !SomeWriteFails(c, files, env, maxBytes))
  {
    hide TailOne;
    hide SomeWriteFails;
    hide TookEffect;
    hide Pending;
    if files == [] {
      NothingPending(c, maxBytes);
      assert env == [];
    } else {
      var n := |files| - 1;
      PendingCounts(c, files[..n], env[..n], maxBytes);
      PendingMore(c, files, env, maxBytes);
      SomeWriteFailsMore(c, files, env, maxBytes);
    }
  }

  lemma {:induction false} NothingPending(c: Cursors, maxBytes: nat)
    ensures TookEffect(Pending(c, [], [], maxBytes)) == 0 && !SomeWriteFails(c, [], [], maxBytes)
  {
  }

  /** The count `ok` of a cycle is, as documented, the number of files whose cursor was written, if and
      only if no file was tailed, or the push was accepted and no tailed file's write failed. */
  lemma {:induction false} OkCountsWritesIff(c: Cursors, files: seq<string>, env: seq<FileEnv>, maxBytes: nat, pushOk: bool)
    requires |files| == |env|
    ensures Succeeded(c, files, env, maxBytes) == CursorsWritten(c, files, env, maxBytes, pushOk) <==>
            Succeeded(c, files, env, maxBytes) == 0 || (pushOk && !SomeWriteFails(c, files, env, maxBytes))
  {
    PendingCounts(c, files, env, maxBytes);
  }

  /** A failing input: one readable file, and a push that is refused. */
  lemma {:induction false} OkCountsAFileOfARefusedPush(c: Cursors, path: string, content: string, maxBytes: nat)
    requires |content| <= INT64_MAX
    ensures var env := [FileEnv(false, false, Sight(true, true, content, true, content), false)];
            Succeeded(c, [path], env, maxBytes) == 1 && CursorsWritten(c, [path], env, maxBytes, false) == 0
  {
    var v := Sight(true, true, content, true, content);
    var env := [FileEnv(false, false, v, false)];
    TailAgainstFile(ReadCursor(c, path, env[0]), v, maxBytes);
    assert TailOne(c, path, env[0], maxBytes).Tailed?;
    hide TailOne;
    assert [path][..0] == [] && env[..0] == [];
    assert Succeeded(c, [], [], maxBytes) == 0;
  }

  // ------------------------------------------------------------ what is pushed

  /** The tail of file `i` succeeds with something to push. */
  ghost predicate Yields(c: Cursors, files: seq<string>, env: seq<FileEnv>, maxBytes: nat, i: nat)
    requires |files| == |env|
  {
    i < |files| && TailOne(c, files[i], env[i], maxBytes).Tailed? && TailOne(c, files[i], env[i], maxBytes).entries != []
  }

  /** The pushed streams are those of the files at `place`, in file order, each with its tail's entries. */
  ghost predicate StreamsOf(c: Cursors, files: seq<string>, env: seq<FileEnv>, maxBytes: nat,
                            pushed: seq<(string, seq<string>)>, place: seq<nat>)
    requires |files| == |env|
  {
    && |place| == |pushed|
    && (forall j, k :: 0 <= j < k < |place| ==> place[j] < place[k])
    && (forall j :: 0 <= j < |place| ==> Yields(c, files, env, maxBytes, place[j]))
    && (forall j :: 0 <= j < |place| ==>
          pushed[j] == (files[place[j]], TailOne(c, files[place[j]], env[place[j]], maxBytes).entries))
  }

  lemma {:induction false} YieldsBefore(c: Cursors, files: seq<string>, env: seq<FileEnv>, maxBytes: nat, i: nat)
    requires |files| == |env| && i < |files| - 1
    ensures var n := |files| - 1; Yields(c, files[..n], env[..n], maxBytes, i) <==> Yields(c, files, env, maxBytes, i)
    ensures files[..|files| - 1][i] == files[i] && env[..|files| - 1][i] == env[i]
  {
    hide TailOne;
  }

  lemma {:induction false} PlaceMore(c: Cursors, files: seq<string>, env: seq<FileEnv>, maxBytes: nat,
                                     before: seq<(string, seq<string>)>, place: seq<nat>)
    requires |files| == |env| && files != []
    requires var n := |files| - 1;
             StreamsOf(c, files[..n], env[..n], maxBytes, before, place)
    ensures StreamsOf(c, files, env, maxBytes, before, place)
    ensures var n := |files| - 1;
            Yields(c, files, env, maxBytes, n) ==>
              StreamsOf(c, files, env, maxBytes, before + [(files[n], TailOne(c, files[n], env[n], maxBytes).entries)], place + [n])
  {
    hide TailOne;
    var n := |files| - 1;
    forall j | 0 <= j < |place|
      ensures place[j] < n && Yields(c, files, env, maxBytes, place[j])
              && before[j] == (files[place[j]], TailOne(c, files[place[j]], env[place[j]], maxBytes).entries)
    {
      assert Yields(c, files[..n], env[..n], maxBytes, place[j]);
      YieldsBefore(c, files, env, maxBytes, place[j]);
    }
  }

  /** What a cycle pushes: of every tail that yields entries one stream with those entries, in file order,
      and nothing else. */
  lemma {:induction false} StreamsAreOnePerTail(c: Cursors, files: seq<string>, env: seq<FileEnv>, maxBytes: nat)
    returns (place: seq<nat>)
    requires |files| == |env|
    ensures StreamsOf(c, files, env, maxBytes, Streams(c, files, env, maxBytes), place)
    ensures forall i: nat :: Yields(c, files, env, maxBytes, i) <==> i in place
  {
    hide TailOne;
    hide StreamsOf;
    if files == [] {
      place := [];
      NoStreams(c, env, maxBytes);
    } else {
      var n := |files| - 1;
      var before := StreamsAreOnePerTail(c, files[..n], env[..n], maxBytes);
      PlaceMore(c, files, env, maxBytes, Streams(c, files[..n], env[..n], maxBytes), before);
      place := if Yields(c, files, env, maxBytes, n) then before + [n] else before;
      forall i: nat ensures Yields(c, files, env, maxBytes, i) <==> i in place {
        if i < n {
          YieldsBefore(c, files, env, maxBytes, i);
        }
      }
      StreamsMore(c, files, env, maxBytes);
    }
  }

  lemma {:induction false} StreamsMore(c: Cursors, files: seq<string>, env: seq<FileEnv>, maxBytes: nat)
    requires |files| == |env| && files != []
    ensures var n := |files| - 1;
            var before := Streams(c, files[..n], env[..n], maxBytes);
            Streams(c, files, env, maxBytes) ==
            if Yields(c, files, env, maxBytes, n) then before + [(files[n], TailOne(c, files[n], env[n], maxBytes).entries)]
            else before
  {
    hide TailOne;
    var n := |files| - 1;
    assert Streams(c, files[..n], env[..n], maxBytes) + [] == Streams(c, files[..n], env[..n], maxBytes);
  }

  lemma {:induction false} NoStreams(c: Cursors, env: seq<FileEnv>, maxBytes: nat)
    requires env == []
    ensures StreamsOf(c, [], env, maxBytes, Streams(c, [], env, maxBytes), [])
  {
  }

  /** For distinct files: a path has one stream if its tail yields entries, and none otherwise. */
  lemma {:induction false} OneStreamPerPath(c: Cursors, files: seq<string>, env: seq<FileEnv>, maxBytes: nat, i: nat)
    requires |files| == |env| && i < |files| && forall j, k :: 0 <= j < k < |files| ==> files[j] != files[k]
    ensures var pushed := Streams(c, files, env, maxBytes);
            && (Yields(c, files, env, maxBytes, i) <==> exists j :: 0 <= j < |pushed| && pushed[j].0 == files[i])
            && (forall j, k :: 0 <= j < k < |pushed| ==> pushed[j].0 != pushed[k].0)
            && (forall j :: 0 <= j < |pushed| && pushed[j].0 == files[i] ==>
                  pushed[j].1 == TailOne(c, files[i], env[i], maxBytes).entries)
  {
    hide TailOne;
    hide Streams;
    var pushed := Streams(c, files, env, maxBytes);
    var place := StreamsAreOnePerTail(c, files, env, maxBytes);
    assert forall j :: 0 <= j < |place| ==> place[j] < |files| && pushed[j].0 == files[place[j]];
    if Yields(c, files, env, maxBytes, i) {
      var j :| 0 <= j < |place| && place[j] == i;
      assert pushed[j].0 == files[i];
    }
    forall j | 0 <= j < |pushed| && pushed[j].0 == files[i] ensures place[j] == i {
      assert files[place[j]] == files[i];
    }
    forall j, k | 0 <= j < k < |pushed| ensures pushed[j].0 != pushed[k].0 {
      assert place[j] < place[k];
    }
  }
}
