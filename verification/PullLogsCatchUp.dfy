/** What cycles of PullLogsOnce push of files that do not change, all files at once
    (internal/collector/pipeline.go:229-309). */
module PullLogsCatchUp {
  import opened Text
  import opened LogTail
  import opened PullLogs

  /** Nothing fails, and no file changes. */
  function Quiet(contents: seq<string>): (env: seq<FileEnv>)
    ensures |env| == |contents|
  {
    seq(|contents|, i requires 0 <= i < |contents| =>
      FileEnv(false, false, Sight(true, true, contents[i], true, contents[i]), false))
  }

  /** The cursors after some cycles, and what each of these pushed. */
  datatype Pulled = Pulled(cursors: Cursors, pushes: seq<seq<(string, seq<string>)>>)

  function PullCycles(c: Cursors, files: seq<string>, contents: seq<string>, maxBytes: nat, k: nat): Pulled
    requires |files| == |contents|
  {
    if k == 0 then Pulled(c, [])
    else
      var before := PullCycles(c, files, contents, maxBytes, k - 1);
      Pulled(WriteAll(before.cursors, files, Quiet(contents), maxBytes),
             before.pushes + [Streams(before.cursors, files, Quiet(contents), maxBytes)])
  }

  /** All that one push carries for a path. */
  function TextOf(path: string, streams: seq<(string, seq<string>)>): string {
    if streams == [] then ""
    else
      var last := streams[|streams| - 1];
      TextOf(path, streams[..|streams| - 1]) + if last.0 == path then Concat(last.1) else ""
  }

  function TextOfAll(path: string, pushes: seq<seq<(string, seq<string>)>>): string {
    if pushes == [] then "" else TextOfAll(path, pushes[..|pushes| - 1]) + TextOf(path, pushes[|pushes| - 1])
  }

  predicate Distinct(files: seq<string>) {
    forall i, j :: 0 <= i < j < |files| ==> files[i] != files[j]
  }

  lemma {:induction false} TextOfSnoc(path: string, streams: seq<(string, seq<string>)>, last: (string, seq<string>))
    ensures TextOf(path, streams + [last]) == TextOf(path, streams) + if last.0 == path then Concat(last.1) else ""
  {
    assert (streams + [last])[..|streams|] == streams;
  }

  lemma {:induction false} TextOfMore(c: Cursors, files: seq<string>, env: seq<FileEnv>, maxBytes: nat, path: string)
    requires |files| == |env| && files != []
    ensures var n := |files| - 1;
            var r := TailOne(c, files[n], env[n], maxBytes);
            TextOf(path, Streams(c, files, env, maxBytes)) ==
            TextOf(path, Streams(c, files[..n], env[..n], maxBytes)) +
            if files[n] == path && r.Tailed? then Concat(r.entries) else ""
  {
    hide TailOne;
    var n := |files| - 1;
    var before, r := Streams(c, files[..n], env[..n], maxBytes), TailOne(c, files[n], env[n], maxBytes);
    StreamsMore(c, files, env, maxBytes);
    if Yields(c, files, env, maxBytes, n) {
      TextOfSnoc(path, before, (files[n], r.entries));
    } else {
      assert r.Tailed? ==> Concat(r.entries) == "";
      assert TextOf(path, before) + "" == TextOf(path, before);
    }
  }

  /** One push carries for a file what its tail yielded, once; for another path nothing. */
  lemma {:induction false} TextOfStreams(c: Cursors, files: seq<string>, env: seq<FileEnv>, maxBytes: nat, path: string)
    requires |files| == |env| && Distinct(files)
    ensures path !in files ==> TextOf(path, Streams(c, files, env, maxBytes)) == ""
    ensures forall i :: 0 <= i < |files| && files[i] == path ==>
              var r := TailOne(c, path, env[i], maxBytes);
              TextOf(path, Streams(c, files, env, maxBytes)) == if r.Tailed? then Concat(r.entries) else ""
  {
    hide TailOne;
    hide Streams;
    hide TextOf;
    if files == [] {
      NothingCarried(c, env, maxBytes, path);
    } else {
      var n := |files| - 1;
      assert files == files[..n] + [files[n]];
      TextOfMore(c, files, env, maxBytes, path);
      TextOfStreams(c, files[..n], env[..n], maxBytes, path);
      forall i | 0 <= i < |files| && files[i] == path
        ensures var r := TailOne(c, path, env[i], maxBytes);
                TextOf(path, Streams(c, files, env, maxBytes)) == if r.Tailed? then Concat(r.entries) else ""
      {
        if i < n {
          assert files[..n][i] == path && env[..n][i] == env[i];
        } else {
          assert forall j :: 0 <= j < n ==> files[..n][j] != path;
        }
      }
    }
  }

  lemma {:induction false} NothingCarried(c: Cursors, env: seq<FileEnv>, maxBytes: nat, path: string)
    requires env == []
    ensures TextOf(path, Streams(c, [], env, maxBytes)) == ""
  {
  }

  /** The cursor of a file after a cycle whose push is accepted. */
  lemma {:induction false} CursorOfFile(c: Cursors, files: seq<string>, env: seq<FileEnv>, maxBytes: nat, path: string)
    requires |files| == |env| && Distinct(files)
    ensures path !in files ==> OffsetOf(WriteAll(c, files, env, maxBytes), path) == OffsetOf(c, path)
    ensures forall i :: 0 <= i < |files| && files[i] == path ==>
              var r := TailOne(c, path, env[i], maxBytes);
              OffsetOf(WriteAll(c, files, env, maxBytes), path) ==
              if r.Tailed? && !env[i].cursorWriteFails then r.newOffset else OffsetOf(c, path)
  {
    hide TailOne;
    if files != [] {
      var n := |files| - 1;
      assert files == files[..n] + [files[n]];
      CursorOfFile(c, files[..n], env[..n], maxBytes, path);
      forall i | 0 <= i < |files| && files[i] == path
        ensures var r := TailOne(c, path, env[i], maxBytes);
                OffsetOf(WriteAll(c, files, env, maxBytes), path) ==
                if r.Tailed? && !env[i].cursorWriteFails then r.newOffset else OffsetOf(c, path)
      {
        if i < n {
          assert files[..n][i] == path && env[..n][i] == env[i];
        } else {
          assert forall j :: 0 <= j < n ==> files[..n][j] != path;
        }
      }
    }
  }

  /** A file's tail within a quiet cycle is the cycle that `CatchUp` counts. */
  lemma {:induction false} QuietTail(c: Cursors, path: string, contents: seq<string>, i: nat, maxBytes: nat)
    requires i < |contents|
    ensures !Quiet(contents)[i].cursorWriteFails
    ensures TailOne(c, path, Quiet(contents)[i], maxBytes) == OneCycle(contents[i], OffsetOf(c, path), maxBytes)
  {
    hide RemoteOutput;
    hide ParseTailOutput;
    hide Entries;
  }

  lemma {:induction false} TextOfAllSnoc(path: string, pushes: seq<seq<(string, seq<string>)>>, last: seq<(string, seq<string>)>)
    ensures TextOfAll(path, pushes + [last]) == TextOfAll(path, pushes) + TextOf(path, last)
  {
    assert (pushes + [last])[..|pushes|] == pushes;
  }

  /** Every file catches up as if it were alone: cursor and pushed text after k cycles over all files are
      those of `CatchUp`. */
  lemma {:induction false} CyclesCatchUp(c: Cursors, files: seq<string>, contents: seq<string>, maxBytes: nat, k: nat, i: nat)
    requires |files| == |contents| && i < |files| && Distinct(files)
    ensures var after := PullCycles(c, files, contents, maxBytes, k);
            (OffsetOf(after.cursors, files[i]), TextOfAll(files[i], after.pushes)) ==
            CatchUp(contents[i], OffsetOf(c, files[i]), maxBytes, k)
  {
    hide TailOne;
    hide OneCycle;
    hide OffsetOf;
    hide Streams;
    hide WriteAll;
    hide TextOf;
    hide Quiet;
    if k > 0 {
      CyclesCatchUp(c, files, contents, maxBytes, k - 1, i);
      var before := PullCycles(c, files, contents, maxBytes, k - 1);
      var env := Quiet(contents);
      TextOfStreams(before.cursors, files, env, maxBytes, files[i]);
      CursorOfFile(before.cursors, files, env, maxBytes, files[i]);
      QuietTail(before.cursors, files[i], contents, i, maxBytes);
      TextOfAllSnoc(files[i], before.pushes, Streams(before.cursors, files, env, maxBytes));
      assert TextOfAll(files[i], before.pushes) + "" == TextOfAll(files[i], before.pushes);
    }
  }

  /** So after k cycles each file's pushes carry exactly the bytes its cursor has passed, newlines aside,
      each once and in order; and every file is at its end once k is enough for it. */
  lemma {:induction false} AllFilesCatchUp(c: Cursors, files: seq<string>, contents: seq<string>, maxBytes: nat, k: nat, i: nat)
    requires |files| == |contents| && i < |files| && Distinct(files) && maxBytes > 0
    requires OffsetOf(c, files[i]) <= |contents[i]| <= INT64_MAX
    ensures var from, after := OffsetOf(c, files[i]), PullCycles(c, files, contents, maxBytes, k);
            var to := OffsetOf(after.cursors, files[i]);
            && from <= to <= |contents[i]|
            && TextOfAll(files[i], after.pushes) == Without(contents[i][from..to], '\n')
            && (to == |contents[i]| <==> k >= CyclesNeeded(|contents[i]| - from, maxBytes))
  {
    hide CatchUp;
    hide Reached;
    hide CyclesNeeded;
    hide PullCycles;
    hide TextOfAll;
    hide OffsetOf;
    hide Without;
    hide OneCycle;
    var from := OffsetOf(c, files[i]);
    CyclesCatchUp(c, files, contents, maxBytes, k, i);
    CatchUpAfter(contents[i], from, maxBytes, k);
    CatchUpTakesCeil(contents[i], from, maxBytes, k);
  }
}
