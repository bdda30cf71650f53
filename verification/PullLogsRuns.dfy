/** Runs of PullLogsOnce against remote files that grow and rotate: no byte is skipped. */
module PullLogsRuns {
  import opened Text
  import opened LogTail
  import opened PullLogs

  /** The entries one accepted push carried for one file, and the byte range they were read from. */
  datatype Chunk = Chunk(from: nat, len: nat, entries: seq<string>)

  /** A remote file: its content; whether it was replaced since its cursor was last written; what
      accepted pushes have carried of the present content; and how much of that was below the cursor
      before the run. */
  datatype Remote = Remote(content: string, rotated: bool, pushed: seq<Chunk>, base: nat)

  datatype World = World(files: map<string, Remote>, cursors: Cursors)

  datatype Event =
    | Grow(path: string, more: string)
    | Rotate(path: string, newContent: string)
    | Cycle(paths: seq<string>, env: seq<FileEnv>, pushOk: bool)

  // ---------------------------------------------------------- one file, one cycle

  function TailAt(prev: nat, env: FileEnv, maxBytes: nat): TailResult {
    TailSpec(if env.cursorReadFails then ReadError else Found(prev),
             if env.sshFails then None else Some(RemoteOutput(env.sight, prev, maxBytes)))
  }

  /** A missing cursor row and one at 0 are the same to the tailer. */
  lemma {:induction false} TailOneIsTailAt(c: Cursors, path: string, env: FileEnv, maxBytes: nat)
    ensures TailOne(c, path, env, maxBytes) == TailAt(OffsetOf(c, path), env, maxBytes)
  {
    hide RemoteOutput;
    hide ParseTailOutput;
  }

  /** The file may grow between the last event and stat, and between stat and the read. A file
      replaced since its cursor was written must show a size below the cursor. */
  predicate Consistent(f: Remote, cursor: nat, v: Sight) {
    && f.content <= v.atStat <= v.atRead
    && (f.rotated ==> SizeSeen(v) < cursor || cursor == 0)
  }

  predicate CursorWritten(cursor: nat, env: FileEnv, maxBytes: nat, pushOk: bool) {
    pushOk && TailAt(cursor, env, maxBytes).Tailed? && !env.cursorWriteFails
  }

  function CursorAfter(cursor: nat, env: FileEnv, maxBytes: nat, pushOk: bool): nat {
    if CursorWritten(cursor, env, maxBytes, pushOk) then TailAt(cursor, env, maxBytes).newOffset else cursor
  }

  function FileAfter(f: Remote, cursor: nat, env: FileEnv, maxBytes: nat, pushOk: bool): Remote {
    var r := TailAt(cursor, env, maxBytes);
    var v := env.sight;
    Remote(v.atRead,
           f.rotated && !CursorWritten(cursor, env, maxBytes, pushOk),
           if pushOk && r.Tailed? && r.entries != []
           then f.pushed + [Chunk(ReadStart(v, cursor), |BodySeen(v, cursor, maxBytes)|, r.entries)]
           else f.pushed,
           f.base)
  }

  /** A pushed chunk carries exactly the bytes of its range, newlines aside. */
  ghost predicate Carries(ch: Chunk, content: string) {
    ch.from + ch.len <= |content| && Concat(ch.entries) == Without(content[ch.from..ch.from + ch.len], '\n')
  }

  ghost predicate Covered(pushed: seq<Chunk>, i: nat) {
    exists ch :: ch in pushed && ch.from <= i < ch.from + ch.len
  }

  /** Every non-newline byte below the cursor has been in an accepted push, but for those that were
      below it before the run. */
  ghost predicate FileInv(f: Remote, cursor: nat) {
    && (forall ch :: ch in f.pushed ==> Carries(ch, f.content))
    && (!f.rotated ==> cursor <= |f.content|)
    && (!f.rotated ==> forall i :: f.base <= i < cursor && f.content[i] != '\n' ==> Covered(f.pushed, i))
  }

  lemma {:induction false} GrowKeepsChunk(ch: Chunk, content: string, more: string)
    requires Carries(ch, content) && content <= more
    ensures Carries(ch, more)
  {
    hide Concat;
    hide Without;
    assert more[ch.from..ch.from + ch.len] == content[ch.from..ch.from + ch.len];
  }

  lemma {:induction false} GrowKeepsFile(f: Remote, cursor: nat, more: string)
    requires FileInv(f, cursor) && f.content <= more
    ensures FileInv(f.(content := more), cursor)
  {
    hide Carries;
    forall ch | ch in f.pushed ensures Carries(ch, more) {
      GrowKeepsChunk(ch, f.content, more);
    }
  }

  lemma {:induction false} MoreChunks(pushed: seq<Chunk>, ch: Chunk, i: nat)
    ensures Covered(pushed, i) ==> Covered(pushed + [ch], i)
    ensures ch.from <= i < ch.from + ch.len ==> Covered(pushed + [ch], i)
  {
    assert ch in pushed + [ch];
    if Covered(pushed, i) {
      var c :| c in pushed && c.from <= i < c.from + c.len;
      assert c in pushed + [ch];
    }
  }

  lemma {:induction false} BodyRange(v: Sight, cursor: nat, maxBytes: nat)
    ensures var start, body := ReadStart(v, cursor), BodySeen(v, cursor, maxBytes);
            body != "" ==> start + |body| <= |v.atRead| && v.atRead[start..start + |body|] == body
  {
  }

  /** What a succeeding tail returns. */
  lemma {:induction false} TailedAt(cursor: nat, env: FileEnv, maxBytes: nat)
    requires TailAt(cursor, env, maxBytes).Tailed?
    ensures TailAt(cursor, env, maxBytes) ==
            Tailed(NewOffset(cursor, SizeSeen(env.sight), |BodySeen(env.sight, cursor, maxBytes)|),
                   Entries(BodySeen(env.sight, cursor, maxBytes)))
  {
    TailAgainstFile(Found(cursor), env.sight, maxBytes);
    hide RemoteOutput;
    hide ParseTailOutput;
    hide Entries;
    hide BodySeen;
  }

  /** The chunk a push of this tail's entries records carries its range. */
  lemma {:induction false} TailChunkCarries(cursor: nat, env: FileEnv, maxBytes: nat)
    requires TailAt(cursor, env, maxBytes).Tailed? && TailAt(cursor, env, maxBytes).entries != []
    ensures Carries(Chunk(ReadStart(env.sight, cursor), |BodySeen(env.sight, cursor, maxBytes)|,
                          TailAt(cursor, env, maxBytes).entries), env.sight.atRead)
  {
    hide TailAt;
    hide Concat;
    hide Without;
    TailedAt(cursor, env, maxBytes);
    var body := BodySeen(env.sight, cursor, maxBytes);
    EntriesCarryBody(body);
    BodyRange(env.sight, cursor, maxBytes);
    hide BodySeen;
    hide ReadStart;
    assert body != "" by {
      assert Entries("") == [];
    }
  }

  /** The chunks on record stay true, whatever the cycle did. */
  lemma {:induction false} CycleKeepsChunks(f: Remote, cursor: nat, env: FileEnv, maxBytes: nat, pushOk: bool, ch: Chunk)
    requires FileInv(f, cursor) && f.content <= env.sight.atRead
    requires ch in FileAfter(f, cursor, env, maxBytes, pushOk).pushed
    ensures Carries(ch, env.sight.atRead)
  {
    hide TailAt;
    hide ReadStart;
    hide BodySeen;
    hide Carries;
    if ch in f.pushed {
      GrowKeepsChunk(ch, f.content, env.sight.atRead);
    } else {
      TailChunkCarries(cursor, env, maxBytes);
    }
  }

  /** Where the tail reads from, and how far the cursor then moves. */
  lemma {:induction false} OffsetReach(f: Remote, cursor: nat, env: FileEnv, maxBytes: nat)
    requires Consistent(f, cursor, env.sight) && TailAt(cursor, env, maxBytes).Tailed?
    requires !f.rotated ==> cursor <= |f.content|
    ensures var v := env.sight;
            var start, body, offset := ReadStart(v, cursor), BodySeen(v, cursor, maxBytes), TailAt(cursor, env, maxBytes).newOffset;
            && offset <= |v.atRead|
            && (offset > start ==> body != "" && offset <= start + |body|)
            && (start == 0 || (start == cursor && !f.rotated))
  {
    hide TailAt;
    hide Entries;
    TailedAt(cursor, env, maxBytes);
    BodyReach(env.sight, cursor, maxBytes);
    hide BodySeen;
  }

  lemma {:induction false} BodyReach(v: Sight, cursor: nat, maxBytes: nat)
    ensures var start, body := ReadStart(v, cursor), BodySeen(v, cursor, maxBytes);
            body != "" ==> start + |body| <= |v.atRead|
  {
  }

  lemma {:induction false} CycleCovers(f: Remote, cursor: nat, env: FileEnv, maxBytes: nat, i: nat)
    requires FileInv(f, cursor) && Consistent(f, cursor, env.sight)
    requires CursorWritten(cursor, env, maxBytes, true)
    requires f.base <= i < CursorAfter(cursor, env, maxBytes, true) <= |env.sight.atRead| && env.sight.atRead[i] != '\n'
    ensures Covered(FileAfter(f, cursor, env, maxBytes, true).pushed, i)
  {
    OffsetReach(f, cursor, env, maxBytes);
    hide TailAt;
    hide BodySeen;
    hide Entries;
    hide Covered;
    hide Carries;
    hide ReadStart;
    var start := ReadStart(env.sight, cursor);
    var ch := Chunk(start, |BodySeen(env.sight, cursor, maxBytes)|, TailAt(cursor, env, maxBytes).entries);
    MoreChunks(f.pushed, ch, i);
    if i < start {
      assert Covered(f.pushed, i);
    } else {
      ByteMeansEntries(cursor, env, maxBytes, i);
    }
  }

  lemma {:induction false} ByteMeansEntries(cursor: nat, env: FileEnv, maxBytes: nat, i: nat)
    requires TailAt(cursor, env, maxBytes).Tailed?
    requires var start, body := ReadStart(env.sight, cursor), BodySeen(env.sight, cursor, maxBytes);
             start <= i < start + |body| && i < |env.sight.atRead| && env.sight.atRead[i] != '\n'
    ensures TailAt(cursor, env, maxBytes).entries != []
  {
    hide TailAt;
    hide ReadStart;
    hide BodySeen;
    var body := BodySeen(env.sight, cursor, maxBytes);
    BodyRange(env.sight, cursor, maxBytes);
    TailedAt(cursor, env, maxBytes);
    assert body[i - ReadStart(env.sight, cursor)] == env.sight.atRead[i];
    NoEntriesNoBytes(body, i - ReadStart(env.sight, cursor));
  }

  /** One file through one cycle, any of its steps failing. */
  lemma {:induction false} CycleKeepsFile(f: Remote, cursor: nat, env: FileEnv, maxBytes: nat, pushOk: bool)
    requires FileInv(f, cursor) && Consistent(f, cursor, env.sight)
    ensures FileInv(FileAfter(f, cursor, env, maxBytes, pushOk), CursorAfter(cursor, env, maxBytes, pushOk))
  {
    hide TailAt;
    hide Carries;
    hide Covered;
    hide ReadStart;
    hide BodySeen;
    var f', c' := FileAfter(f, cursor, env, maxBytes, pushOk), CursorAfter(cursor, env, maxBytes, pushOk);
    forall ch | ch in f'.pushed ensures Carries(ch, f'.content) {
      CycleKeepsChunks(f, cursor, env, maxBytes, pushOk, ch);
    }
    if CursorWritten(cursor, env, maxBytes, pushOk) {
      OffsetReach(f, cursor, env, maxBytes);
      forall i | f.base <= i < c' && f'.content[i] != '\n' ensures Covered(f'.pushed, i) {
        CycleCovers(f, cursor, env, maxBytes, i);
      }
    } else if !f.rotated {
      forall i | f.base <= i < cursor && f'.content[i] != '\n' ensures Covered(f'.pushed, i) {
        assert f'.content[i] == f.content[i];
        var r := TailAt(cursor, env, maxBytes);
        if f'.pushed != f.pushed {
          MoreChunks(f.pushed, f'.pushed[|f'.pushed| - 1], i);
        }
      }
    }
  }

  /** A file replaced since its cursor was written, met by a cycle whose cursor write takes effect,
      whatever the file's growth meanwhile and whichever of its commands fail: all its non-newline
      bytes below the new cursor are pushed if and only if the size seen is below the old cursor, or
      the file begins with nothing but newlines up to the old cursor. */
  lemma {:induction false} RotationCoveredIffSeen(f: Remote, cursor: nat, env: FileEnv, maxBytes: nat)
    requires f.rotated && f.pushed == [] && 0 < cursor && 0 < maxBytes
    requires f.content <= env.sight.atStat <= env.sight.atRead && CursorWritten(cursor, env, maxBytes, true)
    ensures var v := env.sight;
            var f', c' := FileAfter(f, cursor, env, maxBytes, true), CursorAfter(cursor, env, maxBytes, true);
            && c' <= |v.atRead| && (SizeSeen(v) >= cursor ==> cursor <= |v.atRead|)
            && ((forall i :: 0 <= i < c' && v.atRead[i] != '\n' ==> Covered(f'.pushed, i)) <==>
                SizeSeen(v) < cursor || forall i :: 0 <= i < cursor ==> v.atRead[i] == '\n')
  {
    hide TailAt;
    hide BodySeen;
    hide Entries;
    hide NewOffset;
    hide ReadStart;
    hide SizeSeen;
    var v := env.sight;
    WrittenTail(cursor, env, maxBytes);
    var body, start := BodySeen(v, cursor, maxBytes), ReadStart(v, cursor);
    var c' := TailAt(cursor, env, maxBytes).newOffset;
    var f' := FileAfter(f, cursor, env, maxBytes, true);
    var ch := Chunk(start, |body|, Entries(body));
    forall i | start <= i < c' && v.atRead[i] != '\n' ensures Covered(f'.pushed, i) {
      ByteMeansEntries(cursor, env, maxBytes, i);
      MoreChunks([], ch, i);
      assert [] + [ch] == [ch];
    }
    forall i | 0 <= i < start ensures !Covered(f'.pushed, i) {
      assert forall c :: c in f'.pushed ==> c == ch;
    }
  }

  /** Where a tail read, and where it left the cursor. */
  lemma {:induction false} WrittenTail(cursor: nat, env: FileEnv, maxBytes: nat)
    requires env.sight.atStat <= env.sight.atRead && TailAt(cursor, env, maxBytes).Tailed?
    ensures var v := env.sight;
            var start, body, c' := ReadStart(v, cursor), BodySeen(v, cursor, maxBytes), TailAt(cursor, env, maxBytes).newOffset;
            && TailAt(cursor, env, maxBytes).entries == Entries(body)
            && start <= c' <= start + |body| && c' <= |v.atRead|
            && start == (if SizeSeen(v) < cursor then 0 else cursor) && (SizeSeen(v) >= cursor ==> cursor <= |v.atRead|)
  {
    hide TailAt;
    hide Entries;
    TailedAt(cursor, env, maxBytes);
    BodyReach(env.sight, cursor, maxBytes);
    hide BodySeen;
  }

  // ------------------------------------------------------------- whole runs

  function FileOf(w: World, p: string): Remote {
    if p in w.files then w.files[p] else Remote("", false, [], 0)
  }

  /** The place of a path in a cycle's list, or the list's length. */
  function PlaceOf(paths: seq<string>, p: string): (i: nat)
    ensures i <= |paths| && (i < |paths| ==> paths[i] == p) && (i == |paths| <==> p !in paths)
  {
    if paths == [] then 0
    else if paths[|paths| - 1] == p then |paths| - 1
    else
      var i := PlaceOf(paths[..|paths| - 1], p);
      if i == |paths| - 1 then |paths| else i
  }

  ghost predicate Enabled(w: World, e: Event) {
    match e
    case Grow(_, _) => true
    case Rotate(_, _) => true
    case Cycle(paths, env, _) =>
      && |paths| == |env|
      && (forall i, j :: 0 <= i < j < |paths| ==> paths[i] != paths[j])
      && (forall i :: 0 <= i < |paths| ==> Consistent(FileOf(w, paths[i]), OffsetOf(w.cursors, paths[i]), env[i].sight))
  }

  function Apply(w: World, e: Event, maxBytes: nat): World
    requires e.Cycle? ==> |e.paths| == |e.env|
  {
    match e
    case Grow(p, more) => w.(files := w.files[p := FileOf(w, p).(content := FileOf(w, p).content + more)])
    case Rotate(p, newContent) => w.(files := w.files[p := Remote(newContent, true, [], 0)])
    case Cycle(paths, env, pushOk) =>
      World(map p | p in w.files.Keys + (set q | q in paths) ::
              (var i := PlaceOf(paths, p);
               if i < |paths| then FileAfter(FileOf(w, p), OffsetOf(w.cursors, p), env[i], maxBytes, pushOk)
               else FileOf(w, p)),
            if pushOk then WriteAll(w.cursors, paths, env, maxBytes) else w.cursors)
  }

  ghost function Exec(w: World, es: seq<Event>, maxBytes: nat): Option<World> {
    if es == [] then Some(w)
    else
      var before, e := Exec(w, es[..|es| - 1], maxBytes), es[|es| - 1];
      if before.Some? && Enabled(before.value, e) then Some(Apply(before.value, e, maxBytes)) else None
  }

  /** A run begins with cursors stored: a file's is within it, unless the file was replaced since. */
  predicate Stored(files: map<string, string>, replaced: set<string>, cursors: Cursors) {
    forall p :: p in cursors ==> p in files && (p in replaced || OffsetOf(cursors, p) <= |files[p]|)
  }

  function FirstSight(files: map<string, string>, replaced: set<string>, cursors: Cursors): World {
    World(map p | p in files ::
            Remote(files[p], p in replaced, [], if p in replaced then 0 else OffsetOf(cursors, p)),
          cursors)
  }

  ghost predicate Inv(w: World) {
    forall p :: FileInv(FileOf(w, p), OffsetOf(w.cursors, p))
  }

  /** A cycle's effect on one path's cursor. */
  lemma {:induction false} WriteAllAt(c: Cursors, paths: seq<string>, env: seq<FileEnv>, maxBytes: nat, p: string)
    requires |paths| == |env| && forall i, j :: 0 <= i < j < |paths| ==> paths[i] != paths[j]
    ensures var i := PlaceOf(paths, p);
            OffsetOf(WriteAll(c, paths, env, maxBytes), p) ==
            if i < |paths| then CursorAfter(OffsetOf(c, p), env[i], maxBytes, true) else OffsetOf(c, p)
  {
    hide TailAt;
    hide TailOne;
    if paths != [] {
      var n := |paths| - 1;
      WriteAllAt(c, paths[..n], env[..n], maxBytes, p);
      TailOneIsTailAt(c, paths[n], env[n], maxBytes);
    }
  }

  lemma {:induction false} CyclePreserves(w: World, e: Event, maxBytes: nat)
    requires e.Cycle? && Inv(w) && Enabled(w, e)
    ensures Inv(Apply(w, e, maxBytes))
  {
    hide FileInv;
    hide FileAfter;
    hide CursorAfter;
    hide Consistent;
    var w' := Apply(w, e, maxBytes);
    forall p ensures FileInv(FileOf(w', p), OffsetOf(w'.cursors, p)) {
      var i, f, c := PlaceOf(e.paths, p), FileOf(w, p), OffsetOf(w.cursors, p);
      assert FileInv(f, c);
      WriteAllAt(w.cursors, e.paths, e.env, maxBytes, p);
      if i < |e.paths| {
        CycleKeepsFile(f, c, e.env[i], maxBytes, e.pushOk);
        NoPushNoCursor(c, e.env[i], maxBytes, e.pushOk);
      }
    }
  }

  lemma {:induction false} NoPushNoCursor(cursor: nat, env: FileEnv, maxBytes: nat, pushOk: bool)
    ensures !pushOk ==> CursorAfter(cursor, env, maxBytes, pushOk) == cursor
  {
    hide TailAt;
  }

  lemma {:induction false} StepPreserves(w: World, e: Event, maxBytes: nat)
    requires Inv(w) && Enabled(w, e)
    ensures Inv(Apply(w, e, maxBytes))
  {
    match e
    case Cycle(_, _, _) => CyclePreserves(w, e, maxBytes);
    case Grow(path, more) =>
      hide Carries;
      hide Covered;
      var w' := Apply(w, e, maxBytes);
      forall p ensures FileInv(FileOf(w', p), OffsetOf(w'.cursors, p)) {
        assert FileInv(FileOf(w, p), OffsetOf(w.cursors, p));
        if p == path {
          GrowKeepsFile(FileOf(w, p), OffsetOf(w.cursors, p), FileOf(w, p).content + more);
        }
      }
    case Rotate(path, newContent) =>
      hide Carries;
      hide Covered;
      var w' := Apply(w, e, maxBytes);
      forall p ensures FileInv(FileOf(w', p), OffsetOf(w'.cursors, p)) {
        assert FileInv(FileOf(w, p), OffsetOf(w.cursors, p));
      }
  }

  lemma {:induction false} BeginsCovered(files: map<string, string>, replaced: set<string>, cursors: Cursors)
    requires Stored(files, replaced, cursors)
    ensures Inv(FirstSight(files, replaced, cursors))
  {
  }

  /** Over every run, from whatever cursors are stored: files grow at any moment, also between stat and
      tail, and are replaced; tails, pushes and cursor writes fail. Once a file's cursor has been written
      since it was last replaced, every non-newline byte from where it stood at the beginning, or from 0
      if the file was replaced, up to the cursor lies in a chunk that an accepted push carried in full. */
  lemma {:induction false} NoByteSkipped(files: map<string, string>, replaced: set<string>, cursors: Cursors,
                                         es: seq<Event>, maxBytes: nat)
    requires Stored(files, replaced, cursors) && Exec(FirstSight(files, replaced, cursors), es, maxBytes).Some?
    ensures Inv(Exec(FirstSight(files, replaced, cursors), es, maxBytes).value)
  {
    hide Inv;
    hide Enabled;
    hide Apply;
    if es == [] {
      BeginsCovered(files, replaced, cursors);
    } else {
      var init, last := es[..|es| - 1], es[|es| - 1];
      NoByteSkipped(files, replaced, cursors, init, maxBytes);
      StepPreserves(Exec(FirstSight(files, replaced, cursors), init, maxBytes).value, last, maxBytes);
    }
  }

  /** `base` is what it was at first sight, or 0 from the first replacement on. */
  lemma {:induction false} BaseIsFirstCursor(files: map<string, string>, replaced: set<string>, cursors: Cursors,
                                             es: seq<Event>, maxBytes: nat, p: string)
    requires Stored(files, replaced, cursors) && Exec(FirstSight(files, replaced, cursors), es, maxBytes).Some?
    ensures FileOf(Exec(FirstSight(files, replaced, cursors), es, maxBytes).value, p).base ==
            if p in replaced || exists e :: e in es && e.Rotate? && e.path == p then 0 else OffsetOf(cursors, p)
  {
    hide Enabled;
    hide FileAfter;
    hide OffsetOf;
    if es == [] {
      FirstBase(files, replaced, cursors, p);
    } else {
      var init, last := es[..|es| - 1], es[|es| - 1];
      BaseIsFirstCursor(files, replaced, cursors, init, maxBytes, p);
      var w := Exec(FirstSight(files, replaced, cursors), init, maxBytes).value;
      BaseStays(w, last, maxBytes, p);
      assert es == init + [last];
    }
  }

  lemma {:induction false} FirstBase(files: map<string, string>, replaced: set<string>, cursors: Cursors, p: string)
    requires Stored(files, replaced, cursors)
    ensures FileOf(FirstSight(files, replaced, cursors), p).base == if p in replaced then 0 else OffsetOf(cursors, p)
  {
  }

  lemma {:induction false} BaseStays(w: World, e: Event, maxBytes: nat, p: string)
    requires Enabled(w, e)
    ensures FileOf(Apply(w, e, maxBytes), p).base == if e.Rotate? && e.path == p then 0 else FileOf(w, p).base
  {
    hide TailAt;
    hide Consistent;
    hide CursorWritten;
  }

  /** The entries a cycle records as pushed are entries of the streams it hands to the pusher. */
  lemma {:induction false} RecordedIsPushed(c: Cursors, paths: seq<string>, env: seq<FileEnv>, maxBytes: nat, i: nat)
    requires |paths| == |env| && i < |paths|
    requires TailAt(OffsetOf(c, paths[i]), env[i], maxBytes).Tailed?
    requires TailAt(OffsetOf(c, paths[i]), env[i], maxBytes).entries != []
    ensures (paths[i], TailAt(OffsetOf(c, paths[i]), env[i], maxBytes).entries) in Streams(c, paths, env, maxBytes)
  {
    hide TailAt;
    hide TailOne;
    var n := |paths| - 1;
    if i == n {
      TailOneIsTailAt(c, paths[n], env[n], maxBytes);
    } else {
      RecordedIsPushed(c, paths[..n], env[..n], maxBytes, i);
    }
  }
}
