/** One connection, from the bytes the bench writes to the lines Loki holds and the stored cursor. */
module StreamEndToEnd {
  import opened Text
  import opened StreamProtocol
  import opened Sessions
  import opened SinkSpec
  import opened LokiSinks
  import opened SinkProtocol

  /** The OnLine calls among a session's handler calls. */
  function OnLines(calls: seq<Call>): seq<Call> {
    if calls == [] then []
    else
      var last := calls[|calls| - 1];
      OnLines(calls[..|calls| - 1]) + if last.OnLine? then [last] else []
  }

  /** The OnLine call behind one event of a run, when it came from the given server's session. */
  function CallOf(e: SinkProtocol.Event, server: int): seq<Call> {
    if e.Observe? && e.key.serverID == server then [OnLine(e.key.fileID, e.line.entry.line, e.line.byteLen)] else []
  }

  /** The OnLine calls a run of the sink took from one server's session. */
  function ObservedCalls(es: seq<SinkProtocol.Event>, server: int): seq<Call> {
    if es == [] then [] else ObservedCalls(es[..|es| - 1], server) + CallOf(es[|es| - 1], server)
  }

  function Texts(entries: seq<Entry>): seq<string> {
    seq(|entries|, i requires 0 <= i < |entries| => entries[i].line)
  }

  /** The lines of one file, in order, as the monitor should hold them. */
  function TextsOf(lines: seq<FileLine>, id: string): seq<string> {
    if lines == [] then []
    else
      var l := lines[|lines| - 1];
      TextsOf(lines[..|lines| - 1], id) + if l.id == id then [DropCR(l.text)] else []
  }

  /** The bytes of one file that the stream covers. */
  function Segment(lines: seq<FileLine>, id: string): string {
    if lines == [] then ""
    else
      var l := lines[|lines| - 1];
      Segment(lines[..|lines| - 1], id) + if l.id == id then l.text + ['\n'] else ""
  }

  /** How many lines of one file end in CR LF. */
  function CRLFs(lines: seq<FileLine>, id: string): nat {
    if lines == [] then 0
    else
      var l := lines[|lines| - 1];
      CRLFs(lines[..|lines| - 1], id) + if l.id == id && DropCR(l.text) != l.text then 1 else 0
  }

  lemma {:induction false} OnLinesOfStream(lines: seq<FileLine>, first: Call)
    requires !first.OnLine?
    ensures OnLines([first] + DeliveredCalls(lines)) == DeliveredCalls(lines)
  {
    var all := [first] + DeliveredCalls(lines);
    if lines == [] {
      assert all[..|all| - 1] == [];
    } else {
      var init := lines[..|lines| - 1];
      OnLinesOfStream(init, first);
      assert all[..|all| - 1] == [first] + DeliveredCalls(init);
      assert DeliveredCalls(lines) == DeliveredCalls(init) + [all[|all| - 1]];
    }
  }

  /** A stream's history holds the texts of one file's lines, and counts their bytes but for the
      CRs that scanning drops. */
  ghost predicate Holds(h: seq<Line>, lines: seq<FileLine>, id: string) {
    Texts(Lines(h)) == TextsOf(lines, id) && Bytes(h) + CRLFs(lines, id) == |Segment(lines, id)|
  }

  lemma {:induction false} HoldsOneMore(h: seq<Line>, line: Line, lines: seq<FileLine>, l: FileLine, id: string)
    requires Holds(h, lines, id)
    requires line.entry.line == DropCR(l.text) && line.byteLen == |DropCR(l.text)| + 1
    ensures Holds(if l.id == id then h + [line] else h, lines + [l], id)
  {
    assert (lines + [l])[..|lines|] == lines;
    if l.id == id {
      assert (h + [line])[..|h|] == h;
      assert Texts(Lines(h + [line])) == Texts(Lines(h)) + [line.entry.line];
    } else {
      assert TextsOf(lines + [l], id) == TextsOf(lines, id) + [] == TextsOf(lines, id);
    }
  }

  /** The last OnLine call of a session belongs to the last line delivered. */
  lemma {:induction false} LastCallIsLastLine(calls: seq<Call>, last: Call, lines: seq<FileLine>)
    requires calls + [last] == DeliveredCalls(lines)
    ensures lines != []
    ensures var l, lines' := lines[|lines| - 1], lines[..|lines| - 1];
            calls == DeliveredCalls(lines') && last == OnLine(l.id, DropCR(l.text), |DropCR(l.text)| + 1)
  {
    assert |lines| == |calls + [last]| > 0;
    var l, lines' := lines[|lines| - 1], lines[..|lines| - 1];
    DeliveredSnoc(lines);
    hide DeliveredCalls;
    SnocInjective(calls, DeliveredCalls(lines'), last, OnLine(l.id, DropCR(l.text), |DropCR(l.text)| + 1));
  }

  /** The history of a stream, read off the calls of its session. */
  lemma {:induction false} HistoryOfSession(es: seq<SinkProtocol.Event>, server: int, lines: seq<FileLine>, id: string)
    requires ObservedCalls(es, server) == DeliveredCalls(lines)
    ensures Holds(History(es, StreamKey(server, id)), lines, id)
  {
    if es == [] {
      EmptyHolds(lines, id);
    } else {
      var e, es' := es[|es| - 1], es[..|es| - 1];
      if CallOf(e, server) == [] {
        assert History(es, StreamKey(server, id)) == History(es', StreamKey(server, id));
        hide Holds;
        hide DeliveredCalls;
        assert ObservedCalls(es, server) == ObservedCalls(es', server);
        HistoryOfSession(es', server, lines, id);
      } else {
        LastCallIsLastLine(ObservedCalls(es', server), CallOf(e, server)[0], lines);
        HistoryOfSession(es', server, lines[..|lines| - 1], id);
        HistoryExtends(es', e, server, lines, id);
      }
    }
  }

  lemma {:induction false} HistoryExtends(es: seq<SinkProtocol.Event>, e: SinkProtocol.Event, server: int, lines: seq<FileLine>, id: string)
    requires lines != [] && Holds(History(es, StreamKey(server, id)), lines[..|lines| - 1], id)
    requires var l := lines[|lines| - 1];
             CallOf(e, server) == [OnLine(l.id, DropCR(l.text), |DropCR(l.text)| + 1)]
    ensures Holds(History(es, StreamKey(server, id)) + LineOf(e, StreamKey(server, id)), lines, id)
  {
    hide Holds;
    hide DropCR;
    hide History;
    var l, lines', h := lines[|lines| - 1], lines[..|lines| - 1], History(es, StreamKey(server, id));
    HoldsOneMore(h, e.line, lines', l, id);
    assert lines == lines' + [l];
    assert h + LineOf(e, StreamKey(server, id)) == if l.id == id then h + [e.line] else h;
  }

  lemma {:induction false} EmptyHolds(lines: seq<FileLine>, id: string)
    requires DeliveredCalls(lines) == []
    ensures lines == [] && Holds([], lines, id)
  {
    assert |lines| == |DeliveredCalls(lines)| == 0;
    assert Texts(Lines([])) == [];
  }

  lemma {:induction false} DeliveredSnoc(lines: seq<FileLine>)
    requires lines != []
    ensures var l := lines[|lines| - 1];
            DeliveredCalls(lines) ==
            DeliveredCalls(lines[..|lines| - 1]) + [OnLine(l.id, DropCR(l.text), |DropCR(l.text)| + 1)]
  {
  }

  lemma {:induction false} SnocInjective<T>(a: seq<T>, b: seq<T>, x: T, y: T)
    requires a + [x] == b + [y]
    ensures a == b && x == y
  {
    assert (a + [x])[..|a|] == a && (b + [y])[..|b|] == b;
    assert (a + [x])[|a|] == x && (b + [y])[|b|] == y;
  }

  /** What the final flush adds to a run observes nothing. */
  lemma {:induction false} FlushObservesNothing(m: Memory, r: Resolver, out: FlushOutcome, order: seq<StreamKey>, k: StreamKey)
    requires k !in out.faults
    ensures FaultFree(FlushEvents(m, r, out, order), k)
  {
    CursorPhaseIsFaultFree(r, order, out.faults, k);
    hide AdvanceEvents;
  }

  lemma {:induction false} CursorPhaseIsFaultFree(r: Resolver, order: seq<StreamKey>, faults: map<StreamKey, CursorFault>, k: StreamKey)
    requires k !in faults
    ensures FaultFree(AdvanceEvents(r, order, faults), k)
  {
    if order != [] {
      CursorPhaseIsFaultFree(r, order[..|order| - 1], faults, k);
    }
  }

  /** A run, and an accepted flush after it. */
  lemma {:induction false} RunThenFlush(start: Cursors, r: Resolver, es: seq<SinkProtocol.Event>, out: FlushOutcome, order: seq<StreamKey>,
                     m': Memory, c': Cursors, ok: bool, k: StreamKey)
    requires Exec(Start(start), r, es).Some? && Serial(Start(start), r, es)
    requires FaultFree(es, k) && k !in out.faults && out.pushOk
    requires var s := Exec(Start(start), r, es).value;
             s.flights == map[] && Flushed(s.memory, s.cursors, r, out, order, m', c', ok)
    ensures var all := es + FlushEvents(Exec(Start(start), r, es).value.memory, r, out, order);
            && Exec(Start(start), r, all).Some? && Serial(Start(start), r, all) && FaultFree(all, k)
            && var s' := Exec(Start(start), r, all).value;
            && s'.flights == map[] && s'.cursors == c' && Buffered(s', k) == [] && Observed(s', k) == History(es, k)
  {
    var s := Exec(Start(start), r, es).value;
    HistoryIsObserved(Start(start), r, es, k);
    assert [] + History(es, k) == History(es, k);
    hide Exec;
    hide Serial;
    FinalFlushEmpties(s.memory, s.cursors, r, out, order, m', c', ok);
    FlushIsSerialRun(s, r, out, order, m', c', ok);
    FlushObservesNothing(s.memory, r, out, order, k);
    hide Flushed;
    hide FlushEvents;
    var flush := FlushEvents(s.memory, r, out, order);
    ExecAppend(Start(start), r, es, flush);
    SerialAppend(Start(start), r, es, flush);
  }

  /** From delivered lines to acknowledged ones and the cursor, whatever sessions delivered them. */
  lemma {:induction false} DeliveredEndToEnd(
    start: Cursors, r: Resolver, es: seq<SinkProtocol.Event>, out: FlushOutcome, order: seq<StreamKey>,
    m': Memory, c': Cursors, ok: bool, server: int, id: string, lines: seq<FileLine>)
    requires DistinctPaths(r) && StreamKey(server, id) in r
    requires Exec(Start(start), r, es).Some? && Serial(Start(start), r, es)
    requires ObservedCalls(es, server) == DeliveredCalls(lines)
    requires FaultFree(es, StreamKey(server, id)) && StreamKey(server, id) !in out.faults && out.pushOk
    requires var s := Exec(Start(start), r, es).value;
             s.flights == map[] && Flushed(s.memory, s.cursors, r, out, order, m', c', ok)
    ensures var k := StreamKey(server, id);
            var all := es + FlushEvents(Exec(Start(start), r, es).value.memory, r, out, order);
            && Exec(Start(start), r, all).Some? && Serial(Start(start), r, all)
            && var s' := Exec(Start(start), r, all).value;
            && s'.cursors == c'
            && Texts(Acked(s', k)) == TextsOf(lines, id)
            && CursorOf(c', r, k) == CursorOf(start, r, k) + |Segment(lines, id)| - CRLFs(lines, id)
  {
    var k := StreamKey(server, id);
    HistoryOfSession(es, server, lines, id);
    RunThenFlush(start, r, es, out, order, m', c', ok, k);
    hide Exec;
    hide Serial;
    hide Flushed;
    hide FlushEvents;
    QuiescentStream(start, r, es + FlushEvents(Exec(Start(start), r, es).value.memory, r, out, order), k);
  }

  /** What a session is sent: a version header, then rendered lines fit for the stream. */
  ghost predicate Session(input: string, version: string, lines: seq<FileLine>, cap: nat) {
    && (forall l :: l in lines ==> Streamable(l, cap))
    && '\n' !in version && '\r' !in version && |VERSION_PREFIX + version| + 1 <= cap
    && input == VERSION_PREFIX + version + ['\n'] + Render(lines)
  }

  lemma {:induction false} SessionDelivers(input: string, version: string, lines: seq<FileLine>, cap: nat)
    requires Session(input, version, lines, cap)
    ensures OnLines(Outcome(input, cap).0) == DeliveredCalls(lines)
  {
    StreamWithHeaderDelivers(version, lines, cap);
    OnLinesOfStream(lines, OnVersion(TrimSpace(version)));
  }

  /** Take one connection, and any interleaving of lines of any files as the bench renders them.
      Let the session's calls reach the sink in any serial run, with any push failures but no
      cursor fault on this file, and let a last Flush be accepted. Then Loki has acknowledged
      exactly the file's lines, in order, each without a final CR, and the stored cursor has
      advanced by the bytes of the segment less one for every CR LF line. */
  lemma {:induction false} StreamEndToEnd(
    start: Cursors, r: Resolver, es: seq<SinkProtocol.Event>, out: FlushOutcome, order: seq<StreamKey>,
    m': Memory, c': Cursors, ok: bool, server: int, id: string,
    input: string, version: string, lines: seq<FileLine>, cap: nat)
    requires Session(input, version, lines, cap)
    requires DistinctPaths(r) && StreamKey(server, id) in r
    requires Exec(Start(start), r, es).Some? && Serial(Start(start), r, es)
    requires ObservedCalls(es, server) == OnLines(Outcome(input, cap).0)
    requires FaultFree(es, StreamKey(server, id)) && StreamKey(server, id) !in out.faults && out.pushOk
    requires var s := Exec(Start(start), r, es).value;
             s.flights == map[] && Flushed(s.memory, s.cursors, r, out, order, m', c', ok)
    ensures var k := StreamKey(server, id);
            var all := es + FlushEvents(Exec(Start(start), r, es).value.memory, r, out, order);
            && Exec(Start(start), r, all).Some? && Serial(Start(start), r, all)
            && var s' := Exec(Start(start), r, all).value;
            && s'.cursors == c'
            && Texts(Acked(s', k)) == TextsOf(lines, id)
            && CursorOf(c', r, k) == CursorOf(start, r, k) + |Segment(lines, id)| - CRLFs(lines, id)
  {
    hide Session;
    SessionDelivers(input, version, lines, cap);
    DeliveredEndToEnd(start, r, es, out, order, m', c', ok, server, id, lines);
  }

  /** Such a run, of a connection resumed at the file's stored cursor and covering the file to its
      end, leaves the cursor at the file's size if and only if none of the streamed lines ended in
      CR LF. */
  lemma {:induction false} CursorReachesEndIffNoCRLF(
    start: Cursors, r: Resolver, es: seq<SinkProtocol.Event>, out: FlushOutcome, order: seq<StreamKey>,
    m': Memory, c': Cursors, ok: bool, server: int, id: string,
    input: string, version: string, lines: seq<FileLine>, cap: nat, file: string)
    requires Session(input, version, lines, cap)
    requires DistinctPaths(r) && StreamKey(server, id) in r
    requires Exec(Start(start), r, es).Some? && Serial(Start(start), r, es)
    requires ObservedCalls(es, server) == OnLines(Outcome(input, cap).0)
    requires FaultFree(es, StreamKey(server, id)) && StreamKey(server, id) !in out.faults && out.pushOk
    requires var s := Exec(Start(start), r, es).value;
             s.flights == map[] && Flushed(s.memory, s.cursors, r, out, order, m', c', ok)
    requires var resume := CursorOf(start, r, StreamKey(server, id));
             0 < resume <= |file| && file[resume..] == Segment(lines, id)
    ensures CursorOf(c', r, StreamKey(server, id)) == |file| <==>
            forall l :: l in lines && l.id == id ==> DropCR(l.text) == l.text
  {
    hide Exec;
    hide Serial;
    hide Flushed;
    hide FaultFree;
    StreamEndToEnd(start, r, es, out, order, m', c', ok, server, id, input, version, lines, cap);
    NoCRLF(lines, id);
  }

  /** A file without a positive stored cursor is followed from its end (internal/streamer/session.go:285-293,
      scripts/embed_test.go:134-143): nothing of `earlier`, its content by then, is streamed. When the
      connection covers the rest to the end, the cursor is at the file's size if and only if the file was
      empty and no streamed line ended in CR LF. */
  lemma {:induction false} FirstCursorReachesEndIffFileWasEmpty(
    start: Cursors, r: Resolver, es: seq<SinkProtocol.Event>, out: FlushOutcome, order: seq<StreamKey>,
    m': Memory, c': Cursors, ok: bool, server: int, id: string,
    input: string, version: string, lines: seq<FileLine>, cap: nat, earlier: string, file: string)
    requires Session(input, version, lines, cap)
    requires DistinctPaths(r) && StreamKey(server, id) in r
    requires Exec(Start(start), r, es).Some? && Serial(Start(start), r, es)
    requires ObservedCalls(es, server) == OnLines(Outcome(input, cap).0)
    requires FaultFree(es, StreamKey(server, id)) && StreamKey(server, id) !in out.faults && out.pushOk
    requires var s := Exec(Start(start), r, es).value;
             s.flights == map[] && Flushed(s.memory, s.cursors, r, out, order, m', c', ok)
    requires file == earlier + Segment(lines, id)
    requires var at := CursorKey(server, r[StreamKey(server, id)]); at !in start || start[at] == 0
    ensures CursorOf(c', r, StreamKey(server, id)) == |file| <==>
            earlier == "" && forall l :: l in lines && l.id == id ==> DropCR(l.text) == l.text
  {
    hide Exec;
    hide Serial;
    hide Flushed;
    hide FaultFree;
    hide Session;
    hide Segment;
    hide CRLFs;
    StreamEndToEnd(start, r, es, out, order, m', c', ok, server, id, input, version, lines, cap);
    NoCRLF(lines, id);
  }

  /** Two connections of one launch are both sent the offsets of the first
      (internal/streamer/manager.go:250-259). When the second covers the file to its end, the cursor is
      then ahead of the file by all that the first had delivered, CRs aside: with no CR LF line it is at
      the file's size if and only if that was nothing. */
  lemma {:induction false} SecondConnectionAdvancesAgain(
    start: Cursors, r: Resolver, es: seq<SinkProtocol.Event>, out: FlushOutcome, order: seq<StreamKey>,
    m': Memory, c': Cursors, ok: bool, server: int, id: string,
    input1: string, version1: string, lines1: seq<FileLine>, input2: string, version2: string, lines2: seq<FileLine>,
    cap: nat, file: string)
    requires Session(input1, version1, lines1, cap) && Session(input2, version2, lines2, cap)
    requires DistinctPaths(r) && StreamKey(server, id) in r
    requires Exec(Start(start), r, es).Some? && Serial(Start(start), r, es)
    requires ObservedCalls(es, server) == OnLines(Outcome(input1, cap).0) + OnLines(Outcome(input2, cap).0)
    requires FaultFree(es, StreamKey(server, id)) && StreamKey(server, id) !in out.faults && out.pushOk
    requires var s := Exec(Start(start), r, es).value;
             s.flights == map[] && Flushed(s.memory, s.cursors, r, out, order, m', c', ok)
    requires var resume := CursorOf(start, r, StreamKey(server, id));
             0 < resume <= |file| && Segment(lines1, id) <= file[resume..] == Segment(lines2, id)
    ensures var c := CursorOf(c', r, StreamKey(server, id));
            && c == |file| + |Segment(lines1, id)| - CRLFs(lines1, id) - CRLFs(lines2, id)
            && (CRLFs(lines1, id) == CRLFs(lines2, id) == 0 ==> (c == |file| <==> Segment(lines1, id) == ""))
  {
    hide Exec;
    hide Serial;
    hide Flushed;
    hide FaultFree;
    hide Session;
    hide Segment;
    hide CRLFs;
    hide DeliveredCalls;
    hide ObservedCalls;
    hide OnLines;
    hide Outcome;
    hide DistinctPaths;
    hide TextsOf;
    SessionDelivers(input1, version1, lines1, cap);
    SessionDelivers(input2, version2, lines2, cap);
    DeliveredJoin(lines1, lines2);
    DeliveredEndToEnd(start, r, es, out, order, m', c', ok, server, id, lines1 + lines2);
    SegmentsJoin(lines1, lines2, id);
  }

  lemma {:induction false} DeliveredJoin(a: seq<FileLine>, b: seq<FileLine>)
    ensures DeliveredCalls(a) + DeliveredCalls(b) == DeliveredCalls(a + b)
  {
    hide DropCR;
  }

  lemma {:induction false} SegmentsJoin(a: seq<FileLine>, b: seq<FileLine>, id: string)
    ensures |Segment(a + b, id)| == |Segment(a, id)| + |Segment(b, id)|
    ensures CRLFs(a + b, id) == CRLFs(a, id) + CRLFs(b, id)
  {
    hide DropCR;
    if b == [] {
      assert a + b == a;
    } else {
      var n := |b| - 1;
      SegmentsJoin(a, b[..n], id);
      assert (a + b)[..|a| + n] == a + b[..n];
      assert (a + b)[|a| + n] == b[n];
    }
  }

  lemma {:induction false} NoCRLF(lines: seq<FileLine>, id: string)
    ensures CRLFs(lines, id) == 0 <==> forall l :: l in lines && l.id == id ==> DropCR(l.text) == l.text
  {
    if lines != [] {
      var l, lines' := lines[|lines| - 1], lines[..|lines| - 1];
      NoCRLF(lines', id);
      assert lines == lines' + [l];
    }
  }
}
