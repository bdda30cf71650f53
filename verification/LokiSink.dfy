/** The Loki sink (internal/streamer/sink.go): buffers lines per stream, and flushes them. */
module LokiSinks {
  import opened Text
  import opened SinkSpec

  /** The environment's answers to one Flush: did the push succeed, and which cursor reads and
      writes fail. */
  datatype FlushOutcome = FlushOutcome(pushOk: bool, faults: map<StreamKey, CursorFault>)

  /** The sequential effect of one Flush, `order` being the cursor phase's iteration order. */
  ghost predicate Flushed(m: Memory, c: Cursors, r: Resolver, out: FlushOutcome, order: seq<StreamKey>,
                          m': Memory, c': Cursors, ok: bool)
  {
    var attempts := TakeSnapshot(m);
    if attempts == map[] then m' == m && c' == c && ok
    else if !out.pushOk then m' == m && c' == c && !ok
    else
      && ok
      && m' == Drain(m, attempts)
      && Enumerates(order, Bumps(attempts).Keys)
      && c' == AdvanceAll(c, r, Bumps(attempts), order, out.faults)
  }

  /** A flush reports failure if and only if there was something to push and the push was refused; it has
      then changed nothing. */
  lemma {:induction false} FlushReportsRefusal(m: Memory, c: Cursors, r: Resolver, out: FlushOutcome, order: seq<StreamKey>,
                                               m': Memory, c': Cursors, ok: bool)
    requires Flushed(m, c, r, out, order, m', c', ok)
    ensures ok <==> out.pushOk || forall k :: LiveAt(m, k).entries == []
    ensures !ok ==> m' == m && c' == c
  {
    hide Drain;
    hide AdvanceAll;
    hide Bumps;
    forall k ensures k in TakeSnapshot(m) <==> LiveAt(m, k).entries != [] {
    }
    assert TakeSnapshot(m) == map[] <==> forall k :: k !in TakeSnapshot(m);
  }

  class LokiSink {
    const maxBatchLines: nat
    const resolver: Resolver
    /** The contents of each stream's buffer; `StreamBuf` is the slice that holds them. */
    var streams: map<StreamKey, seq<Entry>>
    var bytes: map<StreamKey, int>
    /** The cursor table, keyed by its unique (server, path). */
    var cursors: Cursors

    ghost predicate Valid()
      reads this
    {
      streams.Keys == bytes.Keys
    }

    ghost function Memory(): (m: Memory)
      reads this
      requires Valid()
    {
      map k | k in streams :: Live(streams[k], bytes[k])
    }

    constructor (maxBatch: int, resolver: Resolver, cursors: Cursors)
      ensures Valid() && Memory() == map[] && this.cursors == cursors && this.resolver == resolver
      ensures maxBatchLines == if maxBatch <= 0 then 500 else maxBatch
    {
      maxBatchLines := if maxBatch <= 0 then 500 else maxBatch;
      this.resolver := resolver;
      this.cursors := cursors;
      streams, bytes := map[], map[];
    }

    /** The critical section of OnLine; `overflow` asks for a flush. */
    method Buffer(key: StreamKey, e: Entry, byteLen: nat) returns (overflow: bool)
      requires Valid()
      modifies this`streams, this`bytes
      ensures Valid() && Memory() == AppendLine(old(Memory()), key, e, byteLen)
      ensures overflow <==> |Memory()[key].entries| >= maxBatchLines
    {
      if key !in streams {
        streams := streams[key := []];
      }
      streams := streams[key := streams[key] + [e]];
      bytes := bytes[key := (if key in bytes then bytes[key] else 0) + byteLen];
      overflow := |streams[key]| >= maxBatchLines;
    }

    /** Flush's first critical section. */
    method Snapshot() returns (attempts: map<StreamKey, Attempt>)
      requires Valid()
      ensures attempts == TakeSnapshot(Memory())
    {
      attempts := map[];
      var rest := streams.Keys;
      while rest != {}
        invariant rest <= streams.Keys
        invariant attempts == map k | k in streams.Keys - rest && streams[k] != [] :: Attempt(streams[k], bytes[k])
      {
        var key :| key in rest;
        if streams[key] != [] {
          attempts := attempts[key := Attempt(streams[key], bytes[key])];
        }
        rest := rest - {key};
      }
    }

    /** One stream's share of the second critical section. */
    method DrainAttempt(key: StreamKey, a: Attempt)
      requires Valid() && key in streams
      modifies this`streams, this`bytes
      ensures Valid() && Memory() == old(Memory())[key := DrainLive(old(Memory())[key], a)]
    {
      streams := streams[key := DropPrefix(streams[key], |a.entries|)];
      if a.bytes > 0 {
        bytes := bytes[key := bytes[key] - a.bytes];
      }
    }

    /** Flush's second critical section. */
    method DrainAttempts(attempts: map<StreamKey, Attempt>) returns (bumps: map<StreamKey, int>)
      requires Valid()
      requires attempts.Keys <= streams.Keys
      modifies this`streams, this`bytes
      ensures Valid() && Memory() == Drain(old(Memory()), attempts)
      ensures bumps == Bumps(attempts)
    {
      bumps := map[];
      ghost var m0 := Memory();
      ghost var done: map<StreamKey, Attempt> := map[];
      assert attempts.Keys <= m0.Keys;
      var rest := attempts.Keys;
      while rest != {}
        invariant rest <= attempts.Keys
        invariant done.Keys == attempts.Keys - rest && forall k :: k in done ==> done[k] == attempts[k]
        invariant Valid() && Memory() == Drain(m0, done)
        invariant bumps == Bumps(done)
      {
        var key :| key in rest;
        var a := attempts[key];
        DrainStep(m0, done, key, a);
        DrainAttempt(key, a);
        if a.bytes > 0 {
          bumps := bumps[key := a.bytes];
        }
        rest := rest - {key};
        done := done[key := a];
      }
      assert done == attempts;
    }

    /** The cursor phase: one read-add-write per bump, in whatever order the map yields. */
    method AdvanceCursors(bumps: map<StreamKey, int>, faults: map<StreamKey, CursorFault>)
      returns (ghost order: seq<StreamKey>)
      modifies this`cursors
      ensures Enumerates(order, bumps.Keys)
      ensures cursors == AdvanceAll(old(cursors), resolver, bumps, order, faults)
    {
      order := [];
      var rest := bumps.Keys;
      while rest != {}
        invariant rest <= bumps.Keys
        invariant Enumerates(order, bumps.Keys - rest)
        invariant cursors == AdvanceAll(old(cursors), resolver, bumps, order, faults)
      {
        var key :| key in rest;
        var fault := FaultAt(faults, key);
        if key in resolver && fault != ReadFails {
          var ck := CursorKey(key.serverID, resolver[key]);
          var prevOff := if ck in cursors then cursors[ck] else 0;
          if fault != WriteFails {
            cursors := cursors[ck := prevOff + bumps[key]];
          }
        }
        assert (order + [key])[..|order|] == order;
        order := order + [key];
        rest := rest - {key};
      }
    }

    /** Flush, when nothing else runs between its critical sections. */
    method Flush(out: FlushOutcome) returns (ok: bool, ghost order: seq<StreamKey>)
      requires Valid()
      modifies this
      ensures Valid()
      ensures Flushed(old(Memory()), old(cursors), resolver, out, order, Memory(), cursors, ok)
    {
      order := [];
      var attempts := Snapshot();
      if attempts == map[] {
        return true, order;
      }
      if !out.pushOk {
        return false, order;
      }
      var bumps := DrainAttempts(attempts);
      order := AdvanceCursors(bumps, out.faults);
      ok := true;
    }

    /** OnLine: buffer the line, and flush when the stream's buffer has reached the batch size. */
    method OnLine(key: StreamKey, e: Entry, byteLen: nat, out: FlushOutcome)
      returns (ghost order: seq<StreamKey>)
      requires Valid()
      modifies this
      ensures Valid()
      ensures var m := AppendLine(old(Memory()), key, e, byteLen);
              if |m[key].entries| >= maxBatchLines
              then exists ok :: Flushed(m, old(cursors), resolver, out, order, Memory(), cursors, ok)
              else Memory() == m && cursors == old(cursors)
    {
      order := [];
      var overflow := Buffer(key, e, byteLen);
      if overflow {
        var ok;
        ok, order := Flush(out);
      }
    }
  }
}
