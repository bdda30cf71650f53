/** Runs of the alert evaluator: the shape, spacing and number of notification attempts. */
module AlertTraces {
  import opened Text
  import opened Alerts

  // ------------------------------------------------------ one series over time

  /** What one tick shows of one series. */
  datatype Look = Look(now: Clock, obs: Obs)

  /** A series' row and the attempts made about it. */
  datatype Story = Story(row: Option<Row>, trace: seq<Notification>)

  function Follow(key: Key, severity: string, repeatTime: int, row: Option<Row>, looks: seq<Look>): Story {
    if looks == [] then Story(row, [])
    else
      var before, look := Follow(key, severity, repeatTime, row, looks[..|looks| - 1]), looks[|looks| - 1];
      Story(NextRow(before.row, look.obs, look.now, repeatTime),
            before.trace + Attempts(key, severity, before.row, look.obs, look.now, repeatTime))
  }

  // ----------------------------------------------------------- whole runs

  datatype Tick = Tick(now: Clock, envs: seq<RuleEnv>)
  datatype Plane = Plane(rows: Rows, log: seq<Notification>)

  /** `planes` are the successive states of an evaluator, from an empty store, over `ticks`. */
  ghost predicate RunOf(fp: Fingerprinter, rules: seq<Rule>, repeatTime: int, ticks: seq<Tick>, planes: seq<Plane>) {
    && |planes| == |ticks| + 1 && planes[0] == Plane(map[], [])
    && (forall i :: 0 <= i < |ticks| ==> |ticks[i].envs| == |rules|)
    && (forall i :: 0 <= i < |ticks| ==> planes[i].log <= planes[i + 1].log)
    && (forall i :: 0 <= i < |ticks| ==>
          Ticked(fp, rules, ticks[i].envs, ticks[i].now, repeatTime, planes[i].rows, planes[i + 1].rows,
                 planes[i + 1].log[|planes[i].log|..]))
  }

  function LooksAt(fp: Fingerprinter, rules: seq<Rule>, ticks: seq<Tick>, key: Key): (looks: seq<Look>)
    requires forall i :: 0 <= i < |ticks| ==> |ticks[i].envs| == |rules|
  {
    seq(|ticks|, i requires 0 <= i < |ticks| => Look(ticks[i].now, ObsInTick(fp, rules, ticks[i].envs, key)))
  }

  /** One tick of a run, as one series sees it. */
  lemma {:induction false} TickFollowsSeries(fp: Fingerprinter, rules: seq<Rule>, repeatTime: int,
                                             ticks: seq<Tick>, planes: seq<Plane>, key: Key, n: nat)
    requires RunOf(fp, rules, repeatTime, ticks, planes) && n < |ticks|
    ensures var look, row := LooksAt(fp, rules, ticks, key)[n], RowOf(planes[n].rows, key);
            && RowOf(planes[n + 1].rows, key) == NextRow(row, look.obs, look.now, repeatTime)
            && Trace(planes[n + 1].log, key) ==
               Trace(planes[n].log, key) + Attempts(key, SeverityOf(rules, key), row, look.obs, look.now, repeatTime)
  {
    hide NextRow;
    hide Attempts;
    hide ObsInTick;
    hide SeverityOf;
    hide Trace;
    hide RowOf;
    assert planes[n].log <= planes[n + 1].log;
    var more := planes[n + 1].log[|planes[n].log|..];
    assert Ticked(fp, rules, ticks[n].envs, ticks[n].now, repeatTime, planes[n].rows, planes[n + 1].rows, more);
    assert planes[n + 1].log == planes[n].log + more;
    TraceAppend(planes[n].log, more, key);
  }

  /** Every series of a run has a life of its own. */
  lemma {:induction false} RunFollowsEachSeries(fp: Fingerprinter, rules: seq<Rule>, repeatTime: int,
                                                ticks: seq<Tick>, planes: seq<Plane>, key: Key, n: nat)
    requires RunOf(fp, rules, repeatTime, ticks, planes) && n <= |ticks|
    ensures Follow(key, SeverityOf(rules, key), repeatTime, None, LooksAt(fp, rules, ticks, key)[..n]) ==
            Story(RowOf(planes[n].rows, key), Trace(planes[n].log, key))
  {
    hide NextRow;
    hide Attempts;
    hide ObsInTick;
    hide SeverityOf;
    hide Ticked;
    if n > 0 {
      RunFollowsEachSeries(fp, rules, repeatTime, ticks, planes, key, n - 1);
      TickFollowsSeries(fp, rules, repeatTime, ticks, planes, key, n - 1);
      var looks := LooksAt(fp, rules, ticks, key);
      assert looks[..n][..n - 1] == looks[..n - 1];
    }
  }

  // ------------------------------------------------------ shape and spacing

  /** (Fire+ Resolve)* Fire*: every Resolve directly follows a Fire. */
  ghost predicate WellShaped(trace: seq<Notification>) {
    forall i :: 0 <= i < |trace| && trace[i].resolved ==> i > 0 && !trace[i - 1].resolved
  }

  /** Consecutive Fires with no Resolve between are at least the repeat time apart. */
  ghost predicate WellSpaced(trace: seq<Notification>, repeatTime: int) {
    forall i :: 0 < i < |trace| && !trace[i - 1].resolved && !trace[i].resolved ==>
      trace[i].time - trace[i - 1].time >= repeatTime
  }

  /** A row exists exactly while the last attempt was a Fire, and carries that Fire's time. */
  ghost predicate RowTellsLast(s: Story) {
    && (s.row.Some? <==> s.trace != [] && !s.trace[|s.trace| - 1].resolved)
    && (s.row.Some? ==> s.row.value.status == Firing && s.row.value.lastNotified == s.trace[|s.trace| - 1].time)
  }

  predicate DeletesSucceed(looks: seq<Look>) {
    forall l :: l in looks && l.obs.Absent? ==> l.obs.deleted
  }

  ghost predicate Shaped(s: Story, repeatTime: int) {
    WellShaped(s.trace) && WellSpaced(s.trace, repeatTime) && RowTellsLast(s)
  }

  lemma {:induction false} FireKeepsShape(s: Story, n: Notification, row: Row, repeatTime: int)
    requires Shaped(s, repeatTime) && !n.resolved
    requires s.row.Some? ==> n.time - s.row.value.lastNotified >= repeatTime
    requires row.status == Firing && row.lastNotified == n.time
    ensures Shaped(Story(Some(row), s.trace + [n]), repeatTime)
  {
  }

  lemma {:induction false} ResolveKeepsShape(s: Story, n: Notification, repeatTime: int)
    requires Shaped(s, repeatTime) && n.resolved && s.row.Some?
    ensures Shaped(Story(None, s.trace + [n]), repeatTime)
  {
  }

  lemma {:induction false} LookKeepsShape(s: Story, key: Key, severity: string, repeatTime: int, look: Look)
    requires Shaped(s, repeatTime) && (look.obs.Absent? ==> look.obs.deleted)
    ensures Shaped(Story(NextRow(s.row, look.obs, look.now, repeatTime),
                         s.trace + Attempts(key, severity, s.row, look.obs, look.now, repeatTime)), repeatTime)
  {
    assert s.row.Some? ==> s.row.value.status == Firing;
    hide WellShaped;
    hide WellSpaced;
    var row', more := NextRow(s.row, look.obs, look.now, repeatTime), Attempts(key, severity, s.row, look.obs, look.now, repeatTime);
    if more == [] {
      assert s.trace + more == s.trace;
    } else if look.obs.Present? {
      FireKeepsShape(s, more[0], row'.value, repeatTime);
      assert more == [more[0]];
    } else {
      ResolveKeepsShape(s, more[0], repeatTime);
      assert more == [more[0]];
    }
  }

  /** With row deletes succeeding, and everything else free to fail. */
  lemma {:induction false} StoryShape(key: Key, severity: string, repeatTime: int, looks: seq<Look>)
    requires DeletesSucceed(looks)
    ensures Shaped(Follow(key, severity, repeatTime, None, looks), repeatTime)
  {
    if looks != [] {
      hide Shaped;
      var init, last := looks[..|looks| - 1], looks[|looks| - 1];
      assert last in looks && forall l :: l in init ==> l in looks;
      StoryShape(key, severity, repeatTime, init);
      LookKeepsShape(Follow(key, severity, repeatTime, None, init), key, severity, repeatTime, last);
    }
  }

  /** For every series over any run in which the deletes of its row succeed, while queries, state
      listing, upserts and the notifier may fail: the attempts are (Fire+ Resolve)* Fire*, with
      Fires spaced by the repeat time, and the stored row says when the last Fire was. */
  lemma {:induction false} RunShape(fp: Fingerprinter, rules: seq<Rule>, repeatTime: int,
                                    ticks: seq<Tick>, planes: seq<Plane>, key: Key)
    requires RunOf(fp, rules, repeatTime, ticks, planes)
    requires forall t, i :: t in ticks && 0 <= i < |t.envs| && rules[i].name == key.rule ==> key.fp !in t.envs[i].deleteFails
    ensures var last := planes[|ticks|];
            && WellShaped(Trace(last.log, key)) && WellSpaced(Trace(last.log, key), repeatTime)
            && RowTellsLast(Story(RowOf(last.rows, key), Trace(last.log, key)))
  {
    hide Follow;
    hide Ticked;
    var looks := LooksAt(fp, rules, ticks, key);
    forall l | l in looks && l.obs.Absent? ensures l.obs.deleted {
      var j :| 0 <= j < |ticks| && l == looks[j];
      assert ticks[j] in ticks;
      var i := RuleAt(rules, key.rule);
    }
    StoryShape(key, SeverityOf(rules, key), repeatTime, looks);
    hide WellShaped;
    hide WellSpaced;
    hide RowTellsLast;
    RunFollowsEachSeries(fp, rules, repeatTime, ticks, planes, key, |ticks|);
    assert looks[..|ticks|] == looks;
  }

  /** A resolution leaves row and trace in step if and only if its row delete succeeds. */
  lemma {:induction false} ResolveInStepIffDeleted(key: Key, severity: string, repeatTime: int, s: Story, now: Clock, deleted: bool)
    requires RowTellsLast(s) && s.row.Some?
    ensures deleted <==> RowTellsLast(Story(NextRow(s.row, Absent(deleted), now, repeatTime),
                                            s.trace + Attempts(key, severity, s.row, Absent(deleted), now, repeatTime)))
  {
  }

  /** A failing delete does break the shape: the resolution is announced twice. */
  lemma {:induction false} FailedDeleteResolvesTwice(key: Key, severity: string, repeatTime: int, sample: Sample, t0: Clock, t1: Clock, t2: Clock)
    ensures var looks := [Look(t0, Present(sample, true)), Look(t1, Absent(false)), Look(t2, Absent(true))];
            !WellShaped(Follow(key, severity, repeatTime, None, looks).trace)
  {
    hide Follow;
    hide WellShaped;
    var l0, l1, l2 := Look(t0, Present(sample, true)), Look(t1, Absent(false)), Look(t2, Absent(true));
    NothingFollowed(key, severity, repeatTime);
    FollowOneMore(key, severity, repeatTime, [], l0);
    FollowOneMore(key, severity, repeatTime, [l0], l1);
    FollowOneMore(key, severity, repeatTime, [l0, l1], l2);
    assert [] + [l0] == [l0] && [l0] + [l1] == [l0, l1] && [l0, l1] + [l2] == [l0, l1, l2];
    TwoResolves(Follow(key, severity, repeatTime, None, [l0, l1, l2]).trace);
  }

  lemma {:induction false} NothingFollowed(key: Key, severity: string, repeatTime: int)
    ensures Follow(key, severity, repeatTime, None, []) == Story(None, [])
  {
  }

  lemma {:induction false} TwoResolves(trace: seq<Notification>)
    requires |trace| >= 3 && trace[1].resolved && trace[2].resolved
    ensures !WellShaped(trace)
  {
  }

  // ------------------------------------------- after a delete that failed

  /** A stored sample, late enough to page again: a Fire of a series last notified at `last`. */
  predicate Refires(look: Look, last: int, repeatTime: int) {
    look.obs.Present? && look.obs.stored && look.now - last >= repeatTime
  }

  ghost predicate SomeRefire(looks: seq<Look>, last: int, repeatTime: int) {
    exists i :: 0 <= i < |looks| && Refires(looks[i], last, repeatTime)
  }

  /** No Absent look comes before such a Fire. */
  ghost predicate FireComesFirst(looks: seq<Look>, last: int, repeatTime: int) {
    forall j :: 0 <= j < |looks| && looks[j].obs.Absent? ==> SomeRefire(looks[..j], last, repeatTime)
  }

  lemma {:induction false} FireFirstMore(looks: seq<Look>, look: Look, last: int, repeatTime: int)
    ensures SomeRefire(looks + [look], last, repeatTime) <==>
            SomeRefire(looks, last, repeatTime) || Refires(look, last, repeatTime)
    ensures FireComesFirst(looks + [look], last, repeatTime) <==>
            FireComesFirst(looks, last, repeatTime) && (look.obs.Absent? ==> SomeRefire(looks, last, repeatTime))
  {
    hide Refires;
    var more := looks + [look];
    assert more[|looks|] == look && more[..|looks|] == looks;
    assert forall j :: 0 <= j < |looks| ==> more[j] == looks[j] && more[..j] == looks[..j];
    if SomeRefire(looks, last, repeatTime) {
      var i :| 0 <= i < |looks| && Refires(looks[i], last, repeatTime);
      assert Refires(more[i], last, repeatTime);
    }
    hide SomeRefire;
    if FireComesFirst(more, last, repeatTime) {
      forall j | 0 <= j < |looks| && looks[j].obs.Absent? ensures SomeRefire(looks[..j], last, repeatTime) {
        assert more[j].obs.Absent?;
      }
    }
  }

  /** The state in which a failed delete leaves a series: its row still firing, and its resolution
      announced as the last attempt of a well-shaped trace. */
  ghost predicate Announced(s: Story, last: int, repeatTime: int) {
    && WellShaped(s.trace) && WellSpaced(s.trace, repeatTime)
    && s.trace != [] && s.trace[|s.trace| - 1].resolved
    && s.row.Some? && s.row.value.status == Firing && s.row.value.lastNotified == last
  }

  lemma {:induction false} FailedDeleteAnnounces(s: Story, key: Key, severity: string, repeatTime: int, now: Clock)
    requires Shaped(s, repeatTime) && s.row.Some?
    ensures Announced(Story(NextRow(s.row, Absent(false), now, repeatTime),
                            s.trace + Attempts(key, severity, s.row, Absent(false), now, repeatTime)),
                      s.row.value.lastNotified, repeatTime)
  {
  }

  /** One look at a series so left. */
  lemma {:induction false} LookWhenAnnounced(s: Story, key: Key, severity: string, last: int, repeatTime: int, look: Look)
    requires Announced(s, last, repeatTime)
    ensures var s' := Story(NextRow(s.row, look.obs, look.now, repeatTime),
                            s.trace + Attempts(key, severity, s.row, look.obs, look.now, repeatTime));
            && (look.obs.Absent? ==> !WellShaped(s'.trace))
            && (Refires(look, last, repeatTime) ==> Shaped(s', repeatTime))
            && (!look.obs.Absent? && !Refires(look, last, repeatTime) ==>
                  s'.trace == s.trace && Announced(s', last, repeatTime))
  {
    var more := Attempts(key, severity, s.row, look.obs, look.now, repeatTime);
    var trace' := s.trace + more;
    if look.obs.Absent? {
      assert trace'[|s.trace|].resolved && trace'[|s.trace| - 1].resolved;
    }
  }

  lemma {:induction false} BadShapeStays(trace: seq<Notification>, more: seq<Notification>)
    requires !WellShaped(trace)
    ensures !WellShaped(trace + more)
  {
    var i :| 0 <= i < |trace| && trace[i].resolved && !(i > 0 && !trace[i - 1].resolved);
    var all := trace + more;
    assert all[i] == trace[i] && (i > 0 ==> all[i - 1] == trace[i - 1]);
  }

  /** At look `n` the row of the series, which it has, is to go and its delete fails. */
  ghost predicate DeleteFailsAt(key: Key, severity: string, repeatTime: int, looks: seq<Look>, n: nat) {
    n < |looks| && looks[n].obs == Absent(false) && Follow(key, severity, repeatTime, None, looks[..n]).row.Some?
  }

  /** When the series was last notified, at such a look. */
  ghost function NotifiedBefore(key: Key, severity: string, repeatTime: int, looks: seq<Look>, n: nat): int
    requires DeleteFailsAt(key, severity, repeatTime, looks, n)
  {
    Follow(key, severity, repeatTime, None, looks[..n]).row.value.lastNotified
  }

  /** After look `n` a Fire comes before the series is absent again, if its delete failed there. */
  ghost predicate FireAfter(key: Key, severity: string, repeatTime: int, looks: seq<Look>, n: nat) {
    DeleteFailsAt(key, severity, repeatTime, looks, n) ==>
      FireComesFirst(looks[n + 1..], NotifiedBefore(key, severity, repeatTime, looks, n), repeatTime)
  }

  /** And it has come. */
  ghost predicate FiredAfter(key: Key, severity: string, repeatTime: int, looks: seq<Look>, n: nat) {
    DeleteFailsAt(key, severity, repeatTime, looks, n) ==>
      SomeRefire(looks[n + 1..], NotifiedBefore(key, severity, repeatTime, looks, n), repeatTime)
  }

  /** The same with one look more. */
  lemma {:induction false} FireAfterMore(key: Key, severity: string, repeatTime: int, looks: seq<Look>, look: Look, n: nat)
    requires n < |looks|
    ensures DeleteFailsAt(key, severity, repeatTime, looks + [look], n) <==> DeleteFailsAt(key, severity, repeatTime, looks, n)
    ensures FireAfter(key, severity, repeatTime, looks + [look], n) <==>
            && FireAfter(key, severity, repeatTime, looks, n)
            && (look.obs.Absent? ==> FiredAfter(key, severity, repeatTime, looks, n))
    ensures FiredAfter(key, severity, repeatTime, looks, n) ==> FiredAfter(key, severity, repeatTime, looks + [look], n)
    ensures DeleteFailsAt(key, severity, repeatTime, looks, n) &&
            Refires(look, NotifiedBefore(key, severity, repeatTime, looks, n), repeatTime) ==>
              FiredAfter(key, severity, repeatTime, looks + [look], n)
    ensures DeleteFailsAt(key, severity, repeatTime, looks, n) && !FiredAfter(key, severity, repeatTime, looks, n) &&
            !Refires(look, NotifiedBefore(key, severity, repeatTime, looks, n), repeatTime) ==>
              && !FiredAfter(key, severity, repeatTime, looks + [look], n)
              && NotifiedBefore(key, severity, repeatTime, looks + [look], n) == NotifiedBefore(key, severity, repeatTime, looks, n)
  {
    hide Follow;
    hide Refires;
    hide SomeRefire;
    hide FireComesFirst;
    assert (looks + [look])[..n] == looks[..n] && (looks + [look])[n + 1..] == looks[n + 1..] + [look];
    if DeleteFailsAt(key, severity, repeatTime, looks, n) {
      FireFirstMore(looks[n + 1..], look, NotifiedBefore(key, severity, repeatTime, looks, n), repeatTime);
    }
  }

  /** What the looks so far have left of a series of which every failed delete was followed by a Fire:
      nothing open, or one failed delete still waiting for its Fire. */
  ghost predicate Mode(key: Key, severity: string, repeatTime: int, looks: seq<Look>, waiting: Option<nat>) {
    var s := Follow(key, severity, repeatTime, None, looks);
    && (forall n: nat :: n < |looks| ==> FireAfter(key, severity, repeatTime, looks, n))
    && (forall n: nat :: n < |looks| && Some(n) != waiting ==> FiredAfter(key, severity, repeatTime, looks, n))
    && match waiting
       case None => Shaped(s, repeatTime)
       case Some(n) =>
         && DeleteFailsAt(key, severity, repeatTime, looks, n) && !FiredAfter(key, severity, repeatTime, looks, n)
         && Announced(s, NotifiedBefore(key, severity, repeatTime, looks, n), repeatTime)
  }

  lemma {:induction false} NothingFailed(key: Key, severity: string, repeatTime: int)
    ensures Mode(key, severity, repeatTime, [], None)
  {
  }

  lemma {:induction false} LastFails(key: Key, severity: string, repeatTime: int, looks: seq<Look>, look: Look)
    ensures DeleteFailsAt(key, severity, repeatTime, looks + [look], |looks|) <==>
            look.obs == Absent(false) && Follow(key, severity, repeatTime, None, looks).row.Some?
    ensures DeleteFailsAt(key, severity, repeatTime, looks + [look], |looks|) ==>
            NotifiedBefore(key, severity, repeatTime, looks + [look], |looks|) ==
            Follow(key, severity, repeatTime, None, looks).row.value.lastNotified
    ensures FireAfter(key, severity, repeatTime, looks + [look], |looks|)
    ensures DeleteFailsAt(key, severity, repeatTime, looks + [look], |looks|) ==>
            !FiredAfter(key, severity, repeatTime, looks + [look], |looks|)
  {
    hide Follow;
    assert (looks + [look])[..|looks|] == looks && (looks + [look])[|looks| + 1..] == [];
  }

  /** A look at a series in shape that is no failing delete of its row. */
  lemma {:induction false} OtherLookKeepsShape(s: Story, key: Key, severity: string, repeatTime: int, look: Look)
    requires Shaped(s, repeatTime) && !(look.obs == Absent(false) && s.row.Some?)
    ensures Shaped(Story(NextRow(s.row, look.obs, look.now, repeatTime),
                         s.trace + Attempts(key, severity, s.row, look.obs, look.now, repeatTime)), repeatTime)
  {
    if look.obs == Absent(false) {
      LookKeepsShape(s, key, severity, repeatTime, look.(obs := Absent(true)));
    } else {
      LookKeepsShape(s, key, severity, repeatTime, look);
    }
  }

  /** From a series in shape. */
  lemma {:induction false} ModeFromShape(key: Key, severity: string, repeatTime: int, looks: seq<Look>, look: Look)
    returns (waiting: Option<nat>)
    requires Mode(key, severity, repeatTime, looks, None)
    ensures Mode(key, severity, repeatTime, looks + [look], waiting)
  {
    hide Follow;
    hide NextRow;
    hide Attempts;
    hide Shaped;
    hide Announced;
    hide DeleteFailsAt;
    hide NotifiedBefore;
    hide FireAfter;
    hide FiredAfter;
    var s := Follow(key, severity, repeatTime, None, looks);
    FollowOneMore(key, severity, repeatTime, looks, look);
    LastFails(key, severity, repeatTime, looks, look);
    forall n: nat | n < |looks|
      ensures FireAfter(key, severity, repeatTime, looks + [look], n) && FiredAfter(key, severity, repeatTime, looks + [look], n)
    {
      FireAfterMore(key, severity, repeatTime, looks, look, n);
    }
    if look.obs == Absent(false) && s.row.Some? {
      waiting := Some(|looks|);
      FailedDeleteAnnounces(s, key, severity, repeatTime, look.now);
    } else {
      waiting := None;
      OtherLookKeepsShape(s, key, severity, repeatTime, look);
      NoFailureAtLast(key, severity, repeatTime, looks + [look], |looks|);
    }
  }

  lemma {:induction false} NoFailureAtLast(key: Key, severity: string, repeatTime: int, looks: seq<Look>, n: nat)
    requires !DeleteFailsAt(key, severity, repeatTime, looks, n)
    ensures FireAfter(key, severity, repeatTime, looks, n) && FiredAfter(key, severity, repeatTime, looks, n)
  {
  }

  /** While a failed delete waits for its Fire. */
  lemma {:induction false} ModeWhileWaiting(key: Key, severity: string, repeatTime: int, looks: seq<Look>, look: Look, n: nat)
    requires Mode(key, severity, repeatTime, looks, Some(n))
    ensures var last, trace := NotifiedBefore(key, severity, repeatTime, looks, n),
                               Follow(key, severity, repeatTime, None, looks + [look]).trace;
            if look.obs.Absent? then !FireAfter(key, severity, repeatTime, looks + [look], n) && !WellShaped(trace)
            else Mode(key, severity, repeatTime, looks + [look], if Refires(look, last, repeatTime) then None else Some(n))
  {
    assert n < |looks|;
    hide Follow;
    hide NextRow;
    hide Attempts;
    hide Shaped;
    hide Announced;
    hide WellShaped;
    hide DeleteFailsAt;
    hide NotifiedBefore;
    hide FireAfter;
    hide FiredAfter;
    hide Refires;
    FollowOneMore(key, severity, repeatTime, looks, look);
    LastFails(key, severity, repeatTime, looks, look);
    LookWhenAnnounced(Follow(key, severity, repeatTime, None, looks), key, severity,
                      NotifiedBefore(key, severity, repeatTime, looks, n), repeatTime, look);
    FireAfterMore(key, severity, repeatTime, looks, look, n);
    if !look.obs.Absent? {
      NoFailureAtLast(key, severity, repeatTime, looks + [look], |looks|);
      var s := Follow(key, severity, repeatTime, None, looks);
      forall m: nat | m < |looks|
        ensures FireAfter(key, severity, repeatTime, looks + [look], m)
        ensures m != n ==> FiredAfter(key, severity, repeatTime, looks + [look], m)
      {
        FireAfterMore(key, severity, repeatTime, looks, look, m);
      }
    }
  }

  /** For any looks at a series, with any deletes of its row failing: the attempts are (Fire+ Resolve)*
      Fire*, well spaced, if and only if after every failed delete a Fire comes before the series is
      absent again. */
  lemma {:induction false} StoryShapeIffRefired(key: Key, severity: string, repeatTime: int, looks: seq<Look>)
    returns (waiting: Option<nat>)
    ensures if forall n: nat :: n < |looks| ==> FireAfter(key, severity, repeatTime, looks, n)
            then Mode(key, severity, repeatTime, looks, waiting)
            else !WellShaped(Follow(key, severity, repeatTime, None, looks).trace)
  {
    waiting := None;
    if looks == [] {
      NothingFailed(key, severity, repeatTime);
    } else {
      var init, look := looks[..|looks| - 1], looks[|looks| - 1];
      assert looks == init + [look];
      hide Follow;
      hide FireAfter;
      hide WellShaped;
      hide NextRow;
      hide Attempts;
      waiting := StoryShapeIffRefired(key, severity, repeatTime, init);
      FollowOneMore(key, severity, repeatTime, init, look);
      if n: nat :| n < |init| && !FireAfter(key, severity, repeatTime, init, n) {
        hide Mode;
        FireAfterMore(key, severity, repeatTime, init, look, n);
        BadShapeStays(Follow(key, severity, repeatTime, None, init).trace,
                      Follow(key, severity, repeatTime, None, looks).trace[|Follow(key, severity, repeatTime, None, init).trace|..]);
      } else if waiting == None {
        waiting := ModeFromShape(key, severity, repeatTime, init, look);
      } else {
        var n := waiting.value;
        ModeWhileWaiting(key, severity, repeatTime, init, look, n);
        if !look.obs.Absent? && Refires(look, NotifiedBefore(key, severity, repeatTime, init, n), repeatTime) {
          waiting := None;
        }
      }
    }
  }

  /** Over every run, whatever fails: the attempts about a series are (Fire+ Resolve)* Fire*, spaced by
      the repeat time, if and only if after every tick at which the delete of its row failed a stored
      sample, at least the repeat time after its last Fire, comes before the series is absent again. */
  lemma {:induction false} RunShapeIffRefired(fp: Fingerprinter, rules: seq<Rule>, repeatTime: int,
                                              ticks: seq<Tick>, planes: seq<Plane>, key: Key)
    requires RunOf(fp, rules, repeatTime, ticks, planes)
    ensures var trace, looks := Trace(planes[|ticks|].log, key), LooksAt(fp, rules, ticks, key);
            WellShaped(trace) && WellSpaced(trace, repeatTime) <==>
            forall n :: 0 <= n < |ticks| && looks[n].obs == Absent(false) && RowOf(planes[n].rows, key).Some? ==>
              FireComesFirst(looks[n + 1..], RowOf(planes[n].rows, key).value.lastNotified, repeatTime)
  {
    hide Ticked;
    hide Follow;
    hide FireComesFirst;
    hide WellShaped;
    hide WellSpaced;
    hide Shaped;
    hide Announced;
    hide FireAfter;
    hide FiredAfter;
    hide DeleteFailsAt;
    hide Mode;
    var looks, severity := LooksAt(fp, rules, ticks, key), SeverityOf(rules, key);
    RunFollowsEachSeries(fp, rules, repeatTime, ticks, planes, key, |ticks|);
    assert looks[..|ticks|] == looks;
    var waiting := StoryShapeIffRefired(key, severity, repeatTime, looks);
    forall n: nat | n < |ticks|
      ensures FireAfter(key, severity, repeatTime, looks, n) <==>
              (looks[n].obs == Absent(false) && RowOf(planes[n].rows, key).Some? ==>
                 FireComesFirst(looks[n + 1..], RowOf(planes[n].rows, key).value.lastNotified, repeatTime))
    {
      RunFollowsEachSeries(fp, rules, repeatTime, ticks, planes, key, n);
      FireAfterByRow(key, severity, repeatTime, looks, n);
    }
    if forall n: nat :: n < |looks| ==> FireAfter(key, severity, repeatTime, looks, n) {
      ModeIsShaped(key, severity, repeatTime, looks, waiting);
    }
  }

  lemma {:induction false} FireAfterByRow(key: Key, severity: string, repeatTime: int, looks: seq<Look>, n: nat)
    requires n < |looks|
    ensures var row := Follow(key, severity, repeatTime, None, looks[..n]).row;
            FireAfter(key, severity, repeatTime, looks, n) <==>
            (looks[n].obs == Absent(false) && row.Some? ==> FireComesFirst(looks[n + 1..], row.value.lastNotified, repeatTime))
  {
    hide Follow;
    hide FireComesFirst;
  }

  lemma {:induction false} ModeIsShaped(key: Key, severity: string, repeatTime: int, looks: seq<Look>, waiting: Option<nat>)
    requires Mode(key, severity, repeatTime, looks, waiting)
    ensures var trace := Follow(key, severity, repeatTime, None, looks).trace; WellShaped(trace) && WellSpaced(trace, repeatTime)
  {
    hide Follow;
    hide WellShaped;
    hide WellSpaced;
    hide FireAfter;
    hide FiredAfter;
  }

  /** In particular when one delete of a firing series' row fails and the others succeed. */
  lemma {:induction false} ShapeAfterFailedDelete(fp: Fingerprinter, rules: seq<Rule>, repeatTime: int,
                                                  ticks: seq<Tick>, planes: seq<Plane>, key: Key, n: nat)
    requires RunOf(fp, rules, repeatTime, ticks, planes) && n < |ticks|
    requires var looks := LooksAt(fp, rules, ticks, key);
             looks[n].obs == Absent(false) && DeletesSucceed(looks[..n]) && DeletesSucceed(looks[n + 1..])
    requires RowOf(planes[n].rows, key).Some?
    ensures var trace := Trace(planes[|ticks|].log, key);
            WellShaped(trace) && WellSpaced(trace, repeatTime) <==>
            FireComesFirst(LooksAt(fp, rules, ticks, key)[n + 1..], RowOf(planes[n].rows, key).value.lastNotified, repeatTime)
  {
    hide WellShaped;
    hide WellSpaced;
    hide FireComesFirst;
    hide Ticked;
    var looks := LooksAt(fp, rules, ticks, key);
    RunShapeIffRefired(fp, rules, repeatTime, ticks, planes, key);
    OnlyFailure(looks, n);
  }

  lemma {:induction false} OnlyFailure(looks: seq<Look>, n: nat)
    requires n < |looks| && DeletesSucceed(looks[..n]) && DeletesSucceed(looks[n + 1..])
    ensures forall m :: 0 <= m < |looks| && m != n ==> looks[m].obs != Absent(false)
  {
    forall m | 0 <= m < |looks| && m != n ensures looks[m].obs != Absent(false) {
      if m < n {
        assert looks[..n][m] in looks[..n];
      } else {
        assert looks[n + 1..][m - n - 1] in looks[n + 1..];
      }
    }
  }

  function Absences(looks: seq<Look>): nat {
    if looks == [] then 0 else Absences(looks[..|looks| - 1]) + if looks[|looks| - 1].obs.Absent? then 1 else 0
  }

  /** As long as deletes go on failing and no such Fire comes, every Absent look announces the
      resolution once more, and nothing else is announced. */
  lemma {:induction false} ResolvesAgainEachTime(key: Key, severity: string, repeatTime: int, row: Row, looks: seq<Look>)
    requires row.status == Firing && !SomeRefire(looks, row.lastNotified, repeatTime)
    requires forall l :: l in looks && l.obs.Absent? ==> !l.obs.deleted
    ensures var t := Follow(key, severity, repeatTime, Some(row), looks);
            && |t.trace| == Absences(looks) && (forall a :: a in t.trace ==> a.resolved)
            && t.row.Some? && t.row.value.status == Firing && t.row.value.lastNotified == row.lastNotified
  {
    if looks != [] {
      var init, look := looks[..|looks| - 1], looks[|looks| - 1];
      assert looks == init + [look] && look in looks && forall l :: l in init ==> l in looks;
      FireFirstMore(init, look, row.lastNotified, repeatTime);
      hide SomeRefire;
      ResolvesAgainEachTime(key, severity, repeatTime, row, init);
    }
  }

  lemma {:induction false} FollowOneMore(key: Key, severity: string, repeatTime: int, looks: seq<Look>, look: Look)
    ensures var before := Follow(key, severity, repeatTime, None, looks);
            Follow(key, severity, repeatTime, None, looks + [look]) ==
            Story(NextRow(before.row, look.obs, look.now, repeatTime),
                  before.trace + Attempts(key, severity, before.row, look.obs, look.now, repeatTime))
  {
    assert (looks + [look])[..|looks|] == looks;
  }

  // -------------------------------------------------- counting within an episode

  /** One continuous firing episode: the series is never seen absent, and time does not go back. */
  predicate Episode(looks: seq<Look>) {
    && looks != []
    && (forall l :: l in looks ==> !l.obs.Absent?)
    && (forall i, j :: 0 <= i <= j < |looks| ==> looks[i].now <= looks[j].now)
  }

  /** How far the Fires so far reach, whatever failed. */
  lemma {:induction false} FiresSpread(key: Key, severity: string, repeatTime: int, looks: seq<Look>)
    requires Episode(looks) && repeatTime > 0
    ensures var s := Follow(key, severity, repeatTime, None, looks);
            && (s.row.None? ==> s.trace == [])
            && (s.row.Some? ==>
                  && s.row.value.status == Firing && |s.trace| >= 1
                  && looks[0].now + (|s.trace| - 1) * repeatTime <= s.row.value.lastNotified <= looks[|looks| - 1].now)
  {
    hide NextRow;
    hide Attempts;
    var init, last := looks[..|looks| - 1], looks[|looks| - 1];
    assert last in looks;
    var before := Follow(key, severity, repeatTime, None, init);
    if init != [] {
      assert forall l :: l in init ==> l in looks;
      FiresSpread(key, severity, repeatTime, init);
      assert init[|init| - 1].now <= last.now;
    }
    TickSpreads(key, severity, repeatTime, before.row, last);
    var n := |before.trace|;
    assert n * repeatTime == (n - 1) * repeatTime + repeatTime;
  }

  /** A tick of a firing series fires at most once, and then a repeat time after the last Fire. */
  lemma {:induction false} TickSpreads(key: Key, severity: string, repeatTime: int, row: Option<Row>, look: Look)
    requires !look.obs.Absent? && repeatTime > 0 && (row.Some? ==> row.value.status == Firing && row.value.lastNotified <= look.now)
    ensures var row' := NextRow(row, look.obs, look.now, repeatTime);
            var more := Attempts(key, severity, row, look.obs, look.now, repeatTime);
            && |more| <= 1 && (row.Some? ==> row'.Some?) && (row'.None? ==> more == [])
            && (row'.Some? ==>
                  && row'.value.status == Firing
                  && if more == [] then row == row' || (row.Some? && row.value.lastNotified == row'.value.lastNotified)
                     else row'.value.lastNotified == look.now && (row.Some? ==> look.now >= row.value.lastNotified + repeatTime))
  {
  }

  /** At most 1 + floor((t1 - t0) / R) Fire attempts in an episode from t0 to t1, whatever fails. */
  lemma {:induction false} FiresAtMost(key: Key, severity: string, repeatTime: int, looks: seq<Look>)
    requires Episode(looks) && repeatTime > 0
    ensures |Follow(key, severity, repeatTime, None, looks).trace| <=
            1 + (looks[|looks| - 1].now - looks[0].now) / repeatTime
  {
    hide Follow;
    FiresSpread(key, severity, repeatTime, looks);
    var n := |Follow(key, severity, repeatTime, None, looks).trace|;
    if n > 0 {
      QuotientAtLeast(looks[|looks| - 1].now - looks[0].now, repeatTime, n - 1);
    } else {
      QuotientAtLeast(looks[|looks| - 1].now - looks[0].now, repeatTime, 0);
    }
  }

  lemma {:induction false} ProductGrows(x: int, y: int, b: int)
    requires b > 0
    ensures x <= y ==> x * b <= y * b
  {
  }

  lemma {:induction false} QuotientAtLeast(a: int, b: int, q: int)
    requires b > 0 && q * b <= a
    ensures q <= a / b
  {
    ProductGrows(a / b + 1, q, b);
    assert (a / b + 1) * b == (a / b) * b + b;
  }

  lemma {:induction false} QuotientAtMost(a: int, b: int, q: int)
    requires b > 0 && 0 <= a < (q + 1) * b
    ensures a / b <= q
  {
    ProductGrows(q + 1, a / b, b);
  }

  predicate GapsAtMost(looks: seq<Look>, gap: int) {
    forall i :: 0 < i < |looks| ==> looks[i].now - looks[i - 1].now <= gap
  }

  predicate AllStored(looks: seq<Look>) {
    forall l :: l in looks ==> l.obs.Present? && l.obs.stored
  }

  /** A fault-free tick of a firing series, at most `gap` after the one before. */
  lemma {:induction false} TickKeepsUp(key: Key, severity: string, repeatTime: int, gap: int, row: Row, look: Look, before: int, reach: int)
    requires look.obs.Present? && look.obs.stored && row.status == Firing && before <= look.now <= before + gap
    requires before - row.lastNotified < repeatTime && row.lastNotified <= reach && repeatTime > 0
    ensures var row' := NextRow(Some(row), look.obs, look.now, repeatTime);
            var more := Attempts(key, severity, Some(row), look.obs, look.now, repeatTime);
            && row'.Some? && row'.value.status == Firing && look.now - row'.value.lastNotified < repeatTime && |more| <= 1
            && row'.value.lastNotified <= if more == [] then reach else reach + (repeatTime + gap)
  {
  }

  /** (n - 1) * step, for n Fires. */
  function Budget(n: nat, step: int): int {
    if n <= 1 then 0 else Budget(n - 1, step) + step
  }

  lemma {:induction false} BudgetIsProduct(n: nat, step: int)
    requires n >= 1
    ensures Budget(n, step) == (n - 1) * step
  {
    if n > 1 {
      BudgetIsProduct(n - 1, step);
      assert (n - 1) * step == (n - 2) * step + step;
    }
  }

  lemma {:induction false} FirstTick(key: Key, severity: string, repeatTime: int, look: Look)
    requires look.obs.Present? && look.obs.stored
    ensures var row' := NextRow(None, look.obs, look.now, repeatTime);
            row'.Some? && row'.value.status == Firing && row'.value.lastNotified == look.now
    ensures |Attempts(key, severity, None, look.obs, look.now, repeatTime)| == 1
  {
  }

  lemma {:induction false} FiresKeepUp(key: Key, severity: string, repeatTime: int, gap: int, looks: seq<Look>)
    requires Episode(looks) && repeatTime > 0 && gap >= 0 && GapsAtMost(looks, gap) && AllStored(looks)
    ensures var s := Follow(key, severity, repeatTime, None, looks);
            && s.row.Some? && s.row.value.status == Firing && |s.trace| >= 1
            && looks[|looks| - 1].now - s.row.value.lastNotified < repeatTime
            && s.row.value.lastNotified <= looks[0].now + Budget(|s.trace|, repeatTime + gap)
  {
    hide NextRow;
    hide Attempts;
    var init, last := looks[..|looks| - 1], looks[|looks| - 1];
    assert last in looks;
    var before := Follow(key, severity, repeatTime, None, init);
    if init == [] {
      assert before == Story(None, []);
      FirstTick(key, severity, repeatTime, last);
    } else {
      assert forall l :: l in init ==> l in looks;
      FiresKeepUp(key, severity, repeatTime, gap, init);
      assert looks[|init|].now - looks[|init| - 1].now <= gap && looks[|init| - 1].now <= looks[|init|].now;
      TickKeepsUp(key, severity, repeatTime, gap, before.row.value, last, init[|init| - 1].now,
                  looks[0].now + Budget(|before.trace|, repeatTime + gap));
    }
  }

  /** With no faults and ticks at most I apart, at least 1 + floor((t1 - t0) / (R + I)) Fires. */
  lemma {:induction false} FiresAtLeast(key: Key, severity: string, repeatTime: int, gap: int, looks: seq<Look>)
    requires Episode(looks) && repeatTime > 0 && gap >= 0 && GapsAtMost(looks, gap) && AllStored(looks)
    ensures |Follow(key, severity, repeatTime, None, looks).trace| >=
            1 + (looks[|looks| - 1].now - looks[0].now) / (repeatTime + gap)
  {
    hide Follow;
    FiresKeepUp(key, severity, repeatTime, gap, looks);
    var n := |Follow(key, severity, repeatTime, None, looks).trace|;
    BudgetIsProduct(n, repeatTime + gap);
    assert n * (repeatTime + gap) == (n - 1) * (repeatTime + gap) + (repeatTime + gap);
    QuotientAtMost(looks[|looks| - 1].now - looks[0].now, repeatTime + gap, n - 1);
  }

  lemma {:induction false} FollowAppend(key: Key, severity: string, repeatTime: int, row: Option<Row>, a: seq<Look>, b: seq<Look>)
    ensures var s := Follow(key, severity, repeatTime, row, a);
            var t := Follow(key, severity, repeatTime, s.row, b);
            Follow(key, severity, repeatTime, row, a + b) == Story(t.row, s.trace + t.trace)
  {
    hide NextRow;
    hide Attempts;
    if b == [] {
      assert a + b == a;
    } else {
      FollowAppend(key, severity, repeatTime, row, a, b[..|b| - 1]);
      assert (a + b)[..|a + b| - 1] == a + b[..|b| - 1];
    }
  }

  /** The counts hold of every episode of every run: from a moment at which the series has no row, as
      long as it is never seen absent. */
  lemma {:induction false} EpisodeCountsInRun(fp: Fingerprinter, rules: seq<Rule>, repeatTime: int, gap: int,
                                              ticks: seq<Tick>, planes: seq<Plane>, key: Key, i: nat, j: nat)
    requires RunOf(fp, rules, repeatTime, ticks, planes) && i < j <= |ticks|
    requires RowOf(planes[i].rows, key) == None && repeatTime > 0 && gap >= 0
    requires Episode(LooksAt(fp, rules, ticks, key)[i..j])
    ensures |Trace(planes[j].log, key)| - |Trace(planes[i].log, key)| <= 1 + (ticks[j - 1].now - ticks[i].now) / repeatTime
    ensures var looks := LooksAt(fp, rules, ticks, key)[i..j];
            GapsAtMost(looks, gap) && AllStored(looks) ==>
            |Trace(planes[j].log, key)| - |Trace(planes[i].log, key)| >= 1 + (ticks[j - 1].now - ticks[i].now) / (repeatTime + gap)
  {
    hide Ticked;
    hide Follow;
    hide Episode;
    hide GapsAtMost;
    hide AllStored;
    var all, severity := LooksAt(fp, rules, ticks, key), SeverityOf(rules, key);
    var looks := all[i..j];
    RunFollowsEachSeries(fp, rules, repeatTime, ticks, planes, key, i);
    RunFollowsEachSeries(fp, rules, repeatTime, ticks, planes, key, j);
    assert all[..j] == all[..i] + looks;
    FollowAppend(key, severity, repeatTime, None, all[..i], looks);
    FiresAtMost(key, severity, repeatTime, looks);
    if GapsAtMost(looks, gap) && AllStored(looks) {
      FiresAtLeast(key, severity, repeatTime, gap, looks);
    }
  }

  /** With a repeat time of 0 every fault-free tick of a firing series pages. */
  lemma {:induction false} ZeroRepeatPagesEveryTick(key: Key, severity: string, looks: seq<Look>)
    requires Episode(looks) && AllStored(looks)
    ensures |Follow(key, severity, 0, None, looks).trace| == |looks|
    ensures Follow(key, severity, 0, None, looks).row.Some?
    ensures Follow(key, severity, 0, None, looks).row.value.lastNotified == looks[|looks| - 1].now
  {
    var init, last := looks[..|looks| - 1], looks[|looks| - 1];
    assert last in looks;
    if init != [] {
      assert forall l :: l in init ==> l in looks;
      ZeroRepeatPagesEveryTick(key, severity, init);
      assert init[|init| - 1].now <= last.now;
    }
  }

  // ---------------------------------------------------- order does not matter

  /** Two evaluations of one rule from the same rows end in the same rows and make the same
      attempts, as a multiset, whatever order each visited its maps in. */
  lemma {:induction false} OrderIsIrrelevant(fp: Fingerprinter, rule: Rule, env: RuleEnv, now: Clock, repeatTime: int, rows: Rows,
                                             rows1: Rows, log1: seq<Notification>, rows2: Rows, log2: seq<Notification>)
    requires RuleEvaluated(fp, rule, env, now, repeatTime, rows, rows1, log1)
    requires RuleEvaluated(fp, rule, env, now, repeatTime, rows, rows2, log2)
    ensures rows1 == rows2 && multiset(log1) == multiset(log2)
  {
    hide NextRow;
    hide Attempts;
    hide ObsOf;
    forall key: Key ensures RowOf(rows1, key) == RowOf(rows2, key) && Trace(log1, key) == Trace(log2, key) {
    }
    assert forall key :: key in rows1 <==> RowOf(rows1, key).Some?;
    assert forall key :: key in rows2 <==> RowOf(rows2, key).Some?;
    assert forall key :: key in rows1 ==> RowOf(rows1, key) == Some(rows1[key]);
    assert forall key :: key in rows2 ==> RowOf(rows2, key) == Some(rows2[key]);
    forall n ensures multiset(log1)[n] == multiset(log2)[n] {
      TraceCounts(log1, n);
      TraceCounts(log2, n);
      assert Trace(log1, n.key) == Trace(log2, n.key);
    }
  }

  lemma {:induction false} TraceCounts(log: seq<Notification>, n: Notification)
    ensures multiset(log)[n] == multiset(Trace(log, n.key))[n]
  {
    if log != [] {
      var init, last := log[..|log| - 1], log[|log| - 1];
      TraceCounts(init, n);
      assert log == init + [last];
      if last.key != n.key {
        assert Trace(log, n.key) == Trace(init, n.key) + [] == Trace(init, n.key);
      }
    }
  }

  /** Fault-free, evaluating a rule reconciles: the rule's rows become exactly the fingerprints of
      the present samples, each firing with its last sample's labels and value, and no other rule's
      row changes. */
  lemma {:induction false} FaultFreeReconciles(fp: Fingerprinter, rule: Rule, env: RuleEnv, now: Clock, repeatTime: int,
                                               rows: Rows, rows': Rows, log: seq<Notification>)
    requires RuleEvaluated(fp, rule, env, now, repeatTime, rows, rows', log)
    requires env.query.Some? && !env.listFails && env.upsertFails == {} && env.deleteFails == {}
    ensures forall key: Key :: key.rule != rule.name ==> RowOf(rows', key) == RowOf(rows, key)
    ensures forall f: string :: Key(rule.name, f) in rows' <==>
              exists s :: s in env.query.value && fp(rule.listed, s.labels) == f
    ensures forall i :: 0 <= i < |env.query.value| ==>
              var s := env.query.value[i];
              var key := Key(rule.name, fp(rule.listed, s.labels));
              (forall j :: i < j < |env.query.value| ==> fp(rule.listed, env.query.value[j].labels) != key.fp) ==>
                && key in rows' && rows'[key].status == Firing
                && rows'[key].labels == s.labels && rows'[key].value == s.value
  {
    var samples := env.query.value;
    forall key: Key | key.rule != rule.name ensures RowOf(rows', key) == RowOf(rows, key) {
      assert ObsOf(fp, rule, env, key) == Skipped;
    }
    forall f: string
      ensures Key(rule.name, f) in rows' <==> exists s :: s in samples && fp(rule.listed, s.labels) == f
    {
      FiringHas(fp, rule, samples, f);
      hide FiringNow;
      var key := Key(rule.name, f);
      assert RowOf(rows', key) == NextRow(RowOf(rows, key), ObsOf(fp, rule, env, key), now, repeatTime);
    }
    forall i | 0 <= i < |samples| && (forall j :: i < j < |samples| ==> fp(rule.listed, samples[j].labels) != fp(rule.listed, samples[i].labels))
      ensures var key := Key(rule.name, fp(rule.listed, samples[i].labels));
              && key in rows' && rows'[key].status == Firing
              && rows'[key].labels == samples[i].labels && rows'[key].value == samples[i].value
    {
      LastSampleWins(fp, rule, samples, i);
      hide FiringNow;
      var key := Key(rule.name, fp(rule.listed, samples[i].labels));
      assert RowOf(rows', key) == NextRow(RowOf(rows, key), ObsOf(fp, rule, env, key), now, repeatTime);
    }
  }

  lemma {:induction false} FiringHas(fp: Fingerprinter, rule: Rule, samples: seq<Sample>, f: string)
    ensures f in FiringNow(fp, rule, samples) <==> exists s :: s in samples && fp(rule.listed, s.labels) == f
  {
    if samples != [] {
      var init, last := samples[..|samples| - 1], samples[|samples| - 1];
      FiringHas(fp, rule, init, f);
      assert samples == init + [last];
      assert last in samples;
    }
  }

  lemma {:induction false} LastSampleWins(fp: Fingerprinter, rule: Rule, samples: seq<Sample>, i: nat)
    requires i < |samples|
    requires forall j :: i < j < |samples| ==> fp(rule.listed, samples[j].labels) != fp(rule.listed, samples[i].labels)
    ensures var f := fp(rule.listed, samples[i].labels);
            f in FiringNow(fp, rule, samples) && FiringNow(fp, rule, samples)[f] == samples[i]
  {
    if i < |samples| - 1 {
      LastSampleWins(fp, rule, samples[..|samples| - 1], i);
    }
  }
}
