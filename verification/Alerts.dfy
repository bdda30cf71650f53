/** The alert evaluator (internal/alerts/evaluator.go): reconciles what each rule's query returns
    with the stored rows, and notifies. */
module Alerts {
  import opened Text

  type Labels = map<string, string>
  datatype Sample = Sample(labels: Labels, value: real)
  datatype Rule = Rule(name: string, severity: string, listed: seq<string>)

  /** The unique key of a stored row. */
  datatype Key = Key(rule: string, fp: string)
  datatype Status = Firing | Resolved
  datatype Row = Row(labels: Labels, status: Status, value: real, lastNotified: int)
  type Rows = map<Key, Row>

  /** One attempt to notify; `key` names the series it is about. */
  datatype Notification = Notification(key: Key, severity: string, labels: Labels, value: real, resolved: bool, time: int)

  /** The hash of a label set, for a rule's listed labels. */
  type Fingerprinter = (seq<string>, Labels) -> string

  /** What one evaluation of a rule meets: the query's result, and which store calls fail. */
  datatype RuleEnv = RuleEnv(query: Option<seq<Sample>>, listFails: bool, upsertFails: set<string>, deleteFails: set<string>)

  /** Wall-clock time; 0 stands for Go's zero time, which no clock reads. */
  type Clock = t: int | t > 0 witness 1

  // ------------------------------------------------------- one series, one tick

  /** What one tick tells about one series. */
  datatype Obs = Skipped | Absent(deleted: bool) | Present(sample: Sample, stored: bool)

  function RowOf(rows: Rows, key: Key): Option<Row> {
    if key in rows then Some(rows[key]) else None
  }

  predicate ShouldNotify(row: Option<Row>, now: int, repeatTime: int) {
    row.None? || row.value.status != Firing || now - row.value.lastNotified >= repeatTime
  }

  function NextRow(row: Option<Row>, obs: Obs, now: Clock, repeatTime: int): Option<Row> {
    match obs
    case Present(sample, true) =>
      Some(Row(sample.labels, Firing, sample.value,
               if ShouldNotify(row, now, repeatTime) then now else row.value.lastNotified))
    case Absent(true) => None
    case _ => row
  }

  function Attempts(key: Key, severity: string, row: Option<Row>, obs: Obs, now: Clock, repeatTime: int): seq<Notification> {
    match obs
    case Present(sample, true) =>
      if ShouldNotify(row, now, repeatTime)
      then [Notification(key, severity, sample.labels, sample.value, false, now)]
      else []
    case Absent(_) =>
      if row.Some? && row.value.status == Firing
      then [Notification(key, severity, row.value.labels, row.value.value, true, now)]
      else []
    case _ => []
  }

  // ------------------------------------------------------------- one rule

  /** The desired state: the last sample of each fingerprint. */
  function FiringNow(fp: Fingerprinter, rule: Rule, samples: seq<Sample>): map<string, Sample> {
    if samples == [] then map[]
    else
      var last := samples[|samples| - 1];
      FiringNow(fp, rule, samples[..|samples| - 1])[fp(rule.listed, last.labels) := last]
  }

  function ObsOf(fp: Fingerprinter, rule: Rule, env: RuleEnv, key: Key): Obs {
    if key.rule != rule.name || env.query.None? || env.listFails then Skipped
    else
      var firing := FiringNow(fp, rule, env.query.value);
      if key.fp in firing then Present(firing[key.fp], key.fp !in env.upsertFails)
      else Absent(key.fp !in env.deleteFails)
  }

  /** The notification attempts about one series, in order. */
  function Trace(log: seq<Notification>, key: Key): seq<Notification> {
    if log == [] then []
    else
      var n := log[|log| - 1];
      Trace(log[..|log| - 1], key) + if n.key == key then [n] else []
  }

  lemma {:induction false} TraceSnoc(log: seq<Notification>, n: Notification, key: Key)
    ensures Trace(log + [n], key) == Trace(log, key) + if n.key == key then [n] else []
  {
    assert (log + [n])[..|log|] == log;
  }

  /** What evaluating a rule does to every series: its row, and the attempts made about it. */
  ghost predicate RuleEvaluated(fp: Fingerprinter, rule: Rule, env: RuleEnv, now: Clock, repeatTime: int,
                                rows: Rows, rows': Rows, log: seq<Notification>)
  {
    forall key ::
      && RowOf(rows', key) == NextRow(RowOf(rows, key), ObsOf(fp, rule, env, key), now, repeatTime)
      && Trace(log, key) == Attempts(key, rule.severity, RowOf(rows, key), ObsOf(fp, rule, env, key), now, repeatTime)
  }

  // ------------------------------------------------------------- one tick

  /** The rule of a given name among those before `n`, or `n`. */
  function RuleAt(rules: seq<Rule>, name: string): (i: nat)
    ensures i <= |rules| && (i < |rules| ==> rules[i].name == name)
  {
    if rules == [] then 0
    else
      var n := |rules| - 1;
      if rules[n].name == name then n
      else
        var i := RuleAt(rules[..n], name);
        if i == n then n + 1 else i
  }

  ghost predicate DistinctNames(rules: seq<Rule>) {
    forall i, j :: 0 <= i < j < |rules| ==> rules[i].name != rules[j].name
  }

  function ObsInTick(fp: Fingerprinter, rules: seq<Rule>, envs: seq<RuleEnv>, key: Key): Obs
    requires |rules| == |envs|
  {
    var i := RuleAt(rules, key.rule);
    if i < |rules| then ObsOf(fp, rules[i], envs[i], key) else Skipped
  }

  function SeverityOf(rules: seq<Rule>, key: Key): string {
    var i := RuleAt(rules, key.rule);
    if i < |rules| then rules[i].severity else ""
  }

  /** What one tick over all rules does to every series. */
  ghost predicate Ticked(fp: Fingerprinter, rules: seq<Rule>, envs: seq<RuleEnv>, now: Clock, repeatTime: int,
                         rows: Rows, rows': Rows, log: seq<Notification>)
    requires |rules| == |envs|
  {
    forall key: Key ::
      && RowOf(rows', key) == NextRow(RowOf(rows, key), ObsInTick(fp, rules, envs, key), now, repeatTime)
      && Trace(log, key) == Attempts(key, SeverityOf(rules, key), RowOf(rows, key), ObsInTick(fp, rules, envs, key), now, repeatTime)
  }

  lemma {:induction false} TraceAppend(a: seq<Notification>, b: seq<Notification>, key: Key)
    ensures Trace(a + b, key) == Trace(a, key) + Trace(b, key)
  {
    if b == [] {
      assert a + b == a;
    } else {
      var n := |b| - 1;
      TraceAppend(a, b[..n], key);
      assert a + b == a + b[..n] + [b[n]];
      TraceSnoc(a + b[..n], b[n], key);
    }
  }

  /** One more rule of the tick. */
  lemma {:induction false} TickedOneMore(fp: Fingerprinter, rules: seq<Rule>, envs: seq<RuleEnv>, now: Clock, repeatTime: int,
                                         rows: Rows, rows1: Rows, rows2: Rows, log: seq<Notification>, more: seq<Notification>, i: nat)
    requires |rules| == |envs| && i < |rules| && DistinctNames(rules)
    requires Ticked(fp, rules[..i], envs[..i], now, repeatTime, rows, rows1, log)
    requires RuleEvaluated(fp, rules[i], envs[i], now, repeatTime, rows1, rows2, more)
    ensures Ticked(fp, rules[..i + 1], envs[..i + 1], now, repeatTime, rows, rows2, log + more)
  {
    forall key: Key
      ensures RowOf(rows2, key) == NextRow(RowOf(rows, key), ObsInTick(fp, rules[..i + 1], envs[..i + 1], key), now, repeatTime)
      ensures Trace(log + more, key) == Attempts(key, SeverityOf(rules[..i + 1], key), RowOf(rows, key),
                                                 ObsInTick(fp, rules[..i + 1], envs[..i + 1], key), now, repeatTime)
    {
      TraceAppend(log, more, key);
      ObsOneMore(fp, rules, envs, key, i);
      hide FiringNow;
      hide ObsInTick;
      hide SeverityOf;
      if key.rule == rules[i].name {
        assert Trace(log, key) == [];
      } else {
        assert ObsOf(fp, rules[i], envs[i], key) == Skipped;
        assert Trace(log, key) + [] == Trace(log, key);
      }
    }
  }

  lemma {:induction false} ObsOneMore(fp: Fingerprinter, rules: seq<Rule>, envs: seq<RuleEnv>, key: Key, i: nat)
    requires |rules| == |envs| && i < |rules| && DistinctNames(rules)
    ensures key.rule == rules[i].name ==>
              && ObsInTick(fp, rules[..i], envs[..i], key) == Skipped
              && ObsInTick(fp, rules[..i + 1], envs[..i + 1], key) == ObsOf(fp, rules[i], envs[i], key)
              && SeverityOf(rules[..i + 1], key) == rules[i].severity
    ensures key.rule != rules[i].name ==>
              && ObsInTick(fp, rules[..i + 1], envs[..i + 1], key) == ObsInTick(fp, rules[..i], envs[..i], key)
              && SeverityOf(rules[..i + 1], key) == SeverityOf(rules[..i], key)
  {
    hide ObsOf;
    assert rules[..i + 1][..i] == rules[..i];
  }

  class Evaluator {
    const rules: seq<Rule>
    const fingerprint: Fingerprinter
    const repeatTime: int
    var rows: Rows
    var attempts: seq<Notification>

    constructor (rules: seq<Rule>, fingerprint: Fingerprinter, repeatTime: int, rows: Rows)
      ensures this.rules == rules && this.fingerprint == fingerprint && this.repeatTime == repeatTime
      ensures this.rows == rows && attempts == []
    {
      this.rules, this.fingerprint, this.repeatTime := rules, fingerprint, repeatTime;
      this.rows, attempts := rows, [];
    }

    /** UpsertAlertState: create with the given values, or update; a zero last-notified time leaves
        the stored one, or the store's default on creation. */
    method Upsert(key: Key, row: Row, default: int)
      modifies this`rows
      ensures rows == old(rows)[key := row.(lastNotified :=
                if row.lastNotified != 0 then row.lastNotified
                else if key in old(rows) then old(rows[key].lastNotified) else default)]
    {
      var at := row.lastNotified;
      if at == 0 {
        at := if key in rows then rows[key].lastNotified else default;
      }
      rows := rows[key := row.(lastNotified := at)];
    }

    method CollectFiring(rule: Rule, samples: seq<Sample>) returns (firing: map<string, Sample>)
      ensures firing == FiringNow(fingerprint, rule, samples)
    {
      firing := map[];
      for i := 0 to |samples|
        invariant firing == FiringNow(fingerprint, rule, samples[..i])
      {
        assert samples[..i + 1][..i] == samples[..i];
        firing := firing[fingerprint(rule.listed, samples[i].labels) := samples[i]];
      }
      assert samples[..|samples|] == samples;
    }

    /** One firing series: upsert, and notify if it is new or its cooldown has passed. */
    method FireOne(rule: Rule, key: Key, sample: Sample, stored: bool, now: Clock, default: int)
      modifies this`rows, this`attempts
      ensures forall k :: RowOf(rows, k) ==
                if k == key then NextRow(old(RowOf(rows, key)), Present(sample, stored), now, repeatTime)
                else old(RowOf(rows, k))
      ensures attempts == old(attempts) +
                Attempts(key, rule.severity, old(RowOf(rows, key)), Present(sample, stored), now, repeatTime)
    {
      var previous := RowOf(rows, key);
      var shouldNotify := ShouldNotify(previous, now, repeatTime);
      var lastNotified := if shouldNotify then now else previous.value.lastNotified;
      if !stored {
        assert attempts + [] == attempts;
        return;
      }
      Upsert(key, Row(sample.labels, Firing, sample.value, lastNotified), default);
      if shouldNotify {
        attempts := attempts + [Notification(key, rule.severity, sample.labels, sample.value, false, now)];
      } else {
        assert attempts + [] == attempts;
      }
    }

    /** One series that stopped firing: notify the resolution, then delete its row. */
    method ResolveOne(rule: Rule, key: Key, deleted: bool, now: Clock)
      requires key in rows
      modifies this`rows, this`attempts
      ensures forall k :: RowOf(rows, k) ==
                if k == key then NextRow(old(RowOf(rows, key)), Absent(deleted), now, repeatTime)
                else old(RowOf(rows, k))
      ensures attempts == old(attempts) +
                Attempts(key, rule.severity, old(RowOf(rows, key)), Absent(deleted), now, repeatTime)
    {
      var previous := rows[key];
      if previous.status == Firing {
        attempts := attempts + [Notification(key, rule.severity, previous.labels, previous.value, true, now)];
      } else {
        assert attempts + [] == attempts;
      }
      if deleted {
        rows := rows - {key};
      }
    }

    /** Anything currently firing, in whatever order the map yields. */
    method FireAll(rule: Rule, env: RuleEnv, now: Clock, default: int, firing: map<string, Sample>) returns (ghost log: seq<Notification>)
      requires env.query.Some? && !env.listFails && firing == FiringNow(fingerprint, rule, env.query.value)
      modifies this`rows, this`attempts
      ensures attempts == old(attempts) + log
      ensures Progress(rule, env, now, old(rows), rows, log, KeysOf(rule, firing.Keys))
    {
      ghost var rows0, log0 := rows, attempts;
      hide FiringNow;
      hide NextRow;
      hide Attempts;
      log := [];
      ghost var handled: set<string> := {};
      var rest := firing.Keys;
      while rest != {}
        invariant rest <= firing.Keys && handled == firing.Keys - rest
        invariant attempts == log0 + log
        invariant Progress(rule, env, now, rows0, rows, log, KeysOf(rule, handled))
      {
        var fp :| fp in rest;
        var key := Key(rule.name, fp);
        ghost var rows1 := rows;
        KeysOfStep(rule, handled, fp);
        hide KeysOf;
        FireOne(rule, key, firing[fp], fp !in env.upsertFails, now, default);
        ghost var more := Attempts(key, rule.severity, RowOf(rows0, key), ObsOf(fingerprint, rule, env, key), now, repeatTime);
        ProgressStep(rule, env, now, rows0, rows1, rows, log, more, KeysOf(rule, handled), key);
        hide Progress;
        log, rest, handled := log + more, rest - {fp}, handled + {fp};
      }
    }

    /** One previously firing series: resolve it unless it still fires. */
    method ResolveUnlessFiring(rule: Rule, env: RuleEnv, now: Clock, firing: map<string, Sample>, fp: string,
                               ghost rows0: Rows, ghost log0: seq<Notification>, ghost handled: set<string>)
      returns (ghost more: seq<Notification>)
      requires env.query.Some? && !env.listFails && firing == FiringNow(fingerprint, rule, env.query.value)
      requires Progress(rule, env, now, rows0, rows, log0, KeysOf(rule, handled))
      requires Key(rule.name, fp) in rows0 && (fp in handled <==> fp in firing)
      modifies this`rows, this`attempts
      ensures attempts == old(attempts) + more
      ensures Progress(rule, env, now, rows0, rows, log0 + more, KeysOf(rule, handled + {fp}))
    {
      hide FiringNow;
      hide NextRow;
      hide Attempts;
      more := [];
      var key := Key(rule.name, fp);
      if fp in firing {
        assert log0 + [] == log0 && attempts + [] == attempts && handled + {fp} == handled;
        return;
      }
      KeysOfStep(rule, handled, fp);
      hide KeysOf;
      assert RowOf(rows, key) == RowOf(rows0, key) == Some(rows0[key]);
      ghost var rows1 := rows;
      ResolveOne(rule, key, fp !in env.deleteFails, now);
      more := Attempts(key, rule.severity, RowOf(rows0, key), ObsOf(fingerprint, rule, env, key), now, repeatTime);
      ProgressStep(rule, env, now, rows0, rows1, rows, log0, more, KeysOf(rule, handled), key);
      hide Progress;
    }

    /** Anything previously firing but absent now, in whatever order the map yields. */
    method ResolveAll(rule: Rule, env: RuleEnv, now: Clock, firing: map<string, Sample>, prev: set<string>,
                      ghost rows0: Rows, ghost log0: seq<Notification>) returns (ghost log: seq<Notification>)
      requires env.query.Some? && !env.listFails && firing == FiringNow(fingerprint, rule, env.query.value)
      requires Progress(rule, env, now, rows0, rows, log0, KeysOf(rule, firing.Keys))
      requires forall fp :: fp in prev ==> Key(rule.name, fp) in rows0
      modifies this`rows, this`attempts
      ensures attempts == old(attempts) + log
      ensures Progress(rule, env, now, rows0, rows, log0 + log, KeysOf(rule, firing.Keys + prev))
    {
      hide FiringNow;
      hide Progress;
      hide KeysOf;
      ghost var before, handled := attempts, firing.Keys;
      log := [];
      assert log0 + log == log0 && before + log == before;
      var rest := prev;
      while rest != {}
        invariant rest <= prev && handled == firing.Keys + (prev - rest)
        invariant attempts == before + log
        invariant Progress(rule, env, now, rows0, rows, log0 + log, KeysOf(rule, handled))
      {
        var fp :| fp in rest;
        ghost var more := ResolveUnlessFiring(rule, env, now, firing, fp, rows0, log0 + log, handled);
        assert log0 + log + more == log0 + (log + more);
        log, rest, handled := log + more, rest - {fp}, handled + {fp};
      }
      assert handled == firing.Keys + prev;
    }

    /** evaluateRule; both maps are visited in any order. */
    method EvaluateRule(rule: Rule, env: RuleEnv, now: Clock, default: int) returns (ghost log: seq<Notification>)
      modifies this`rows, this`attempts
      ensures attempts == old(attempts) + log
      ensures RuleEvaluated(fingerprint, rule, env, now, repeatTime, old(rows), rows, log)
    {
      hide FiringNow;
      hide Progress;
      hide KeysOf;
      hide RuleEvaluated;
      if env.query.None? || env.listFails {
        log := [];
        assert attempts + [] == attempts;
        SkippedRule(rule, env, now, rows);
        return;
      }
      var firing := CollectFiring(rule, env.query.value);
      var prev := set k | k in rows && k.rule == rule.name :: k.fp;
      PrevHasRows(rule, rows, prev);
      ghost var rows0 := rows;
      log := FireAll(rule, env, now, default, firing);
      ghost var more := ResolveAll(rule, env, now, firing, prev, rows0, log);
      log := log + more;
      KeysOfCovers(rule, rows0, firing.Keys, prev);
      ProgressEnds(rule, env, now, rows0, rows, log, KeysOf(rule, firing.Keys + prev));
    }

    /** EvaluateOnce: every rule once, one reading of the clock for all. With distinct rule names each
        series is handled by its own rule alone. */
    method EvaluateOnce(now: Clock, envs: seq<RuleEnv>, default: int) returns (ghost log: seq<Notification>)
      requires |envs| == |rules|
      modifies this`rows, this`attempts
      ensures attempts == old(attempts) + log
      ensures DistinctNames(rules) ==> Ticked(fingerprint, rules, envs, now, repeatTime, old(rows), rows, log)
    {
      hide RuleEvaluated;
      log := [];
      ghost var before, rows0 := attempts, rows;
      assert before + log == before;
      hide Ticked;
      NothingTicked(now, rows0);
      for i := 0 to |rules|
        invariant attempts == before + log
        invariant DistinctNames(rules) ==> Ticked(fingerprint, rules[..i], envs[..i], now, repeatTime, rows0, rows, log)
      {
        ghost var rows1 := rows;
        ghost var more := EvaluateRule(rules[i], envs[i], now, default);
        if DistinctNames(rules) {
          TickedOneMore(fingerprint, rules, envs, now, repeatTime, rows0, rows1, rows, log, more, i);
        }
        log := log + more;
      }
      assert rules[..|rules|] == rules && envs[..|rules|] == envs;
    }

    lemma {:induction false} NothingTicked(now: Clock, rows0: Rows)
      ensures Ticked(fingerprint, [], [], now, repeatTime, rows0, rows0, [])
    {
    }

    lemma {:induction false} SkippedRule(rule: Rule, env: RuleEnv, now: Clock, rows0: Rows)
      requires env.query.None? || env.listFails
      ensures RuleEvaluated(fingerprint, rule, env, now, repeatTime, rows0, rows0, [])
    {
    }

    lemma {:induction false} PrevHasRows(rule: Rule, rows0: Rows, prev: set<string>)
      requires prev == set k | k in rows0 && k.rule == rule.name :: k.fp
      ensures forall fp :: fp in prev <==> Key(rule.name, fp) in rows0
    {
      forall fp ensures fp in prev <==> Key(rule.name, fp) in rows0 {
        if Key(rule.name, fp) in rows0 {
          assert Key(rule.name, fp).fp in prev;
        }
      }
    }

    lemma {:induction false} KeysOfStep(rule: Rule, fps: set<string>, fp: string)
      ensures KeysOf(rule, fps + {fp}) == KeysOf(rule, fps) + {Key(rule.name, fp)}
      ensures Key(rule.name, fp) in KeysOf(rule, fps) <==> fp in fps
    {
    }

    lemma {:induction false} KeysOfCovers(rule: Rule, rows0: Rows, firing: set<string>, prev: set<string>)
      requires forall fp :: fp in prev <==> Key(rule.name, fp) in rows0
      ensures forall fp :: fp in firing ==> Key(rule.name, fp) in KeysOf(rule, firing + prev)
      ensures forall k :: k in rows0 && k.rule == rule.name ==> k in KeysOf(rule, firing + prev)
    {
      forall k | k in rows0 && k.rule == rule.name ensures k in KeysOf(rule, firing + prev) {
        assert k == Key(rule.name, k.fp);
      }
    }

    ghost function KeysOf(rule: Rule, fps: set<string>): set<Key> {
      set fp | fp in fps :: Key(rule.name, fp)
    }

    /** The series in `done` have been handled, the others are as they were. */
    ghost predicate Progress(rule: Rule, env: RuleEnv, now: Clock, rows0: Rows, rows': Rows, log: seq<Notification>, done: set<Key>) {
      forall k: Key ::
        && RowOf(rows', k) == (if k in done then NextRow(RowOf(rows0, k), ObsOf(fingerprint, rule, env, k), now, repeatTime)
                               else RowOf(rows0, k))
        && Trace(log, k) == (if k in done then Attempts(k, rule.severity, RowOf(rows0, k), ObsOf(fingerprint, rule, env, k), now, repeatTime)
                             else [])
    }

    lemma {:induction false} ProgressStep(rule: Rule, env: RuleEnv, now: Clock, rows0: Rows, rows1: Rows, rows2: Rows,
                                          log: seq<Notification>, more: seq<Notification>, done: set<Key>, key: Key)
      requires Progress(rule, env, now, rows0, rows1, log, done) && key !in done
      requires more == Attempts(key, rule.severity, RowOf(rows0, key), ObsOf(fingerprint, rule, env, key), now, repeatTime)
      requires forall k :: RowOf(rows2, k) ==
                 if k == key then NextRow(RowOf(rows1, key), ObsOf(fingerprint, rule, env, key), now, repeatTime)
                 else RowOf(rows1, k)
      ensures Progress(rule, env, now, rows0, rows2, log + more, done + {key})
    {
      AttemptsAreOwn(key, rule, env, now, rows0);
      hide NextRow;
      hide Attempts;
      hide ObsOf;
      forall k ensures Trace(log + more, k) == Trace(log, k) + if k == key then more else [] {
        if more == [] {
          assert log + more == log;
        } else {
          assert log + more == log + [more[0]];
          TraceSnoc(log, more[0], k);
        }
      }
    }

    lemma {:induction false} AttemptsAreOwn(key: Key, rule: Rule, env: RuleEnv, now: Clock, rows0: Rows)
      ensures var more := Attempts(key, rule.severity, RowOf(rows0, key), ObsOf(fingerprint, rule, env, key), now, repeatTime);
              |more| <= 1 && (more != [] ==> more == [more[0]] && more[0].key == key)
    {
      hide FiringNow;
    }

    lemma {:induction false} ProgressEnds(rule: Rule, env: RuleEnv, now: Clock, rows0: Rows, rows': Rows,
                                          log: seq<Notification>, done: set<Key>)
      requires env.query.Some? && !env.listFails && Progress(rule, env, now, rows0, rows', log, done)
      requires forall fp :: fp in FiringNow(fingerprint, rule, env.query.value) ==> Key(rule.name, fp) in done
      requires forall k :: k in rows0 && k.rule == rule.name ==> k in done
      ensures RuleEvaluated(fingerprint, rule, env, now, repeatTime, rows0, rows', log)
    {
      hide FiringNow;
      forall k: Key | k !in done
        ensures NextRow(RowOf(rows0, k), ObsOf(fingerprint, rule, env, k), now, repeatTime) == RowOf(rows0, k)
        ensures Attempts(k, rule.severity, RowOf(rows0, k), ObsOf(fingerprint, rule, env, k), now, repeatTime) == []
      {
        assert k.rule == rule.name ==> k == Key(rule.name, k.fp);
      }
    }
  }
}
