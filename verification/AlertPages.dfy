/** What the alert evaluator's pages say (internal/alerts/evaluator.go:66-138): whom a rule, or a tick of
    all rules, notifies about what, in terms of the samples seen and the rows stored before. */
module AlertPages {
  import opened Text
  import opened Alerts
  import opened AlertTraces

  // ------------------------------------------------------------ what is seen

  /** Sample `i` has the fingerprint, and no later one has. */
  ghost predicate LastWith(fp: Fingerprinter, rule: Rule, samples: seq<Sample>, f: string, i: nat) {
    && i < |samples| && fp(rule.listed, samples[i].labels) == f
    && forall j :: i < j < |samples| ==> fp(rule.listed, samples[j].labels) != f
  }

  /** The query answers with a sample of the fingerprint. */
  ghost predicate Seen(fp: Fingerprinter, rule: Rule, env: RuleEnv, f: string) {
    env.query.Some? && exists s :: s in env.query.value && fp(rule.listed, s.labels) == f
  }

  /** The rule can be evaluated at all. */
  predicate Evaluable(env: RuleEnv) {
    env.query.Some? && !env.listFails
  }

  /** A row of a firing series, paged less than the repeat time ago. */
  predicate Cooling(rows: Rows, key: Key, now: int, repeatTime: int) {
    key in rows && rows[key].status == Firing && now - rows[key].lastNotified < repeatTime
  }

  /** A page that tells the truth about its series: of the rule's severity and the tick's time; a Fire
      with the labels and value of the last sample of the fingerprint, a Resolve with those of the firing
      row stored before. */
  ghost predicate TruePage(fp: Fingerprinter, rule: Rule, env: RuleEnv, now: Clock, repeatTime: int, rows: Rows, n: Notification) {
    && Evaluable(env) && n.key.rule == rule.name && n.severity == rule.severity && n.time == now
    && if n.resolved then
         && !Seen(fp, rule, env, n.key.fp) && n.key in rows && rows[n.key].status == Firing
         && n.labels == rows[n.key].labels && n.value == rows[n.key].value
       else
         && n.key.fp !in env.upsertFails && !Cooling(rows, n.key, now, repeatTime)
         && exists i: nat :: LastWith(fp, rule, env.query.value, n.key.fp, i)
                             && n.labels == env.query.value[i].labels && n.value == env.query.value[i].value
  }

  /** How many pages a series is due. */
  ghost function PagesDue(fp: Fingerprinter, rule: Rule, env: RuleEnv, now: Clock, repeatTime: int, rows: Rows, f: string): nat {
    var key := Key(rule.name, f);
    if !Evaluable(env) then 0
    else if Seen(fp, rule, env, f) then
      if f in env.upsertFails || Cooling(rows, key, now, repeatTime) then 0 else 1
    else if key in rows && rows[key].status == Firing then 1
    else 0
  }

  /** What becomes of a series' row. */
  ghost predicate TrueRow(fp: Fingerprinter, rule: Rule, env: RuleEnv, now: Clock, repeatTime: int, rows: Rows, rows': Rows, f: string) {
    var key := Key(rule.name, f);
    if !Evaluable(env) then RowOf(rows', key) == RowOf(rows, key)
    else if Seen(fp, rule, env, f) && f !in env.upsertFails then
      && key in rows' && rows'[key].status == Firing
      && rows'[key].lastNotified == (if Cooling(rows, key, now, repeatTime) then rows[key].lastNotified else now)
      && exists i: nat :: LastWith(fp, rule, env.query.value, f, i)
                          && rows'[key].labels == env.query.value[i].labels && rows'[key].value == env.query.value[i].value
    else if !Seen(fp, rule, env, f) && f !in env.deleteFails then key !in rows'
    else RowOf(rows', key) == RowOf(rows, key)
  }

  // ----------------------------------------------------------------- one series

  lemma {:induction false} LastSample(fp: Fingerprinter, rule: Rule, samples: seq<Sample>, f: string) returns (i: nat)
    requires exists s :: s in samples && fp(rule.listed, s.labels) == f
    ensures LastWith(fp, rule, samples, f, i)
  {
    var n := |samples| - 1;
    if fp(rule.listed, samples[n].labels) == f {
      i := n;
    } else {
      assert samples == samples[..n] + [samples[n]];
      i := LastSample(fp, rule, samples[..n], f);
    }
  }

  /** What the rule's observation of a series is, in those terms. */
  lemma {:induction false} ObsIs(fp: Fingerprinter, rule: Rule, env: RuleEnv, f: string) returns (i: nat)
    requires Evaluable(env)
    ensures var obs := ObsOf(fp, rule, env, Key(rule.name, f));
            if Seen(fp, rule, env, f)
            then LastWith(fp, rule, env.query.value, f, i) && obs == Present(env.query.value[i], f !in env.upsertFails)
            else obs == Absent(f !in env.deleteFails)
  {
    i := 0;
    FiringHas(fp, rule, env.query.value, f);
    if Seen(fp, rule, env, f) {
      i := LastSample(fp, rule, env.query.value, f);
      LastSampleWins(fp, rule, env.query.value, i);
    }
    hide FiringNow;
  }

  /** One series of an evaluated rule: its row and its pages. */
  lemma {:induction false} SeriesIsTrue(fp: Fingerprinter, rule: Rule, env: RuleEnv, now: Clock, repeatTime: int,
                                        rows: Rows, rows': Rows, trace: seq<Notification>, f: string)
    requires var key, obs := Key(rule.name, f), ObsOf(fp, rule, env, Key(rule.name, f));
             && RowOf(rows', key) == NextRow(RowOf(rows, key), obs, now, repeatTime)
             && trace == Attempts(key, rule.severity, RowOf(rows, key), obs, now, repeatTime)
    ensures TrueRow(fp, rule, env, now, repeatTime, rows, rows', f)
    ensures |trace| == PagesDue(fp, rule, env, now, repeatTime, rows, f)
    ensures forall n :: n in trace ==> TruePage(fp, rule, env, now, repeatTime, rows, n)
  {
    hide FiringNow;
    hide Seen;
    hide LastWith;
    if Evaluable(env) {
      var i := ObsIs(fp, rule, env, f);
      hide ObsOf;
    }
  }

  lemma {:induction false} InTrace(log: seq<Notification>, n: Notification)
    requires n in log
    ensures n in Trace(log, n.key)
  {
    var init, last := log[..|log| - 1], log[|log| - 1];
    assert log == init + [last];
    if n != last {
      InTrace(init, n);
    }
  }

  lemma {:induction false} TraceIsOwn(log: seq<Notification>, key: Key)
    ensures forall n :: n in Trace(log, key) ==> n.key == key
  {
    if log != [] {
      TraceIsOwn(log[..|log| - 1], key);
    }
  }

  // ----------------------------------------------------------------- one rule

  /** Evaluating a rule pages just the series that are due, each once, and every page is true. */
  lemma {:induction false} RulePages(fp: Fingerprinter, rule: Rule, env: RuleEnv, now: Clock, repeatTime: int,
                                     rows: Rows, rows': Rows, log: seq<Notification>)
    requires RuleEvaluated(fp, rule, env, now, repeatTime, rows, rows', log)
    ensures forall n :: n in log ==> TruePage(fp, rule, env, now, repeatTime, rows, n)
    ensures forall f: string :: |Trace(log, Key(rule.name, f))| == PagesDue(fp, rule, env, now, repeatTime, rows, f)
    ensures forall f: string :: TrueRow(fp, rule, env, now, repeatTime, rows, rows', f)
    ensures forall key: Key :: key.rule != rule.name ==> RowOf(rows', key) == RowOf(rows, key)
  {
    hide NextRow;
    hide Attempts;
    hide FiringNow;
    hide TrueRow;
    hide TruePage;
    hide PagesDue;
    forall f: string
      ensures TrueRow(fp, rule, env, now, repeatTime, rows, rows', f)
      ensures |Trace(log, Key(rule.name, f))| == PagesDue(fp, rule, env, now, repeatTime, rows, f)
    {
      SeriesIsTrue(fp, rule, env, now, repeatTime, rows, rows', Trace(log, Key(rule.name, f)), f);
    }
    forall n | n in log ensures TruePage(fp, rule, env, now, repeatTime, rows, n) {
      InTrace(log, n);
      OtherRules(fp, rule, env, now, repeatTime, RowOf(rows, n.key), n.key);
      assert n.key == Key(rule.name, n.key.fp);
      SeriesIsTrue(fp, rule, env, now, repeatTime, rows, rows', Trace(log, n.key), n.key.fp);
    }
    forall key: Key | key.rule != rule.name ensures RowOf(rows', key) == RowOf(rows, key) {
      OtherRules(fp, rule, env, now, repeatTime, RowOf(rows, key), key);
    }
  }

  lemma {:induction false} OtherRules(fp: Fingerprinter, rule: Rule, env: RuleEnv, now: Clock, repeatTime: int,
                                      row: Option<Row>, key: Key)
    ensures key.rule != rule.name ==>
              && NextRow(row, ObsOf(fp, rule, env, key), now, repeatTime) == row
              && Attempts(key, rule.severity, row, ObsOf(fp, rule, env, key), now, repeatTime) == []
  {
  }

  // ------------------------------------------------------------ a tick, and a run

  lemma {:induction false} RuleOfName(rules: seq<Rule>, i: nat)
    requires i < |rules| && DistinctNames(rules)
    ensures RuleAt(rules, rules[i].name) == i
  {
    var n := |rules| - 1;
    if i < n {
      assert rules[n].name != rules[i].name;
      RuleOfName(rules[..n], i);
    }
  }

  /** The page is true of one of the rules. */
  ghost predicate TrueOfARule(fp: Fingerprinter, rules: seq<Rule>, envs: seq<RuleEnv>, now: Clock, repeatTime: int, rows: Rows,
                              n: Notification)
    requires |rules| == |envs|
  {
    exists i :: 0 <= i < |rules| && TruePage(fp, rules[i], envs[i], now, repeatTime, rows, n)
  }

  /** A tick over rules of distinct names pages just the series that are due, of each rule, each once, and
      every page is true of its own rule. */
  lemma {:induction false} TickPages(fp: Fingerprinter, rules: seq<Rule>, envs: seq<RuleEnv>, now: Clock, repeatTime: int,
                                     rows: Rows, rows': Rows, log: seq<Notification>)
    requires |rules| == |envs| && DistinctNames(rules) && Ticked(fp, rules, envs, now, repeatTime, rows, rows', log)
    ensures forall n :: n in log ==> TrueOfARule(fp, rules, envs, now, repeatTime, rows, n)
    ensures forall i: nat, f: string :: i < |rules| ==>
              && |Trace(log, Key(rules[i].name, f))| == PagesDue(fp, rules[i], envs[i], now, repeatTime, rows, f)
              && TrueRow(fp, rules[i], envs[i], now, repeatTime, rows, rows', f)
  {
    hide NextRow;
    hide Attempts;
    hide ObsOf;
    hide TrueRow;
    hide TruePage;
    hide PagesDue;
    hide DistinctNames;
    forall i: nat, f: string | i < |rules|
      ensures |Trace(log, Key(rules[i].name, f))| == PagesDue(fp, rules[i], envs[i], now, repeatTime, rows, f)
      ensures TrueRow(fp, rules[i], envs[i], now, repeatTime, rows, rows', f)
    {
      RuleOfName(rules, i);
      SeriesIsTrue(fp, rules[i], envs[i], now, repeatTime, rows, rows', Trace(log, Key(rules[i].name, f)), f);
    }
    forall n | n in log ensures TrueOfARule(fp, rules, envs, now, repeatTime, rows, n) {
      InTrace(log, n);
      var i := RuleAt(rules, n.key.rule);
      SkippedSeries(n.key, RowOf(rows, n.key), now, repeatTime, SeverityOf(rules, n.key));
      assert i < |rules| && n.key == Key(rules[i].name, n.key.fp);
      SeriesIsTrue(fp, rules[i], envs[i], now, repeatTime, rows, rows', Trace(log, n.key), n.key.fp);
    }
  }

  lemma {:induction false} SkippedSeries(key: Key, row: Option<Row>, now: Clock, repeatTime: int, severity: string)
    ensures Attempts(key, severity, row, Skipped, now, repeatTime) == []
  {
  }

  /** Every page ever sent in a run, between one of its states and the next, was true when it was sent. */
  lemma {:induction false} RunPages(fp: Fingerprinter, rules: seq<Rule>, repeatTime: int, ticks: seq<Tick>, planes: seq<Plane>,
                                    t: nat, before: Plane, after: Plane)
    requires RunOf(fp, rules, repeatTime, ticks, planes) && DistinctNames(rules) && t < |ticks|
    requires before == planes[t] && after == planes[t + 1]
    ensures before.log <= after.log
    ensures forall k :: |before.log| <= k < |after.log| ==>
              TrueOfARule(fp, rules, ticks[t].envs, ticks[t].now, repeatTime, before.rows, after.log[k])
  {
    hide Ticked;
    hide DistinctNames;
    hide TrueOfARule;
    assert planes[t].log <= planes[t + 1].log;
    var more := after.log[|before.log|..];
    TickPages(fp, rules, ticks[t].envs, ticks[t].now, repeatTime, before.rows, after.rows, more);
    forall k | |before.log| <= k < |after.log|
      ensures TrueOfARule(fp, rules, ticks[t].envs, ticks[t].now, repeatTime, before.rows, after.log[k])
    {
      assert more[k - |before.log|] == after.log[k];
      assert after.log[k] in more;
    }
  }
}
