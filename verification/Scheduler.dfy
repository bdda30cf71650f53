/** The cron scheduler (internal/scheduler/scheduler.go): its semaphore, its keyed registry and its
    shutdown, in every interleaving. The cron library is its contract: entry ids are never reused, only
    a live entry fires, none fires once cron has stopped, and the context that its Stop returns is done
    once its count of started jobs, taken down as each one returns, is back at zero. */
module Scheduling {
  import opened Text

  // -------------------------------------------------------------- the registry

  /** `entries` is the scheduler's key map, `live` cron's entries, `next` cron's next id, `unkeyed` the
      ids that Add (not AddKeyed) registered. */
  datatype Registry = Registry(entries: map<int, nat>, live: set<nat>, next: nat, unkeyed: set<nat>)

  function Unscheduled(r: Registry, key: int): Registry {
    if key in r.entries then r.(live := r.live - {r.entries[key]}) else r
  }

  function Forgotten(r: Registry, key: int): Registry {
    r.(entries := r.entries - {key})
  }

  function Scheduled(r: Registry): Registry {
    r.(live := r.live + {r.next}, next := r.next + 1)
  }

  /** RemoveKeyed. */
  function KeyRemoved(r: Registry, key: int): Registry {
    Forgotten(Unscheduled(r, key), key)
  }

  /** AddKeyed; `good` says whether cron can parse the spec. */
  function KeyAdded(r: Registry, key: int, good: bool): Registry {
    var gone := KeyRemoved(r, key);
    if good then Scheduled(gone).(entries := gone.entries[key := gone.next]) else gone
  }

  function Max(a: int, b: int): int {
    if a < b then b else a
  }

  const SECOND := 1_000_000_000

  class Scheduler {
    var entries: map<int, nat>
    var live: set<nat>
    var next: nat
    ghost var unkeyed: set<nat>
    const capacity: nat
    const timeout: int

    /** New. */
    constructor (maxParallel: int, perJobTimeout: int)
      ensures capacity == Max(1, maxParallel) && timeout == Max(SECOND, perJobTimeout)
      ensures State() == Registry(map[], {}, 1, {})
    {
      var cap, t := maxParallel, perJobTimeout;
      if cap < 1 {
        cap := 1;
      }
      if t < SECOND {
        t := SECOND;
      }
      capacity, timeout := cap, t;
      entries, live, next, unkeyed := map[], {}, 1, {};
    }

    ghost function State(): Registry
      reads this
    {
      Registry(entries, live, next, unkeyed)
    }

    /** cron.AddFunc. */
    method AddFunc(good: bool) returns (id: Option<nat>)
      modifies this`live, this`next
      ensures id == if good then Some(old(next)) else None
      ensures State() == if good then Scheduled(old(State())) else old(State())
    {
      if !good {
        return None;
      }
      live, next, id := live + {next}, next + 1, Some(next);
    }

    method Add(good: bool) returns (ok: bool)
      modifies this
      ensures ok == good
      ensures State() == if good then Scheduled(old(State())).(unkeyed := old(unkeyed) + {old(next)}) else old(State())
    {
      var id := AddFunc(good);
      ok := id.Some?;
      unkeyed := unkeyed + if ok then {id.value} else {};
    }

    method AddKeyed(key: int, good: bool) returns (ok: bool)
      modifies this
      ensures ok == good && State() == KeyAdded(old(State()), key, good)
    {
      if key in entries {
        live := live - {entries[key]};
        entries := entries - {key};
      }
      var id := AddFunc(good);
      if id.None? {
        return false;
      }
      entries := entries[key := id.value];
      ok := true;
    }

    method RemoveKeyed(key: int)
      modifies this
      ensures State() == KeyRemoved(old(State()), key)
    {
      if key in entries {
        live := live - {entries[key]};
        entries := entries - {key};
      }
    }
  }

  // ----------------------------------------------------------- all interleavings

  /** Where one call of runOnce is. Spawned: cron has started it, wg.Add has not run yet. */
  datatype Phase = Spawned | Waiting | Holding | Released | Returned

  datatype Job = Job(entry: nat, phase: Phase)

  /** Where the holder of entriesMu is. */
  datatype Op =
    | Idle
    | Adding(key: int, good: bool)
    | AddUnscheduled(key: int, good: bool)
    | AddCleared(key: int, good: bool)
    | AddStoring(key: int, id: nat)
    | Removing(key: int)
    | RemoveUnscheduled(key: int)

  /** Where the call of Stop is. Drained: wg.Wait has returned. */
  datatype Stage = Up | Cancelled | CronStopped | Drained | StopNil | StopTimedOut

  /** `cronJobs` is cron's own count of the jobs it has started and that have not returned. */
  datatype Sys = Sys(
    reg: Registry, op: Op, capacity: nat, tokens: nat, wg: nat, cronJobs: nat, jobs: seq<Job>, cronOn: bool, stage: Stage)

  function Initial(maxParallel: int): Sys {
    Sys(Registry(map[], {}, 1, {}), Idle, Max(1, maxParallel), 0, 0, 0, [], false, Up)
  }

  datatype Event =
    | BeginAdd(key: int, good: bool)
    | BeginRemove(key: int)
    | OpStep
    | AddPlain(good: bool)
    | Start
    | Fire(id: nat)
    | WgAdd(i: nat)
    | Acquire(i: nat)
    | Bail(i: nat)
    | Finish(i: nat)
    | WgDone(i: nat)
    | Cancel
    | CronStop
    | WgWaited
    | CronDone
    | CtxExpired

  /** One step of the holder of entriesMu. */
  function Locked(r: Registry, op: Op): (Registry, Op) {
    match op
    case Idle => (r, op)
    case Adding(key, good) =>
      (Unscheduled(r, key), if key in r.entries then AddUnscheduled(key, good) else AddCleared(key, good))
    case AddUnscheduled(key, good) => (Forgotten(r, key), AddCleared(key, good))
    case AddCleared(key, good) => if good then (Scheduled(r), AddStoring(key, r.next)) else (r, Idle)
    case AddStoring(key, id) => (r.(entries := r.entries[key := id]), Idle)
    case Removing(key) => (Unscheduled(r, key), if key in r.entries then RemoveUnscheduled(key) else Idle)
    case RemoveUnscheduled(key) => (Forgotten(r, key), Idle)
  }

  predicate IsAt(s: Sys, i: nat, p: Phase) {
    i < |s.jobs| && s.jobs[i].phase == p
  }

  function Moved(s: Sys, i: nat, p: Phase): Sys
    requires i < |s.jobs|
  {
    s.(jobs := s.jobs[i := s.jobs[i].(phase := p)])
  }

  predicate AllReturned(s: Sys) {
    forall j :: j in s.jobs ==> j.phase == Returned
  }

  function Exec(s: Sys, e: Event): Option<Sys> {
    match e
    case BeginAdd(key, good) => if s.op == Idle then Some(s.(op := Adding(key, good))) else None
    case BeginRemove(key) => if s.op == Idle then Some(s.(op := Removing(key))) else None
    case OpStep =>
      if s.op == Idle then None
      else
        var (r, op) := Locked(s.reg, s.op);
        Some(s.(reg := r, op := op))
    case AddPlain(good) =>
      Some(if good then s.(reg := Scheduled(s.reg).(unkeyed := s.reg.unkeyed + {s.reg.next})) else s)
    case Start => if s.stage == Up && !s.cronOn then Some(s.(cronOn := true)) else None
    case Fire(id) => if s.cronOn && id in s.reg.live then Some(s.(jobs := s.jobs + [Job(id, Spawned)], cronJobs := s.cronJobs + 1)) else None
    case Cancel => if s.stage == Up then Some(s.(stage := Cancelled)) else None
    case CronStop => if s.stage == Cancelled then Some(s.(stage := CronStopped, cronOn := false)) else None
    case WgWaited => if s.stage == CronStopped && s.wg == 0 then Some(s.(stage := Drained)) else None
    case CronDone => if s.stage == Drained && s.cronJobs == 0 then Some(s.(stage := StopNil)) else None
    case CtxExpired => if s.stage == CronStopped then Some(s.(stage := StopTimedOut)) else None
    case _ => ExecJob(s, e)
  }

  /** The steps of one runOnce. */
  function ExecJob(s: Sys, e: Event): Option<Sys> {
    match e
    case WgAdd(i) => if IsAt(s, i, Spawned) then Some(Moved(s, i, Waiting).(wg := s.wg + 1)) else None
    case Acquire(i) =>
      if IsAt(s, i, Waiting) && s.tokens < s.capacity then Some(Moved(s, i, Holding).(tokens := s.tokens + 1)) else None
    case Bail(i) => if IsAt(s, i, Waiting) && s.stage != Up then Some(Moved(s, i, Released)) else None
    case Finish(i) =>
      if IsAt(s, i, Holding) && s.tokens > 0 then Some(Moved(s, i, Released).(tokens := s.tokens - 1)) else None
    case WgDone(i) =>
      if IsAt(s, i, Released) && s.wg > 0 && s.cronJobs > 0
      then Some(Moved(s, i, Returned).(wg := s.wg - 1, cronJobs := s.cronJobs - 1))
      else None
    case _ => None
  }

  function ExecAll(s: Sys, events: seq<Event>): Option<Sys>
    decreases |events|
  {
    if events == [] then Some(s)
    else
      match ExecAll(s, events[..|events| - 1])
      case None => None
      case Some(mid) => Exec(mid, events[|events| - 1])
  }

  // ------------------------------------------------------------------ counting

  function Weight(w: Phase -> nat, jobs: seq<Job>): nat {
    if jobs == [] then 0 else Weight(w, jobs[..|jobs| - 1]) + w(jobs[|jobs| - 1].phase)
  }

  const HOLDING: Phase -> nat := p => if p == Holding then 1 else 0
  const TRACKED: Phase -> nat := p => if p == Waiting || p == Holding || p == Released then 1 else 0

  const UNRETURNED: Phase -> nat := p => if p == Returned then 0 else 1

  lemma {:induction false} WeightMore(w: Phase -> nat, jobs: seq<Job>, j: Job)
    ensures Weight(w, jobs + [j]) == Weight(w, jobs) + w(j.phase)
  {
    assert (jobs + [j])[..|jobs|] == jobs;
  }

  lemma {:induction false} WeightMoved(w: Phase -> nat, jobs: seq<Job>, i: nat, j: Job)
    requires i < |jobs|
    ensures Weight(w, jobs[i := j]) == Weight(w, jobs) - w(jobs[i].phase) + w(j.phase)
  {
    var n := |jobs| - 1;
    if i == n {
      assert jobs[i := j][..n] == jobs[..n];
    } else {
      WeightMoved(w, jobs[..n], i, j);
      assert jobs[i := j][..n] == jobs[..n][i := j];
    }
  }

  lemma {:induction false} WeightAtLeast(w: Phase -> nat, jobs: seq<Job>, i: nat)
    requires i < |jobs|
    ensures Weight(w, jobs) >= w(jobs[i].phase)
  {
    if i < |jobs| - 1 {
      WeightAtLeast(w, jobs[..|jobs| - 1], i);
    }
  }

  // ---------------------------------------------------------------- invariants

  predicate Unscheduling(op: Op, key: int) {
    (op.AddUnscheduled? || op.RemoveUnscheduled?) && op.key == key
  }

  ghost predicate Owned(r: Registry, id: nat) {
    exists k :: k in r.entries && r.entries[k] == id
  }

  /** The live keyed entries are the image of the key map, up to the operation under way. */
  ghost predicate RegInv(r: Registry, op: Op) {
    && (forall k1, k2 :: k1 in r.entries && k2 in r.entries && r.entries[k1] == r.entries[k2] ==> k1 == k2)
    && (forall k :: k in r.entries ==> r.entries[k] !in r.unkeyed && r.entries[k] < r.next)
    && (forall k :: k in r.entries ==> (r.entries[k] in r.live <==> !Unscheduling(op, k)))
    && (forall id :: id in r.live ==> id in r.unkeyed || Owned(r, id) || op == AddStoring(StoringKey(op), id))
    && (forall id :: id in r.live || id in r.unkeyed ==> id < r.next)
    && (op.AddCleared? || op.AddStoring? ==> op.key !in r.entries)
    && (op.AddUnscheduled? || op.RemoveUnscheduled? ==> op.key in r.entries)
    && (op.AddStoring? ==> op.id in r.live && op.id !in r.unkeyed && !Owned(r, op.id))
  }

  function StoringKey(op: Op): int {
    if op.AddStoring? then op.key else 0
  }

  ghost predicate JobInv(s: Sys) {
    && s.tokens == Weight(HOLDING, s.jobs) <= s.capacity
    && s.wg == Weight(TRACKED, s.jobs)
    && s.cronJobs == Weight(UNRETURNED, s.jobs)
  }

  ghost predicate StopInv(s: Sys) {
    && (s.stage != Up && s.stage != Cancelled ==> !s.cronOn)
    && (s.stage == StopNil ==> AllReturned(s))
  }

  ghost predicate Inv(s: Sys) {
    RegInv(s.reg, s.op) && JobInv(s) && StopInv(s)
  }

  lemma {:induction false} LockedKeepsReg(r: Registry, op: Op)
    requires RegInv(r, op)
    ensures RegInv(Locked(r, op).0, Locked(r, op).1)
  {
    var (r', op') := Locked(r, op);
    match op
    case Idle =>
    case Adding(key, good) => UnscheduledKeeps(r, op, op', key);
    case Removing(key) => UnscheduledKeeps(r, op, op', key);
    case AddUnscheduled(key, good) => ForgottenKeeps(r, op, op', key);
    case RemoveUnscheduled(key) => ForgottenKeeps(r, op, op', key);
    case AddCleared(key, good) =>
    case AddStoring(key, id) => StoringKeeps(r, op);
  }

  lemma {:induction false} UnscheduledKeeps(r: Registry, op: Op, op': Op, key: int)
    requires RegInv(r, op) && (op.Adding? || op.Removing?) && op.key == key && Locked(r, op) == (Unscheduled(r, key), op')
    ensures RegInv(Unscheduled(r, key), op')
  {
  }

  lemma {:induction false} ForgottenKeeps(r: Registry, op: Op, op': Op, key: int)
    requires RegInv(r, op) && Unscheduling(op, key) && Locked(r, op) == (Forgotten(r, key), op')
    ensures RegInv(Forgotten(r, key), op')
  {
    var r' := Forgotten(r, key);
    forall id | id in r'.live ensures id in r'.unkeyed || Owned(r', id) {
      if id !in r.unkeyed {
        assert id in r.live && Owned(r, id);
        var k :| k in r.entries && r.entries[k] == id;
        assert k in r'.entries && r'.entries[k] == id;
      }
    }
  }

  lemma {:induction false} StoringKeeps(r: Registry, op: Op)
    requires RegInv(r, op) && op.AddStoring?
    ensures RegInv(r.(entries := r.entries[op.key := op.id]), Idle)
  {
    var r' := r.(entries := r.entries[op.key := op.id]);
    assert r'.entries[op.key] == op.id;
    forall id | id in r'.live ensures id in r'.unkeyed || Owned(r', id) {
      if id !in r.unkeyed && id != op.id {
        assert id in r.live && Owned(r, id);
        var k :| k in r.entries && r.entries[k] == id;
        assert k in r'.entries && r'.entries[k] == id;
      }
    }
  }

  lemma {:induction false} JobStepKeepsInv(s: Sys, e: Event, s': Sys)
    requires Inv(s) && ExecJob(s, e) == Some(s')
    ensures Inv(s')
  {
    hide RegInv;
    var j := s'.jobs[e.i];
    WeightMoved(HOLDING, s.jobs, e.i, j);
    WeightMoved(TRACKED, s.jobs, e.i, j);
    WeightMoved(UNRETURNED, s.jobs, e.i, j);
  }

  lemma {:induction false} RegistryStepKeepsInv(s: Sys, e: Event, s': Sys)
    requires Inv(s) && Exec(s, e) == Some(s') && (e.BeginAdd? || e.BeginRemove? || e.OpStep? || e.AddPlain?)
    ensures Inv(s') && s'.capacity == s.capacity
  {
    hide RegInv;
    hide Locked;
    hide Weight;
    match e
    case OpStep => LockedKeepsReg(s.reg, s.op);
    case AddPlain(good) => PlainKeeps(s.reg, s.op);
    case BeginAdd(key, good) => OpBegins(s.reg, Adding(key, good));
    case BeginRemove(key) => OpBegins(s.reg, Removing(key));
  }

  lemma {:induction false} StopStepKeepsInv(s: Sys, e: Event, s': Sys)
    requires Inv(s) && Exec(s, e) == Some(s')
    requires e.Start? || e.Cancel? || e.CronStop? || e.WgWaited? || e.CronDone? || e.CtxExpired?
    ensures Inv(s') && s'.capacity == s.capacity
  {
    hide RegInv;
    hide Locked;
    hide Weight;
    if s.cronJobs == 0 {
      NoneLeftMeansReturned(s.jobs);
    }
  }

  lemma {:induction false} NoneLeftMeansReturned(jobs: seq<Job>)
    ensures Weight(UNRETURNED, jobs) == 0 <==> forall j :: j in jobs ==> j.phase == Returned
  {
    if jobs != [] {
      var n := |jobs| - 1;
      NoneLeftMeansReturned(jobs[..n]);
      assert jobs == jobs[..n] + [jobs[n]];
    }
  }

  lemma {:induction false} FireKeepsInv(s: Sys, id: nat, s': Sys)
    requires Inv(s) && Exec(s, Fire(id)) == Some(s')
    ensures Inv(s') && s'.capacity == s.capacity
  {
    hide RegInv;
    hide Weight;
    WeightMore(HOLDING, s.jobs, Job(id, Spawned));
    WeightMore(TRACKED, s.jobs, Job(id, Spawned));
    WeightMore(UNRETURNED, s.jobs, Job(id, Spawned));
  }

  lemma {:induction false} StepKeepsInv(s: Sys, e: Event, s': Sys)
    requires Inv(s) && Exec(s, e) == Some(s')
    ensures Inv(s') && s'.capacity == s.capacity
  {
    hide Inv;
    match e {
      case OpStep => RegistryStepKeepsInv(s, e, s');
      case AddPlain(_) => RegistryStepKeepsInv(s, e, s');
      case BeginAdd(_, _) => RegistryStepKeepsInv(s, e, s');
      case BeginRemove(_) => RegistryStepKeepsInv(s, e, s');
      case Fire(id) => FireKeepsInv(s, id, s');
      case WgAdd(_) => JobStepKeepsInv(s, e, s');
      case Acquire(_) => JobStepKeepsInv(s, e, s');
      case Bail(_) => JobStepKeepsInv(s, e, s');
      case Finish(_) => JobStepKeepsInv(s, e, s');
      case WgDone(_) => JobStepKeepsInv(s, e, s');
      case _ => StopStepKeepsInv(s, e, s');
    }
  }

  lemma {:induction false} OpBegins(r: Registry, op: Op)
    requires RegInv(r, Idle) && (op.Adding? || op.Removing?)
    ensures RegInv(r, op)
  {
  }

  lemma {:induction false} PlainKeeps(r: Registry, op: Op)
    requires RegInv(r, op)
    ensures RegInv(Scheduled(r).(unkeyed := r.unkeyed + {r.next}), op)
  {
  }

  lemma {:induction false} RunKeepsInv(s: Sys, events: seq<Event>, s': Sys)
    requires Inv(s) && ExecAll(s, events) == Some(s')
    ensures Inv(s') && s'.capacity == s.capacity
    decreases |events|
  {
    hide Inv;
    hide Exec;
    if events != [] {
      var mid := ExecAll(s, events[..|events| - 1]).value;
      RunKeepsInv(s, events[..|events| - 1], mid);
      StepKeepsInv(mid, events[|events| - 1], s');
    }
  }

  lemma {:induction false} InitialInv(maxParallel: int)
    ensures Inv(Initial(maxParallel))
  {
  }

  // --------------------------------------------------------------- main results

  function Holders(s: Sys): set<nat> {
    set i: nat | i < |s.jobs| && s.jobs[i].phase == Holding
  }

  lemma {:induction false} HoldersAreCounted(jobs: seq<Job>)
    ensures Weight(HOLDING, jobs) == |set i: nat | i < |jobs| && jobs[i].phase == Holding|
  {
    var all := set i: nat | i < |jobs| && jobs[i].phase == Holding;
    if jobs == [] {
      assert all == {};
    } else {
      var n := |jobs| - 1;
      var init := jobs[..n];
      HoldersAreCounted(init);
      var before := set i: nat | i < |init| && init[i].phase == Holding;
      assert all == before + if jobs[n].phase == Holding then {n} else {};
    }
  }

  /** In every interleaving the tokens taken are the jobs between acquire and release, and those are
      never more than max(1, maxParallel). */
  lemma {:induction false} JobsHoldTheTokens(maxParallel: int, events: seq<Event>, s: Sys)
    requires ExecAll(Initial(maxParallel), events) == Some(s)
    ensures |Holders(s)| == s.tokens <= Max(1, maxParallel)
  {
    InitialInv(maxParallel);
    RunKeepsInv(Initial(maxParallel), events, s);
    HoldersAreCounted(s.jobs);
  }

  /** Giving a token back never blocks, and the wait group never goes below zero. */
  lemma {:induction false} ReleaseNeverBlocks(maxParallel: int, events: seq<Event>, s: Sys, i: nat)
    requires ExecAll(Initial(maxParallel), events) == Some(s) && i < |s.jobs|
    ensures s.jobs[i].phase == Holding ==> Exec(s, Finish(i)).Some?
    ensures s.jobs[i].phase == Released ==> Exec(s, WgDone(i)).Some?
  {
    InitialInv(maxParallel);
    RunKeepsInv(Initial(maxParallel), events, s);
    WeightAtLeast(HOLDING, s.jobs, i);
    WeightAtLeast(TRACKED, s.jobs, i);
    WeightAtLeast(UNRETURNED, s.jobs, i);
  }

  /** Whenever no one is inside AddKeyed or RemoveKeyed, the live keyed cron entries are exactly the
      image of the key map, and no two keys share one. */
  lemma {:induction false} KeyedEntriesAreTheImage(maxParallel: int, events: seq<Event>, s: Sys)
    requires ExecAll(Initial(maxParallel), events) == Some(s) && s.op == Idle
    ensures forall id :: id in s.reg.live - s.reg.unkeyed <==> Owned(s.reg, id)
    ensures forall k1, k2 :: k1 in s.reg.entries && k2 in s.reg.entries && k1 != k2 ==> s.reg.entries[k1] != s.reg.entries[k2]
  {
    InitialInv(maxParallel);
    RunKeepsInv(Initial(maxParallel), events, s);
  }

  lemma {:induction false} IdsAreNotReused(s: Sys, e: Event, s': Sys, id: nat)
    requires Exec(s, e) == Some(s') && id < s.reg.next && id !in s.reg.live
    ensures e != Fire(id) && id < s'.reg.next && id !in s'.reg.live
  {
    match e
    case OpStep =>
      assert s'.reg == Locked(s.reg, s.op).0;
    case AddPlain(good) =>
    case Fire(other) =>
    case _ =>
      hide Locked;
      assert s'.reg == s.reg;
  }

  /** A cron entry that has been removed never fires again, whatever is added or replaced later. */
  lemma {:induction false} RemovedEntryNeverFires(s: Sys, events: seq<Event>, s': Sys, id: nat)
    requires ExecAll(s, events) == Some(s') && id < s.reg.next && id !in s.reg.live
    ensures Fire(id) !in events && id < s'.reg.next && id !in s'.reg.live
    decreases |events|
  {
    hide Exec;
    if events != [] {
      var n := |events| - 1;
      var mid := ExecAll(s, events[..n]).value;
      RemovedEntryNeverFires(s, events[..n], mid, id);
      IdsAreNotReused(mid, events[n], s', id);
      assert events == events[..n] + [events[n]];
    }
  }

  /** AddKeyed with a spec cron cannot parse leaves the registry as it was if and only if the key was
      new: an existing job is removed before its replacement is found to be bad. */
  lemma {:induction false} BadSpecKeepsIffKeyIsNew(r: Registry, key: int)
    requires RegInv(r, Idle)
    ensures KeyAdded(r, key, false) == r <==> key !in r.entries
    ensures key in r.entries ==>
              KeyAdded(r, key, false).live == r.live - {r.entries[key]} && key !in KeyAdded(r, key, false).entries
  {
    if key in r.entries {
      assert key !in KeyAdded(r, key, false).entries;
    } else {
      assert r.entries - {key} == r.entries;
    }
  }

  /** The steps taken under entriesMu add up to the methods. */
  function LockedTimes(r: Registry, op: Op, n: nat): (Registry, Op)
    decreases n
  {
    if n == 0 then (r, op)
    else
      var (r', op') := Locked(r, op);
      LockedTimes(r', op', n - 1)
  }

  lemma {:induction false} StepsAddUp(r: Registry, key: int, good: bool)
    ensures LockedTimes(r, Adding(key, good), 4) == (KeyAdded(r, key, good), Idle)
    ensures LockedTimes(r, Removing(key), 2) == (KeyRemoved(r, key), Idle)
  {
    var u := Unscheduled(r, key);
    var gone := Forgotten(u, key);
    assert key !in r.entries ==> r.entries - {key} == r.entries;
    FromCleared(gone, key, good);
    if key in r.entries {
      assert Locked(r, Adding(key, good)) == (u, AddUnscheduled(key, good));
      assert Locked(u, AddUnscheduled(key, good)) == (gone, AddCleared(key, good));
      assert LockedTimes(u, AddUnscheduled(key, good), 3) == LockedTimes(gone, AddCleared(key, good), 2);
      assert Locked(r, Removing(key)) == (u, RemoveUnscheduled(key));
      assert LockedTimes(u, RemoveUnscheduled(key), 1) == LockedTimes(gone, Idle, 0);
    } else {
      assert gone == r;
      assert Locked(r, Adding(key, good)) == (gone, AddCleared(key, good));
      assert Locked(r, Removing(key)) == (gone, Idle);
      assert LockedTimes(gone, Idle, 1) == LockedTimes(gone, Idle, 0);
    }
  }

  lemma {:induction false} FromCleared(r: Registry, key: int, good: bool)
    ensures var done := if good then Scheduled(r).(entries := r.entries[key := r.next]) else r;
            LockedTimes(r, AddCleared(key, good), 2) == (done, Idle) == LockedTimes(r, AddCleared(key, good), 3)
  {
    var done := if good then Scheduled(r).(entries := r.entries[key := r.next]) else r;
    assert LockedTimes(done, Idle, 0) == LockedTimes(done, Idle, 1) == LockedTimes(done, Idle, 2) == (done, Idle);
    if good {
      assert Locked(r, AddCleared(key, good)) == (Scheduled(r), AddStoring(key, r.next));
      assert LockedTimes(Scheduled(r), AddStoring(key, r.next), 1) == LockedTimes(done, Idle, 0);
      assert LockedTimes(Scheduled(r), AddStoring(key, r.next), 2) == LockedTimes(done, Idle, 1);
    }
  }

  /** Stop returning nil means that no job is running, and that none ever will again: cron's count and
      the jobs agree in every interleaving. */
  lemma {:induction false} StopNilMeansQuiet(maxParallel: int, events: seq<Event>, s: Sys, more: seq<Event>, s': Sys)
    requires ExecAll(Initial(maxParallel), events) == Some(s) && s.stage == StopNil
    requires ExecAll(s, more) == Some(s')
    ensures AllReturned(s') && s'.jobs == s.jobs && s'.stage == StopNil && s'.tokens == 0
    decreases |more|
  {
    InitialInv(maxParallel);
    RunKeepsInv(Initial(maxParallel), events, s);
    RunKeepsInv(s, more, s');
    NothingMoves(s, more, s');
    NothingHeld(s'.jobs);
  }

  lemma {:induction false} NothingHeld(jobs: seq<Job>)
    requires forall j :: j in jobs ==> j.phase == Returned
    ensures Weight(HOLDING, jobs) == 0
  {
    if jobs != [] {
      assert jobs[|jobs| - 1] in jobs;
      NothingHeld(jobs[..|jobs| - 1]);
    }
  }

  lemma {:induction false} QuietStep(s: Sys, e: Event, s': Sys)
    requires AllReturned(s) && s.stage == StopNil && !s.cronOn && Exec(s, e) == Some(s')
    ensures s'.jobs == s.jobs && s'.stage == StopNil && !s'.cronOn
  {
    hide Locked;
    assert forall i: nat :: i < |s.jobs| ==> s.jobs[i].phase == Returned;
  }

  lemma {:induction false} NothingMoves(s: Sys, more: seq<Event>, s': Sys)
    requires AllReturned(s) && s.stage == StopNil && !s.cronOn && ExecAll(s, more) == Some(s')
    ensures s'.jobs == s.jobs && s'.stage == StopNil && !s'.cronOn
    decreases |more|
  {
    hide Exec;
    if more != [] {
      var n := |more| - 1;
      var mid := ExecAll(s, more[..n]).value;
      NothingMoves(s, more[..n], mid);
      QuietStep(mid, more[n], s');
    }
  }

  const WORK: Phase -> nat := p =>
    if p == Spawned then 3 else if p == Waiting then 2 else if p == Holding then 2 else if p == Released then 1 else 0

  lemma {:induction false} ExecCons(s: Sys, e: Event, mid: Sys, more: seq<Event>)
    requires Exec(s, e) == Some(mid)
    ensures ExecAll(s, [e] + more) == ExecAll(mid, more)
  {
    hide Exec;
    assert [e][..0] == [];
    assert ExecAll(s, [e]) == Some(mid);
    ExecConcat(s, [e], mid, more);
  }

  /** The step that takes a job towards its return, once the parent context is cancelled. */
  function NextStep(p: Phase, i: nat): Event {
    match p
    case Spawned => WgAdd(i)
    case Waiting => Bail(i)
    case Holding => Finish(i)
    case _ => WgDone(i)
  }

  lemma {:induction false} JobStepIsEnabled(s: Sys, i: nat)
    requires Inv(s) && s.stage != Up && i < |s.jobs| && s.jobs[i].phase != Returned
    ensures var e := NextStep(s.jobs[i].phase, i);
            && ExecJob(s, e).Some? && Exec(s, e) == ExecJob(s, e) && e.i == i
  {
    hide RegInv;
    hide Locked;
    WeightAtLeast(HOLDING, s.jobs, i);
    WeightAtLeast(TRACKED, s.jobs, i);
    WeightAtLeast(UNRETURNED, s.jobs, i);
    hide Weight;
  }

  lemma {:induction false} JobStepLowersWork(s: Sys, i: nat, s': Sys)
    requires s.stage != Up && i < |s.jobs| && s.jobs[i].phase != Returned
    requires ExecJob(s, NextStep(s.jobs[i].phase, i)) == Some(s')
    ensures Weight(WORK, s'.jobs) < Weight(WORK, s.jobs) && s'.stage == s.stage
  {
    hide Weight;
    WeightMoved(WORK, s.jobs, i, s'.jobs[i]);
  }

  lemma {:induction false} JobCanMove(s: Sys, i: nat) returns (s': Sys)
    requires Inv(s) && s.stage != Up && i < |s.jobs| && s.jobs[i].phase != Returned
    ensures Exec(s, NextStep(s.jobs[i].phase, i)) == Some(s') && s'.stage == s.stage
    ensures Inv(s') && Weight(WORK, s'.jobs) < Weight(WORK, s.jobs)
  {
    JobStepIsEnabled(s, i);
    var e := NextStep(s.jobs[i].phase, i);
    s' := ExecJob(s, e).value;
    JobStepLowersWork(s, i, s');
    hide Inv;
    hide Weight;
    JobStepKeepsInv(s, e, s');
  }

  lemma {:induction false} JobsCanReturn(s: Sys) returns (events: seq<Event>, s': Sys)
    requires Inv(s) && s.stage != Up
    ensures ExecAll(s, events) == Some(s') && AllReturned(s') && s'.stage == s.stage && Inv(s')
    decreases Weight(WORK, s.jobs)
  {
    hide Inv;
    hide Exec;
    if AllReturned(s) {
      events, s' := [], s;
    } else {
      var i: nat :| i < |s.jobs| && s.jobs[i].phase != Returned;
      var e := NextStep(s.jobs[i].phase, i);
      var mid := JobCanMove(s, i);
      var more;
      more, s' := JobsCanReturn(mid);
      ExecCons(s, e, mid, more);
      events := [e] + more;
    }
  }

  lemma {:induction false} NothingTracked(jobs: seq<Job>)
    requires forall j :: j in jobs ==> j.phase == Returned
    ensures Weight(TRACKED, jobs) == 0
  {
    if jobs != [] {
      assert jobs[|jobs| - 1] in jobs;
      NothingTracked(jobs[..|jobs| - 1]);
    }
  }

  /** Shutdown cannot get stuck: from every state reached while Stop waits, the jobs there are can all
      run to their end, and Stop can then return nil. (A job that is running is taken to return.) */
  lemma {:induction false} StopCanFinish(maxParallel: int, events: seq<Event>, s: Sys)
    requires ExecAll(Initial(maxParallel), events) == Some(s) && (s.stage == CronStopped || s.stage == Drained)
    ensures exists more :: ExecAll(s, more).Some? && ExecAll(s, more).value.stage == StopNil
  {
    hide Exec;
    hide Inv;
    hide AllReturned;
    InitialInv(maxParallel);
    RunKeepsInv(Initial(maxParallel), events, s);
    var more, quiet := JobsCanReturn(s);
    var ends, last := QuietCanStop(quiet);
    ExecConcat(s, more, quiet, ends);
  }

  lemma {:induction false} QuietCanStop(s: Sys) returns (events: seq<Event>, s': Sys)
    requires Inv(s) && AllReturned(s) && (s.stage == CronStopped || s.stage == Drained)
    ensures ExecAll(s, events) == Some(s') && s'.stage == StopNil
  {
    hide RegInv;
    NothingTracked(s.jobs);
    NoneLeftMeansReturned(s.jobs);
    s' := s.(stage := StopNil);
    if s.stage == CronStopped {
      var drained := s.(stage := Drained);
      assert Exec(s, WgWaited) == Some(drained) && Exec(drained, CronDone) == Some(s');
      hide Exec;
      events := [WgWaited, CronDone];
      assert events[..0] == [];
      Prefix(events, 0, s, s, drained);
      Prefix(events, 1, s, drained, s');
      assert events[..2] == events;
    } else {
      assert Exec(s, CronDone) == Some(s');
      hide Exec;
      events := [CronDone];
      assert events[..0] == [] && events[..1] == events;
      Prefix(events, 0, s, s, s');
    }
  }

  lemma {:induction false} ExecConcat(s: Sys, a: seq<Event>, mid: Sys, b: seq<Event>)
    requires ExecAll(s, a) == Some(mid)
    ensures ExecAll(s, a + b) == ExecAll(mid, b)
    decreases |b|
  {
    hide Exec;
    if b == [] {
      assert a + b == a;
    } else {
      ExecConcat(s, a, mid, b[..|b| - 1]);
      assert (a + b)[..|a + b| - 1] == a + b[..|b| - 1];
    }
  }

  /** Waiting for the wait group is not enough: when wg.Wait returns, every job has returned if and only
      if none is between cron's start of it and its wg.Add. Stop therefore waits for cron's own context
      too. */
  lemma {:induction false} WaitGroupSuffices(maxParallel: int, events: seq<Event>, s: Sys, s': Sys)
    requires ExecAll(Initial(maxParallel), events) == Some(s) && Exec(s, WgWaited) == Some(s')
    ensures AllReturned(s') <==> forall j :: j in s'.jobs ==> j.phase != Spawned
  {
    InitialInv(maxParallel);
    RunKeepsInv(Initial(maxParallel), events, s);
    forall j | j in s.jobs ensures j.phase == Returned || j.phase == Spawned {
      var i :| 0 <= i < |s.jobs| && s.jobs[i] == j;
      WeightAtLeast(TRACKED, s.jobs, i);
    }
  }

  const LATE_JOB := [BeginAdd(7, true), OpStep, OpStep, OpStep, Start, Fire(1), Cancel, CronStop, WgWaited]

  /** Such a job exists: it is started, Stop drains the wait group, and then the job runs. */
  lemma {:induction false} JobRunsAfterTheWaitGroup()
    ensures var s := ExecAll(Initial(1), LATE_JOB);
            && s.Some? && s.value.stage == Drained
            && ExecAll(s.value, [WgAdd(0), Acquire(0)]).Some?
            && Holders(ExecAll(s.value, [WgAdd(0), Acquire(0)]).value) == {0}
  {
    var s4 := Initial(1).(reg := Registry(map[7 := 1], {1}, 2, {}));
    var s9 := s4.(jobs := [Job(1, Spawned)], cronJobs := 1, stage := Drained);
    KeyIsAdded();
    StopsEarly(s4, s9);
    RunsLate(s9);
  }

  lemma {:induction false} KeyIsAdded()
    ensures ExecAll(Initial(1), LATE_JOB[..4]) == Some(Initial(1).(reg := Registry(map[7 := 1], {1}, 2, {})))
  {
    var s0 := Initial(1);
    var s3 := s0.(reg := Scheduled(s0.reg), op := AddStoring(7, 1));
    var s4 := s0.(reg := Registry(map[7 := 1], {1}, 2, {}));
    assert Exec(s0, LATE_JOB[0]) == Some(s0.(op := Adding(7, true)));
    Prefix(LATE_JOB, 0, s0, s0, s0.(op := Adding(7, true)));
    assert Exec(s0.(op := Adding(7, true)), LATE_JOB[1]) == Some(s0.(op := AddCleared(7, true)));
    Prefix(LATE_JOB, 1, s0, s0.(op := Adding(7, true)), s0.(op := AddCleared(7, true)));
    assert Exec(s0.(op := AddCleared(7, true)), LATE_JOB[2]) == Some(s3);
    Prefix(LATE_JOB, 2, s0, s0.(op := AddCleared(7, true)), s3);
    assert s3.reg.entries[7 := 1] == s4.reg.entries && s3.reg.live == s4.reg.live;
    assert Exec(s3, LATE_JOB[3]) == Some(s4);
    Prefix(LATE_JOB, 3, s0, s3, s4);
  }

  lemma {:induction false} StopsEarly(s4: Sys, s9: Sys)
    requires s4 == Initial(1).(reg := Registry(map[7 := 1], {1}, 2, {}))
    requires s9 == s4.(jobs := [Job(1, Spawned)], cronJobs := 1, stage := Drained)
    requires ExecAll(Initial(1), LATE_JOB[..4]) == Some(s4)
    ensures ExecAll(Initial(1), LATE_JOB) == Some(s9)
  {
    hide ExecAll;
    var s0 := Initial(1);
    var s5 := s4.(cronOn := true);
    var s6 := s5.(jobs := [Job(1, Spawned)], cronJobs := 1);
    var s7 := s6.(stage := Cancelled);
    var s8 := s7.(stage := CronStopped, cronOn := false);
    assert s5.jobs + [Job(1, Spawned)] == s6.jobs;
    Prefix(LATE_JOB, 4, s0, s4, s5);
    Prefix(LATE_JOB, 5, s0, s5, s6);
    Prefix(LATE_JOB, 6, s0, s6, s7);
    Prefix(LATE_JOB, 7, s0, s7, s8);
    Prefix(LATE_JOB, 8, s0, s8, s9);
    assert LATE_JOB[..9] == LATE_JOB;
  }

  lemma {:induction false} RunsLate(s: Sys)
    requires s.jobs == [Job(1, Spawned)] && s.tokens == 0 && s.capacity == 1
    ensures var r := ExecAll(s, [WgAdd(0), Acquire(0)]);
            r.Some? && Holders(r.value) == {0}
  {
    var late := [WgAdd(0), Acquire(0)];
    var mid := Moved(s, 0, Waiting).(wg := s.wg + 1);
    var end := Moved(mid, 0, Holding).(tokens := 1);
    assert late[..0] == [];
    Prefix(late, 0, s, s, mid);
    Prefix(late, 1, s, mid, end);
    assert late[..2] == late;
    assert Holders(end) == {0};
  }

  lemma {:induction false} Prefix(events: seq<Event>, n: nat, s0: Sys, s: Sys, s': Sys)
    requires n < |events| && ExecAll(s0, events[..n]) == Some(s) && Exec(s, events[n]) == Some(s')
    ensures ExecAll(s0, events[..n + 1]) == Some(s')
  {
    hide Exec;
    assert events[..n + 1][..n] == events[..n];
  }

  // ------------------------------------------------------- what the methods leave

  /** In a registry at rest, AddKeyed with a good spec leaves the key one fresh live entry in place of the
      one it had; with a bad one none. The other keys keep theirs. */
  lemma {:induction false} AddedKeyHasOneEntry(r: Registry, key: int, good: bool)
    requires RegInv(r, Idle)
    ensures var after := KeyAdded(r, key, good);
            && (forall k :: k != key ==> (k in after.entries <==> k in r.entries))
            && (forall k :: k != key && k in r.entries ==> after.entries[k] == r.entries[k] && r.entries[k] in after.live)
            && (key in r.entries ==> r.entries[key] !in after.live)
            && (key in after.entries <==> good)
            && (good ==> after.entries[key] in after.live && after.entries[key] !in r.live && after.entries[key] >= r.next)
            && (forall id :: id in after.live && id !in r.live ==> good && id == after.entries[key])
            && (forall id :: id in r.live && id !in after.live ==> key in r.entries && id == r.entries[key])
            && after.unkeyed == r.unkeyed
  {
  }

  /** RemoveKeyed takes away the key with its entry, and nothing else. */
  lemma {:induction false} RemovedKeyIsGone(r: Registry, key: int)
    requires RegInv(r, Idle)
    ensures var after := KeyRemoved(r, key);
            && key !in after.entries && (key in r.entries ==> r.entries[key] !in after.live)
            && (forall k :: k != key ==> (k in after.entries <==> k in r.entries))
            && (forall k :: k != key && k in r.entries ==> after.entries[k] == r.entries[k] && r.entries[k] in after.live)
            && (forall id :: id in after.live ==> id in r.live)
            && (forall id :: id in r.live && id !in after.live ==> key in r.entries && id == r.entries[key])
            && after.unkeyed == r.unkeyed && after.next == r.next
  {
  }
}
