/** The periodic scheduler: one worker sleeps until the earliest task is due, collects what is due
    under its lock and runs it unlocked, while tasks come and go and the clock advances. */
module Schedulers {
  import opened Facts

  /** One task; times and intervals are in the clock's unit. */
  datatype Entry = Entry(interval: int, nextRun: int)

  datatype Worker =
    | Head                                // about to look at the tasks
    | Waiting(soonest: int, version: nat) // asleep, the lock released
    | Awake                               // timed out with the table unchanged, the lock held
    | Running(due: seq<nat>)              // calling what was collected

  /** `added`, `runs` and `calls` are history: when and at what interval a task was added, the times it
      was collected at, and how often it was called. */
  datatype State = State(
    now: int, tasks: map<nat, Entry>, version: nat, nextId: nat, w: Worker,
    added: map<nat, (int, int)>, runs: map<nat, seq<int>>, calls: map<nat, nat>)

  datatype Action =
    | Tick(d: nat)
    | Add(interval: int)
    | Remove(id: nat)
    | Look
    | WakeUp
    | Collect
    | Call

  const START := State(0, map[], 0, 1, Head, map[], map[], map[])

  // ---- One pass ----

  function Due(tasks: map<nat, Entry>, now: int): set<nat> {
    set id | id in tasks && tasks[id].nextRun <= now
  }

  /** The table after a collection at `now`. */
  function Collected(tasks: map<nat, Entry>, now: int): map<nat, Entry> {
    map id | id in tasks :: if tasks[id].nextRun <= now then tasks[id].(nextRun := now + tasks[id].interval) else tasks[id]
  }

  ghost predicate IsSoonest(tasks: map<nat, Entry>, soonest: int) {
    (exists id <- tasks :: tasks[id].nextRun == soonest) && forall id <- tasks :: soonest <= tasks[id].nextRun
  }

  lemma {:induction false} SoonestExists(tasks: map<nat, Entry>) returns (soonest: int)
    requires tasks != map[]
    ensures IsSoonest(tasks, soonest)
    decreases |tasks|
  {
    var id :| id in tasks;
    var rest := tasks - {id};
    soonest := tasks[id].nextRun;
    if rest != map[] {
      assert |rest.Keys| == |tasks.Keys - {id}|;
      var other := SoonestExists(rest);
      if other < soonest {
        var k :| k in rest && rest[k].nextRun == other;
        assert k in tasks && tasks[k].nextRun == other;
        soonest := other;
      }
      forall k | k in tasks ensures soonest <= tasks[k].nextRun {
        assert k != id ==> k in rest;
      }
    } else {
      forall k | k in tasks ensures k == id {
        assert k != id ==> k in rest;
      }
    }
  }

  ghost function Soonest(tasks: map<nat, Entry>): (soonest: int)
    requires tasks != map[]
    ensures IsSoonest(tasks, soonest)
  {
    assert exists s :: IsSoonest(tasks, s) by {
      var s := SoonestExists(tasks);
    }
    var s :| IsSoonest(tasks, s);
    s
  }

  /** The history with one more collection for each of these. */
  function Recorded(runs: map<nat, seq<int>>, due: set<nat>, now: int): map<nat, seq<int>> {
    map id | id in runs.Keys + due :: (if id in runs then runs[id] else []) + if id in due then [now] else []
  }

  function RunsOf(s: State, id: nat): seq<int> {
    if id in s.runs then s.runs[id] else []
  }

  function CallsOf(s: State, id: nat): nat {
    if id in s.calls then s.calls[id] else 0
  }

  ghost predicate Enabled(s: State, a: Action) {
    match a
    case Tick(_) => true
    case Add(_) => !s.w.Awake?
    case Remove(_) => !s.w.Awake?
    case Look => s.w.Head? && s.tasks != map[]
    case WakeUp => s.w.Waiting? && (s.version != s.w.version || s.now >= s.w.soonest)
    case Collect => s.w.Awake?
    case Call => s.w.Running?
  }

  /** Some order of the collected ids. */
  ghost function InOrder(ids: set<nat>): (order: seq<nat>)
    ensures (forall id :: id in order <==> id in ids) && |order| == |ids|
    ensures forall i, j :: 0 <= i < j < |order| ==> order[i] != order[j]
  {
    if ids == {} then []
    else
      var id :| id in ids;
      var rest := InOrder(ids - {id});
      [id] + rest
  }

  ghost function Step(s: State, a: Action): State
    requires Enabled(s, a)
  {
    match a
    case Tick(d) => s.(now := s.now + d)
    case Add(interval) =>
      s.(tasks := s.tasks[s.nextId := Entry(interval, s.now + interval)], version := s.version + 1,
         nextId := s.nextId + 1, added := s.added[s.nextId := (s.now, interval)])
    case Remove(id) => if id in s.tasks then s.(tasks := s.tasks - {id}, version := s.version + 1) else s
    case Look => s.(w := Waiting(Soonest(s.tasks), s.version))
    case WakeUp => s.(w := if s.version != s.w.version then Head else Awake)
    case Collect =>
      var due := Due(s.tasks, s.now);
      s.(tasks := Collected(s.tasks, s.now), w := Running(InOrder(due)),
         runs := Recorded(s.runs, due, s.now))
    case Call =>
      if s.w.due == [] then s.(w := Head)
      else s.(w := Running(s.w.due[1..]), calls := s.calls[s.w.due[0] := CallsOf(s, s.w.due[0]) + 1])
  }

  // ---- The invariant ----

  /** Collections of one task: the k-th no earlier than k intervals after it was added, each at least an
      interval after the one before. */
  ghost predicate Spaced(runs: seq<int>, added: int, interval: int) {
    && (runs != [] ==> runs[0] >= added + interval)
    && forall k :: 0 <= k < |runs| - 1 ==> runs[k + 1] >= runs[k] + interval
  }

  /** The time a task is due again. */
  function DueAfter(runs: seq<int>, added: int, interval: int): int {
    (if runs == [] then added else runs[|runs| - 1]) + interval
  }

  ghost predicate TaskOk(s: State, id: nat) {
    && id in s.added && HistoryOk(RunsOf(s, id), s.added[id].0, s.added[id].1, s.now)
    && (id in s.tasks ==> EntryOk(s.tasks[id], RunsOf(s, id), s.added[id].0, s.added[id].1))
  }

  ghost predicate HistoryOk(runs: seq<int>, added: int, interval: int, now: int) {
    Spaced(runs, added, interval) && forall k :: 0 <= k < |runs| ==> runs[k] <= now
  }

  predicate EntryOk(e: Entry, runs: seq<int>, added: int, interval: int) {
    e.interval == interval && e.nextRun == DueAfter(runs, added, interval)
  }

  /** As long as the table has not changed, the wake-up time is that of a task in it. */
  ghost predicate WorkerOk(s: State) {
    && (s.w.Waiting? ==> s.w.version <= s.version)
    && (s.w.Waiting? && s.w.version == s.version ==> IsSoonest(s.tasks, s.w.soonest))
    && (s.w.Awake? ==> Due(s.tasks, s.now) != {})
    && (s.w.Running? ==> forall i, j :: 0 <= i < j < |s.w.due| ==> s.w.due[i] != s.w.due[j])
  }

  ghost predicate Ids(s: State) {
    && s.nextId >= 1 && (forall id <- s.added :: id < s.nextId)
    && (forall id <- s.tasks :: id in s.added) && (forall id <- s.runs :: id in s.added)
  }

  /** Every collection has led to a call, but those still to be made. */
  ghost predicate CallsMatch(s: State) {
    forall id :: CallsOf(s, id) + (if s.w.Running? && id in s.w.due then 1 else 0) == |RunsOf(s, id)|
  }

  ghost predicate Inv(s: State) {
    Ids(s) && WorkerOk(s) && CallsMatch(s) && forall id <- s.added :: TaskOk(s, id)
  }

  lemma HistoryMore(e: Entry, runs: seq<int>, added: int, interval: int, now: int)
    requires HistoryOk(runs, added, interval, now) && EntryOk(e, runs, added, interval) && e.nextRun <= now
    ensures HistoryOk(runs + [now], added, interval, now)
    ensures EntryOk(e.(nextRun := now + interval), runs + [now], added, interval)
  {}

  /** What a collection does to one task. */
  lemma CollectIs(s: State, id: nat)
    requires Ids(s) && s.w.Awake?
    ensures var n := Step(s, Collect);
      && n.added == s.added && n.now == s.now && (id in n.tasks <==> id in s.tasks)
      && if id in Due(s.tasks, s.now) then
           RunsOf(n, id) == RunsOf(s, id) + [s.now] && n.tasks[id] == s.tasks[id].(nextRun := s.now + s.tasks[id].interval)
         else RunsOf(n, id) == RunsOf(s, id) && (id in s.tasks ==> n.tasks[id] == s.tasks[id])
  {
    var n := Step(s, Collect);
    var due := Due(s.tasks, s.now);
    RecordedAt(s.runs, due, s.now, id);
    CollectedAt(s.tasks, s.now, id);
    assert n.runs == Recorded(s.runs, due, s.now) && n.tasks == Collected(s.tasks, s.now);
  }

  lemma CollectedAt(tasks: map<nat, Entry>, now: int, id: nat)
    ensures id in Collected(tasks, now) <==> id in tasks
    ensures id in Due(tasks, now) ==> Collected(tasks, now)[id] == tasks[id].(nextRun := now + tasks[id].interval)
    ensures id in tasks && id !in Due(tasks, now) ==> Collected(tasks, now)[id] == tasks[id]
  {}

  lemma RecordedAt(runs: map<nat, seq<int>>, due: set<nat>, now: int, id: nat)
    ensures var after := Recorded(runs, due, now); var before := if id in runs then runs[id] else [];
      (if id in after then after[id] else []) == if id in due then before + [now] else before
  {}

  lemma CollectTask(s: State, id: nat)
    requires Inv(s) && s.w.Awake? && id in s.added
    ensures TaskOk(Step(s, Collect), id)
  {
    assert TaskOk(s, id);
    CollectIs(s, id);
    OneTask(s, Step(s, Collect), id);
  }

  /** A collection leaves one task's history and due time in order. */
  lemma OneTask(s: State, n: State, id: nat)
    requires TaskOk(s, id) && n.added == s.added && n.now == s.now && (id in n.tasks <==> id in s.tasks)
    requires if id in Due(s.tasks, s.now) then
               RunsOf(n, id) == RunsOf(s, id) + [s.now] && n.tasks[id] == s.tasks[id].(nextRun := s.now + s.tasks[id].interval)
             else RunsOf(n, id) == RunsOf(s, id) && (id in s.tasks ==> n.tasks[id] == s.tasks[id])
    ensures TaskOk(n, id)
  {
    if id in Due(s.tasks, s.now) {
      HistoryMore(s.tasks[id], RunsOf(s, id), s.added[id].0, s.added[id].1, s.now);
    }
  }

  lemma StepTask(s: State, a: Action, id: nat)
    requires Inv(s) && Enabled(s, a) && !a.Collect? && id in Step(s, a).added
    ensures TaskOk(Step(s, a), id)
  {
    assert id in s.added ==> TaskOk(s, id);
  }

  lemma StepTasks(s: State, a: Action)
    requires Inv(s) && Enabled(s, a)
    ensures var n := Step(s, a); Ids(n) && forall id <- n.added :: TaskOk(n, id)
  {
    forall id | id in Step(s, a).added
      ensures TaskOk(Step(s, a), id)
    {
      if a.Collect? {
        CollectTask(s, id);
      } else {
        StepTask(s, a, id);
      }
    }
  }

  lemma SoonestIsDue(tasks: map<nat, Entry>, soonest: int, now: int)
    requires IsSoonest(tasks, soonest) && soonest <= now
    ensures Due(tasks, now) != {}
  {
    var id :| id in tasks && tasks[id].nextRun == soonest;
    assert id in Due(tasks, now);
  }

  lemma DueGrows(tasks: map<nat, Entry>, now: int, later: int)
    requires now <= later
    ensures Due(tasks, now) <= Due(tasks, later)
  {}

  lemma StepWorker(s: State, a: Action)
    requires Inv(s) && Enabled(s, a)
    ensures WorkerOk(Step(s, a))
  {
    if a.Tick? {
      DueGrows(s.tasks, s.now, s.now + a.d);
    }
    if a.WakeUp? && s.version == s.w.version {
      SoonestIsDue(s.tasks, s.w.soonest, s.now);
    }
  }

  lemma CollectCalls(s: State, id: nat)
    requires Inv(s) && s.w.Awake?
    ensures var n := Step(s, Collect);
      CallsOf(n, id) + (if id in n.w.due then 1 else 0) == |RunsOf(n, id)|
  {
    CollectIs(s, id);
    assert CallsOf(s, id) == |RunsOf(s, id)|;
  }

  lemma CallCalls(s: State, id: nat)
    requires Inv(s) && s.w.Running? && s.w.due != []
    ensures var n := Step(s, Call); CallsOf(n, id) + (if id in n.w.due then 1 else 0) == |RunsOf(n, id)|
  {
    var first, rest := s.w.due[0], s.w.due[1..];
    assert s.w.due == [first] + rest;
    forall j | 0 <= j < |rest|
      ensures rest[j] != first
    {
      assert s.w.due[0] != s.w.due[j + 1] && rest[j] == s.w.due[j + 1];
    }
    assert WorkerOk(s) && CallsOf(s, id) + (if id in s.w.due then 1 else 0) == |RunsOf(s, id)|;
  }

  lemma StepCalls(s: State, a: Action)
    requires Inv(s) && Enabled(s, a)
    ensures CallsMatch(Step(s, a))
  {
    var n := Step(s, a);
    forall id
      ensures CallsOf(n, id) + (if n.w.Running? && id in n.w.due then 1 else 0) == |RunsOf(n, id)|
    {
      assert CallsOf(s, id) + (if s.w.Running? && id in s.w.due then 1 else 0) == |RunsOf(s, id)|;
      if a.Collect? {
        CollectCalls(s, id);
      } else if a.Call? && s.w.due != [] {
        CallCalls(s, id);
      }
    }
  }

  lemma StepKeeps(s: State, a: Action)
    requires Inv(s) && Enabled(s, a)
    ensures Inv(Step(s, a))
  {
    StepTasks(s, a);
    StepWorker(s, a);
    StepCalls(s, a);
  }

  ghost predicate CanRun(s: State, acts: seq<Action>)
    decreases |acts|
  {
    acts == [] || (Enabled(s, acts[0]) && CanRun(Step(s, acts[0]), acts[1..]))
  }

  ghost function Run(s: State, acts: seq<Action>): State
    requires CanRun(s, acts)
    decreases |acts|
  {
    if acts == [] then s else Run(Step(s, acts[0]), acts[1..])
  }

  lemma {:induction false} RunKeeps(s: State, acts: seq<Action>)
    requires Inv(s) && CanRun(s, acts)
    ensures Inv(Run(s, acts))
    decreases |acts|
  {
    if acts != [] {
      StepKeeps(s, acts[0]);
      RunKeeps(Step(s, acts[0]), acts[1..]);
    }
  }

  /** Every pass that gets as far as collecting finds a task that is due. */
  lemma CollectingFindsWork(acts: seq<Action>)
    requires CanRun(START, acts) && Run(START, acts).w.Awake?
    ensures var s := Run(START, acts); exists id <- s.tasks :: s.tasks[id].nextRun <= s.now
  {
    RunKeeps(START, acts);
    var s := Run(START, acts);
    var id :| id in Due(s.tasks, s.now);
  }

  lemma MulOne(one: int, x: int)
    requires one == 1
    ensures one * x == x
  {}

  lemma {:induction false} KthNotBefore(runs: seq<int>, added: int, interval: int, k: nat)
    requires Spaced(runs, added, interval) && k < |runs|
    ensures runs[k] >= added + (k + 1) * interval
  {
    if k == 0 {
      assert runs[0] >= added + interval;
      MulOne(k + 1, interval);
    } else {
      KthNotBefore(runs, added, interval, k - 1);
      assert (k + 1) * interval == k * interval + interval;
    }
  }

  lemma AtMost(n: nat, span: int, interval: int)
    requires interval > 0 && n * interval <= span
    ensures n <= span / interval
  {
    var q := span / interval;
    assert span < (q + 1) * interval by {
      assert span == q * interval + span % interval;
      assert (q + 1) * interval == q * interval + interval;
    }
    assert n > q ==> n * interval >= (q + 1) * interval by {
      if n > q {
        MulMonotone(interval, q + 1, n);
      }
    }
  }

  /** Over every run: a task's k-th collection is at least k intervals after it was added, so by now it
      has been collected at most as often as its interval fits into the time since; it has been called
      once for each collection but possibly the last, even if it has been removed meanwhile. */
  lemma NeverTooOften(acts: seq<Action>, id: nat)
    requires CanRun(START, acts) && id in Run(START, acts).added
    ensures var s := Run(START, acts); var runs, added, interval := RunsOf(s, id), s.added[id].0, s.added[id].1;
      && (forall k :: 0 <= k < |runs| ==> runs[k] >= added + (k + 1) * interval)
      && (interval > 0 ==> |runs| <= if runs == [] then 0 else (s.now - added) / interval)
      && CallsOf(s, id) <= |runs| <= CallsOf(s, id) + 1
  {
    RunKeeps(START, acts);
    var s := Run(START, acts);
    var runs, added, interval := RunsOf(s, id), s.added[id].0, s.added[id].1;
    assert TaskOk(s, id);
    forall k | 0 <= k < |runs|
      ensures runs[k] >= added + (k + 1) * interval
    {
      KthNotBefore(runs, added, interval, k);
    }
    if interval > 0 && runs != [] {
      assert runs[|runs| - 1] <= s.now;
      AtMost(|runs|, s.now - added, interval);
    }
  }

  /** Over every run a task in the table is due exactly one interval after its last collection, or after it
      was added. */
  lemma DueOneIntervalLater(acts: seq<Action>, id: nat)
    requires CanRun(START, acts) && id in Run(START, acts).tasks
    ensures var s := Run(START, acts); var runs := RunsOf(s, id);
      && id in s.added && s.tasks[id].interval == s.added[id].1
      && s.tasks[id].nextRun == (if runs == [] then s.added[id].0 else runs[|runs| - 1]) + s.added[id].1
  {
    RunKeeps(START, acts);
    assert TaskOk(Run(START, acts), id);
  }

  // ---- From being added until being removed ----

  /** One step and one id already given out: only its removal takes it from the table, nothing puts it back,
      and what is not in the table is not collected. */
  lemma StepOfTask(s: State, a: Action, id: nat)
    requires Inv(s) && Enabled(s, a) && id < s.nextId
    ensures var n := Step(s, a);
      && id < n.nextId && (id in n.tasks <==> id in s.tasks && a != Remove(id))
      && (id in n.tasks ==> n.tasks[id].interval == s.tasks[id].interval)
      && (id !in s.tasks ==> RunsOf(n, id) == RunsOf(s, id))
      && (id in s.added ==> id in n.added && n.added[id] == s.added[id])
  {
    if a.Collect? {
      CollectOfTask(s, id);
    }
  }

  lemma CollectOfTask(s: State, id: nat)
    requires Inv(s) && s.w.Awake?
    ensures var n := Step(s, Collect);
      && n.nextId == s.nextId && (id in n.tasks <==> id in s.tasks)
      && (id in n.tasks ==> n.tasks[id].interval == s.tasks[id].interval)
      && (id !in s.tasks ==> RunsOf(n, id) == RunsOf(s, id))
      && n.added == s.added
  {
    CollectIs(s, id);
  }

  lemma {:induction false} InTableUntilRemoved(s: State, acts: seq<Action>, id: nat)
    requires Inv(s) && CanRun(s, acts) && id < s.nextId
    ensures var n := Run(s, acts);
      && (id in n.tasks <==> id in s.tasks && Remove(id) !in acts)
      && (id in n.tasks ==> n.tasks[id].interval == s.tasks[id].interval)
      && (id !in s.tasks ==> RunsOf(n, id) == RunsOf(s, id))
      && (id in s.added ==> id in n.added && n.added[id] == s.added[id])
    decreases |acts|
  {
    if acts != [] {
      StepKeeps(s, acts[0]);
      StepOfTask(s, acts[0], id);
      InTableUntilRemoved(Step(s, acts[0]), acts[1..], id);
      assert acts == [acts[0]] + acts[1..];
    }
  }

  /** A task that is added gets an id no task has had, and stays, at its interval, until that id is removed. */
  lemma AddedUntilRemoved(s: State, interval: int, acts: seq<Action>)
    requires Inv(s) && Enabled(s, Add(interval)) && CanRun(Step(s, Add(interval)), acts)
    ensures var n, id := Run(Step(s, Add(interval)), acts), s.nextId;
      && id !in s.added && id in n.added && n.added[id] == (s.now, interval)
      && (id in n.tasks <==> Remove(id) !in acts) && (id in n.tasks ==> n.tasks[id].interval == interval)
  {
    StepKeeps(s, Add(interval));
    InTableUntilRemoved(Step(s, Add(interval)), acts, s.nextId);
  }

  /** A removed task is never collected again, whatever happens afterwards; only a call of its last
      collection may still be under way. */
  lemma RemovedIsOver(s: State, id: nat, acts: seq<Action>)
    requires Inv(s) && Enabled(s, Remove(id)) && id < s.nextId && CanRun(Step(s, Remove(id)), acts)
    ensures var n := Run(Step(s, Remove(id)), acts);
      id !in n.tasks && RunsOf(n, id) == RunsOf(s, id) && CallsOf(n, id) <= |RunsOf(s, id)| <= CallsOf(s, id) + 1
  {
    StepKeeps(s, Remove(id));
    StepOfTask(s, Remove(id), id);
    InTableUntilRemoved(Step(s, Remove(id)), acts, id);
    RunKeeps(Step(s, Remove(id)), acts);
    assert RunsOf(Step(s, Remove(id)), id) == RunsOf(s, id);
  }

  // ---- Nothing due is slept through ----

  /** A sleeping worker can wake as soon as a task is due, and a waking one collects every due task: a few
      steps of the worker alone, and a new collection of that task is recorded. */
  lemma DueIsCollected(s: State, id: nat)
    requires Inv(s) && s.w.Waiting? && id in Due(s.tasks, s.now)
    ensures CanRun(s, NextPass(s)) && RunsOf(Run(s, NextPass(s)), id) == RunsOf(s, id) + [s.now]
  {
    if s.version == s.w.version {
      WakesAndCollects(s, id, NextPass(s));
    } else {
      LooksAgain(s, id, [WakeUp] + [Collect]);
    }
  }

  /** What a sleeping worker does next once it is due to wake: if the table has changed it looks again. */
  function NextPass(s: State): seq<Action>
    requires s.w.Waiting?
  {
    if s.version == s.w.version then [WakeUp] + [Collect] else [WakeUp] + ([Look] + ([WakeUp] + [Collect]))
  }

  lemma LooksAgain(s: State, id: nat, rest: seq<Action>)
    requires Inv(s) && s.w.Waiting? && s.version != s.w.version && id in Due(s.tasks, s.now) && rest == [WakeUp] + [Collect]
    ensures var acts := [WakeUp] + ([Look] + rest);
      CanRun(s, acts) && RunsOf(Run(s, acts), id) == RunsOf(s, id) + [s.now]
  {
    var head := s.(w := Head);
    var waiting := s.(w := Waiting(Soonest(s.tasks), s.version));
    StepKeeps(s, WakeUp);
    StepKeeps(head, Look);
    WakesAndCollects(waiting, id, rest);
    RunCons(head, Look, waiting, rest);
    RunCons(s, WakeUp, head, [Look] + rest);
  }

  lemma RunCons(s: State, a: Action, n: State, rest: seq<Action>)
    requires Enabled(s, a) && n == Step(s, a) && CanRun(n, rest)
    ensures CanRun(s, [a] + rest) && Run(s, [a] + rest) == Run(n, rest)
  {
    assert ([a] + rest)[0] == a && ([a] + rest)[1..] == rest;
  }

  lemma WakesAndCollects(s: State, id: nat, acts: seq<Action>)
    requires Inv(s) && s.w.Waiting? && s.version == s.w.version && id in Due(s.tasks, s.now) && acts == [WakeUp] + [Collect]
    ensures CanRun(s, acts) && RunsOf(Run(s, acts), id) == RunsOf(s, id) + [s.now]
  {
    var awake := s.(w := Awake);
    Wakes(s, awake);
    Collects(awake, id);
    RunCons(s, WakeUp, awake, [Collect]);
  }

  lemma Wakes(s: State, awake: State)
    requires Inv(s) && s.w.Waiting? && s.version == s.w.version && Due(s.tasks, s.now) != {} && awake == s.(w := Awake)
    ensures Enabled(s, WakeUp) && Step(s, WakeUp) == awake && Inv(awake)
  {
    var id :| id in Due(s.tasks, s.now);
    StepKeeps(s, WakeUp);
  }

  lemma Collects(s: State, id: nat)
    requires Inv(s) && s.w.Awake? && id in Due(s.tasks, s.now)
    ensures CanRun(s, [Collect]) && RunsOf(Run(s, [Collect]), id) == RunsOf(s, id) + [s.now]
  {
    CollectIs(s, id);
    OnlyOne(s, Collect, Step(s, Collect));
  }

  lemma OnlyOne(s: State, a: Action, n: State)
    requires Enabled(s, a) && n == Step(s, a)
    ensures CanRun(s, [a]) && Run(s, [a]) == n
  {
    assert [a][0] == a && [a][1..] == [];
    assert CanRun(n, []) && Run(n, []) == n;
  }

  // ---- The scheduler itself ----

  class Scheduler {
    var tasks: map<nat, Entry>
    var version: nat
    var nextId: nat

    /** The fields are those of the state `s`. */
    ghost predicate Holds(s: State)
      reads this
    {
      tasks == s.tasks && version == s.version && nextId == s.nextId
    }

    constructor ()
      ensures Holds(START)
    {
      tasks, version, nextId := map[], 0, 1;
    }

    method AddPeriodicTask(interval: int, now: int, ghost s: State) returns (id: nat)
      requires Holds(s) && s.now == now && Enabled(s, Add(interval))
      modifies this
      ensures Holds(Step(s, Add(interval)))
      ensures id == old(nextId) && nextId == id + 1 && version == old(version) + 1
      ensures tasks == old(tasks)[id := Entry(interval, now + interval)]
    {
      id := nextId;
      nextId := nextId + 1;
      tasks := tasks[id := Entry(interval, now + interval)];
      version := version + 1;
    }

    method RemoveTask(id: nat, ghost s: State) returns (removed: bool)
      requires Holds(s) && Enabled(s, Remove(id))
      modifies this
      ensures Holds(Step(s, Remove(id)))
      ensures removed <==> id in old(tasks)
      ensures tasks == old(tasks) - {id} && nextId == old(nextId)
      ensures version == old(version) + if removed then 1 else 0
    {
      removed := id in tasks;
      if removed {
        tasks := tasks - {id};
        version := version + 1;
      }
    }

    method FindSoonest() returns (soonest: int)
      requires tasks != map[]
      ensures IsSoonest(tasks, soonest)
    {
      var first :| first in tasks;
      soonest := tasks[first].nextRun;
      var rest := tasks.Keys;
      while rest != {}
        invariant rest <= tasks.Keys && exists id <- tasks :: tasks[id].nextRun == soonest
        invariant forall id <- tasks :: id !in rest ==> soonest <= tasks[id].nextRun
        decreases rest
      {
        var id :| id in rest;
        rest := rest - {id};
        if tasks[id].nextRun < soonest {
          soonest := tasks[id].nextRun;
        }
      }
    }

    /** Collects what is due and sets its next time; each due task once. */
    method CollectDue(now: int) returns (due: seq<nat>)
      modifies this`tasks
      ensures tasks == Collected(old(tasks), now)
      ensures (forall id :: id in due <==> id in Due(old(tasks), now))
      ensures forall i, j :: 0 <= i < j < |due| ==> due[i] != due[j]
    {
      due := [];
      var rest := tasks.Keys;
      while rest != {}
        invariant rest <= old(tasks).Keys && tasks.Keys == old(tasks).Keys
        invariant forall id <- tasks :: tasks[id] == if id in rest then old(tasks)[id] else Collected(old(tasks), now)[id]
        invariant forall id :: id in due <==> id in Due(old(tasks), now) && id !in rest
        invariant forall i, j :: 0 <= i < j < |due| ==> due[i] != due[j]
        decreases rest
      {
        var id :| id in rest;
        ghost var before := due;
        rest := rest - {id};
        if tasks[id].nextRun <= now {
          due := due + [id];
          tasks := tasks[id := tasks[id].(nextRun := now + tasks[id].interval)];
        }
        forall k
          ensures k in due <==> k in Due(old(tasks), now) && k !in rest
        {
          assert k in due <==> k in before || (k == id && id in Due(old(tasks), now));
        }
      }
    }
  }
}
