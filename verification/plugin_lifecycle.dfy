/** The plugin manager's bookkeeping as an automaton: every step of loading, starting, stopping and
    unloading a plugin, with any result the plugin's own functions may return. */
module PluginLifecycle {
  import opened Options

  /** One row of the table of loaded plugins. */
  datatype Loaded = Loaded(lib: nat, owner: nat, started: bool)

  /** How far the operation in progress has got with its plugin. */
  datatype Stage =
    | Opened        // library open, entry points not looked at
    | Owned         // writer owner created
    | Creating      // inside createPlugin
    | Refused       // createPlugin failed
    | Initing       // inside init
    | Initialized   // init succeeded
    | Discarding    // init failed: inside destroy
    | Discarded     // destroyed, still the active owner
    | Retiring      // no longer active
    | Starting      // inside start
    | StartDone(ok: bool)
    | Stopping      // inside stop, staying loaded
    | Draining      // writers retired, waiting for calls in flight
    | Quiet         // no call in flight
    | Ending        // inside stop, on the way out
    | Destroying    // inside destroy, on the way out
    | Dropping      // the owner goes next
    | Closing       // the library goes next

  /** `at` is the row of the plugin, if it has one. */
  datatype Control = Ready | Busy(at: Option<nat>, lib: nat, owner: nat, stage: Stage)

  /** Calls into one plugin instance, with their results where these matter. */
  datatype Call = Create(ok: bool) | Init(ok: bool) | Start(ok: bool) | Stop | Destroy

  datatype Event =
    | Open | Reject | MakeOwner | Activate | CreateReturns(ok: bool) | InitReturns(ok: bool)
    | DestroyReturns | Deactivate | Retire | Quiesce | RemoveOwner | Close
    | BeginStart(i: nat) | StartReturns(ok: bool) | BeginStop(i: nat) | StopReturns
    | BeginUnload(i: nat) | CallStop | CallDestroy

  datatype Manager = Manager(
    table: seq<Loaded>, control: Control,
    handles: nat, closed: seq<nat>,                      // library 1..handles, and those closed
    owners: set<nat>, active: nat, nextOwner: nat,      // the host's owner table
    calls: map<nat, seq<Call>>                          // what each library's instance has been asked
  ) {
    function To(stage: Stage): Manager
      requires control.Busy?
    {
      this.(control := control.(stage := stage))
    }

    function Called(call: Call): Manager
      requires control.Busy? && control.lib in calls
    {
      this.(calls := calls[control.lib := calls[control.lib] + [call]])
    }

    function Mark(started: bool): Manager
      requires control.Busy? && control.at.Some? && control.at.value < |table|
    {
      this.(table := table[control.at.value := table[control.at.value].(started := started)])
    }

    ghost predicate At(stage: Stage) {
      control.Busy? && control.stage == stage
    }
  }

  const IDLE := Manager([], Ready, 0, [], {0}, 0, 1, map[])

  predicate HasRow(m: Manager) {
    m.control.Busy? && m.control.at.Some? && m.control.at.value < |m.table|
  }

  /** What the operation in progress may do next; None when the program does not do that there. */
  function Next(m: Manager, e: Event): Option<Manager> {
    if m.control.Ready? then FromReady(m, e)
    else if m.control.lib !in m.calls then None
    else if m.control.at.Some? then if HasRow(m) then FromRow(m, e) else None
    else FromLoad(m, e)
  }

  function FromReady(m: Manager, e: Event): Option<Manager>
    requires m.control.Ready?
  {
    match e
    case Open =>
      var lib := m.handles + 1;
      Some(m.(handles := lib, calls := m.calls[lib := []], control := Busy(None, lib, 0, Opened)))
    case BeginStart(i) =>
      if i < |m.table| && !m.table[i].started then
        Some(m.(active := m.table[i].owner, control := Busy(Some(i), m.table[i].lib, m.table[i].owner, Starting)))
      else None
    case BeginStop(i) =>
      if i < |m.table| && m.table[i].started then
        Some(m.(control := Busy(Some(i), m.table[i].lib, m.table[i].owner, Stopping)))
      else None
    case BeginUnload(i) =>
      if i < |m.table| then Some(m.(control := Busy(Some(i), m.table[i].lib, m.table[i].owner, Draining)))
      else None
    case _ => None
  }

  /** Loading: the plugin has no row yet. */
  function FromLoad(m: Manager, e: Event): Option<Manager>
    requires m.control.Busy? && m.control.lib in m.calls
  {
    match (m.control.stage, e)
    case (Opened, Reject) => Some(m.(closed := m.closed + [m.control.lib], control := Ready))
    case (Opened, MakeOwner) =>
      Some(m.(owners := m.owners + {m.nextOwner}, nextOwner := m.nextOwner + 1,
              control := m.control.(owner := m.nextOwner, stage := Owned)))
    case (Owned, Activate) => Some(m.(active := m.control.owner).To(Creating))
    case (Creating, CreateReturns(ok)) => Some(m.Called(Create(ok)).To(if ok then Initing else Refused))
    case (Refused, Deactivate) => Some(m.(active := 0).To(Dropping))
    case (Initing, InitReturns(ok)) => Some(m.Called(Init(ok)).To(if ok then Initialized else Discarding))
    case (Initialized, Deactivate) =>
      Some(m.(active := 0, table := m.table + [Loaded(m.control.lib, m.control.owner, false)], control := Ready))
    case (Discarding, DestroyReturns) => Some(m.Called(Destroy).To(Discarded))
    case (Discarded, Deactivate) => Some(m.(active := 0).To(Retiring))
    case (Retiring, Retire) => Some(m.To(Draining))
    case (Draining, Quiesce) => Some(m.To(Dropping))
    case (Dropping, RemoveOwner) => Some(m.(owners := m.owners - {m.control.owner}).To(Closing))
    case (Closing, Close) => Some(m.(closed := m.closed + [m.control.lib], control := Ready))
    case _ => None
  }

  /** Working on a plugin that has a row. */
  function FromRow(m: Manager, e: Event): Option<Manager>
    requires HasRow(m) && m.control.lib in m.calls
  {
    match (m.control.stage, e)
    case (Starting, StartReturns(ok)) => Some(m.Called(Start(ok)).To(StartDone(ok)))
    case (StartDone(ok), Deactivate) =>
      Some((if ok then m.Mark(true) else m).(active := 0, control := Ready))
    case (Stopping, StopReturns) => Some(m.Called(Stop).Mark(false).(control := Ready))
    case (Draining, Quiesce) => Some(m.To(Quiet))
    case (Quiet, CallStop) => if m.table[m.control.at.value].started then Some(m.To(Ending)) else None
    case (Ending, StopReturns) => Some(m.Called(Stop).Mark(false).To(Quiet))
    case (Quiet, CallDestroy) => if !m.table[m.control.at.value].started then Some(m.To(Destroying)) else None
    case (Destroying, DestroyReturns) => Some(m.Called(Destroy).To(Dropping))
    case (Dropping, RemoveOwner) => Some(m.(owners := m.owners - {m.control.owner}).To(Closing))
    case (Closing, Close) =>
      var i := m.control.at.value;
      Some(m.(closed := m.closed + [m.control.lib], table := m.table[..i] + m.table[i + 1..], control := Ready))
    case _ => None
  }

  function Exec(m: Manager, es: seq<Event>): Option<Manager>
    decreases |es|
  {
    if es == [] then Some(m)
    else
      var before := Exec(m, es[..|es| - 1]);
      if before.Some? then Next(before.value, es[|es| - 1]) else None
  }

  // ---- What the calls into one instance look like ----

  datatype Phase = Fresh | Made | Idle | Running | Failed | Over

  function After(p: Phase, call: Call): Option<Phase> {
    match (p, call)
    case (Fresh, Create(ok)) => Some(if ok then Made else Over)
    case (Made, Init(ok)) => Some(if ok then Idle else Failed)
    case (Idle, Start(ok)) => Some(if ok then Running else Idle)
    case (Running, Stop) => Some(Idle)
    case (Idle, Destroy) => Some(Over)
    case (Failed, Destroy) => Some(Over)
    case _ => None
  }

  function PhaseOf(trace: seq<Call>): Option<Phase> {
    if trace == [] then Some(Fresh)
    else
      var before := PhaseOf(trace[..|trace| - 1]);
      if before.Some? then After(before.value, trace[|trace| - 1]) else None
  }

  /** create, init, then starts, each successful one followed by its stop, then destroy: told call
      by call from the one before it. */
  ghost predicate WellOrdered(trace: seq<Call>) {
    && (forall i :: 0 <= i < |trace| ==> (trace[i].Create? <==> i == 0))
    && (forall i :: 0 <= i < |trace| ==> (trace[i].Init? <==> i == 1))
    && (forall i :: 0 <= i < |trace| - 1 ==> trace[i] != Create(false) && trace[i] != Destroy)
    && (forall i :: 0 < i < |trace| ==> (trace[i].Stop? <==> trace[i - 1] == Start(true)))
    && (forall i :: 0 < i < |trace| && trace[i - 1] == Init(false) ==> trace[i].Destroy?)
  }

  /** The phase after a well-ordered trace depends on its last call only. */
  function LastPhase(call: Call): Phase {
    match call
    case Create(ok) => if ok then Made else Over
    case Init(ok) => if ok then Idle else Failed
    case Start(ok) => if ok then Running else Idle
    case Stop => Idle
    case Destroy => Over
  }

  lemma {:induction false} PhaseIffWellOrdered(trace: seq<Call>)
    ensures PhaseOf(trace).Some? <==> WellOrdered(trace)
    ensures PhaseOf(trace).Some? && trace != [] ==> PhaseOf(trace).value == LastPhase(trace[|trace| - 1])
  {
    if trace != [] {
      var n := |trace| - 1;
      var before, call := trace[..n], trace[n];
      PhaseIffWellOrdered(before);
      assert before + [call] == trace;
      WellOrderedStep(before, call);
      PhaseAppend(before, call);
      AfterIff(before, call);
    }
  }

  /** The phase allows a call exactly when the call before it does. */
  lemma AfterIff(before: seq<Call>, call: Call)
    requires PhaseOf(before).Some? && before != [] ==> PhaseOf(before).value == LastPhase(before[|before| - 1])
    requires PhaseOf(before).Some? ==> WellOrdered(before)
    ensures PhaseOf(before).Some? ==>
      (After(PhaseOf(before).value, call).Some? <==> MayFollow(before, call))
    ensures PhaseOf(before).Some? && MayFollow(before, call) ==> After(PhaseOf(before).value, call).value == LastPhase(call)
  {
    if before != [] && PhaseOf(before).Some? {
      var n := |before| - 1;
      assert before[n].Create? <==> n == 0;
      assert before[n].Init? <==> n == 1;
    }
  }

  ghost predicate MayFollow(before: seq<Call>, call: Call) {
    if before == [] then call.Create?
    else
      var last := before[|before| - 1];
      && !call.Create? && (call.Init? <==> |before| == 1)
      && last != Create(false) && last != Destroy
      && (call.Stop? <==> last == Start(true)) && (last == Init(false) ==> call.Destroy?)
  }

  lemma WellOrderedStep(before: seq<Call>, call: Call)
    ensures WellOrdered(before + [call]) <==> WellOrdered(before) && MayFollow(before, call)
  {
    var trace, n := before + [call], |before|;
    assert trace[n] == call && forall i :: 0 <= i < n ==> trace[i] == before[i];
    assert n > 0 ==> trace[n - 1] == before[n - 1];
    if WellOrdered(trace) {
      forall i | 0 <= i < n
        ensures before[i].Create? <==> i == 0
        ensures before[i].Init? <==> i == 1
      {
        assert trace[i] == before[i];
      }
    }
  }

  // ---- What every step keeps ----

  ghost function Libs(table: seq<Loaded>): set<nat> {
    set e <- table :: e.lib
  }

  ghost function Owners(table: seq<Loaded>): set<nat> {
    set e <- table :: e.owner
  }

  ghost predicate DistinctRows(table: seq<Loaded>) {
    forall i, j :: 0 <= i < j < |table| ==> table[i].lib != table[j].lib && table[i].owner != table[j].owner
  }

  lemma RowAdded(table: seq<Loaded>, e: Loaded)
    requires DistinctRows(table) && e.lib !in Libs(table) && e.owner !in Owners(table)
    ensures DistinctRows(table + [e])
    ensures Libs(table + [e]) == Libs(table) + {e.lib} && Owners(table + [e]) == Owners(table) + {e.owner}
    ensures forall r :: r in table + [e] <==> r in table || r == e
  {
    forall i | 0 <= i < |table|
      ensures table[i].lib in Libs(table) && table[i].owner in Owners(table)
    {
      assert table[i] in table;
    }
    assert (table + [e])[|table|] == e;
  }

  lemma RowMarked(table: seq<Loaded>, i: nat, started: bool)
    requires DistinctRows(table) && i < |table|
    ensures var after := table[i := table[i].(started := started)];
      && DistinctRows(after) && Libs(after) == Libs(table) && Owners(after) == Owners(table)
      && forall r :: r in after && r.lib != table[i].lib <==> r in table && r.lib != table[i].lib
  {
    var after := table[i := table[i].(started := started)];
    forall r
      ensures r in after && r.lib != table[i].lib <==> r in table && r.lib != table[i].lib
    {
      if r in after && r.lib != table[i].lib {
        var k :| 0 <= k < |after| && after[k] == r;
        assert table[k] == r;
      }
      if r in table && r.lib != table[i].lib {
        var k :| 0 <= k < |table| && table[k] == r;
        assert after[k] == r;
      }
    }
    forall n
      ensures n in Libs(after) <==> n in Libs(table)
      ensures n in Owners(after) <==> n in Owners(table)
    {
      SameIds(table, after, n);
      SameIds(after, table, n);
    }
  }

  lemma SameIds(a: seq<Loaded>, b: seq<Loaded>, n: nat)
    requires |a| == |b| && forall k :: 0 <= k < |a| ==> a[k].lib == b[k].lib && a[k].owner == b[k].owner
    ensures n in Libs(a) ==> n in Libs(b)
    ensures n in Owners(a) ==> n in Owners(b)
  {
    if n in Libs(a) {
      var e :| e in a && e.lib == n;
      var k :| 0 <= k < |a| && a[k] == e;
      assert b[k] in b;
    }
    if n in Owners(a) {
      var e :| e in a && e.owner == n;
      var k :| 0 <= k < |a| && a[k] == e;
      assert b[k] in b;
    }
  }

  lemma RowErased(table: seq<Loaded>, i: nat)
    requires DistinctRows(table) && i < |table|
    ensures var after := table[..i] + table[i + 1..];
      && DistinctRows(after)
      && Libs(after) == Libs(table) - {table[i].lib} && Owners(after) == Owners(table) - {table[i].owner}
      && forall r :: r in after <==> r in table && r.lib != table[i].lib
  {
    var after := table[..i] + table[i + 1..];
    forall r
      ensures r in after <==> r in table && r.lib != table[i].lib
      ensures r in after ==> r.owner != table[i].owner
      ensures r in table && r.owner != table[i].owner ==> r in after
    {
      if r in after {
        var k :| 0 <= k < |after| && after[k] == r;
        assert r == table[if k < i then k else k + 1];
      }
      if r in table && (r.lib != table[i].lib || r.owner != table[i].owner) {
        var k :| 0 <= k < |table| && table[k] == r;
        assert r == after[if k < i then k else k - 1];
      }
    }
  }

  predicate Loading(stage: Stage) {
    stage.Opened? || stage.Owned? || stage.Creating? || stage.Refused? || stage.Initing? || stage.Initialized?
    || stage.Discarding? || stage.Discarded? || stage.Retiring?
  }

  predicate Either(stage: Stage) {
    stage.Draining? || stage.Dropping? || stage.Closing?
  }

  predicate ActiveStage(stage: Stage) {
    stage.Creating? || stage.Refused? || stage.Initing? || stage.Initialized? || stage.Discarding?
    || stage.Discarded? || stage.Starting? || stage.StartDone?
  }

  /** The plugin being worked on is either a row of the table or none of them. */
  ghost predicate ControlOk(m: Manager) {
    && DistinctRows(m.table) && m.nextOwner >= 1
    && (forall e <- m.table :: 1 <= e.owner < m.nextOwner)
    && m.active == (if m.control.Busy? && ActiveStage(m.control.stage) then m.control.owner else 0)
    && (m.control.Busy? ==>
          var c := m.control;
          && (if c.stage.Opened? then c.owner == 0 else 1 <= c.owner < m.nextOwner)
          && (c.at.None? ==>
                && (Loading(c.stage) || Either(c.stage))
                && c.lib !in Libs(m.table) && c.owner !in Owners(m.table))
          && (c.at.Some? ==>
                && !Loading(c.stage) && HasRow(m)
                && m.table[c.at.value].lib == c.lib && m.table[c.at.value].owner == c.owner))
  }

  /** Libraries the manager has a handle of. */
  ghost function Held(m: Manager): set<nat> {
    Libs(m.table) + if m.control.Busy? then {m.control.lib} else {}
  }

  /** Each library is closed once or held, never both. */
  ghost predicate HandlesOk(m: Manager) {
    && (forall i, j :: 0 <= i < j < |m.closed| ==> m.closed[i] != m.closed[j])
    && (forall lib <- Held(m) :: 1 <= lib <= m.handles)
    && (forall lib: nat :: lib in m.closed <==> 1 <= lib <= m.handles && lib !in Held(m))
  }

  /** The host knows owner 0, the owners of the table and that of a plugin on its way in or out. */
  ghost predicate OwnersOk(m: Manager) {
    m.owners == if m.control.Ready? || m.control.stage.Opened? then {0} + Owners(m.table)
                else if m.control.stage.Closing? then {0} + Owners(m.table) - {m.control.owner}
                else {0} + Owners(m.table) + {m.control.owner}
  }

  /** The phase a plugin must be in when an operation on it has got this far. */
  ghost predicate StageFits(stage: Stage, at: Option<nat>, started: bool, p: Phase) {
    match stage
    case Opened => p.Fresh?
    case Owned => p.Fresh?
    case Creating => p.Fresh?
    case Refused => p.Over?
    case Initing => p.Made?
    case Initialized => p.Idle?
    case Discarding => p.Failed?
    case Discarded => p.Over?
    case Retiring => p.Over?
    case Starting => p.Idle? && !started
    case StartDone(ok) => p == (if ok then Running else Idle) && !started
    case Stopping => p.Running? && started
    case Draining => if at.None? then p.Over? else p == (if started then Running else Idle)
    case Quiet => p == (if started then Running else Idle)
    case Ending => p.Running? && started
    case Destroying => p.Idle? && !started
    case Dropping => p.Over?
    case Closing => p.Over?
  }

  ghost predicate RowFits(calls: map<nat, seq<Call>>, e: Loaded) {
    e.lib in calls && PhaseOf(calls[e.lib]) == Some(if e.started then Running else Idle)
  }

  /** A closed library's instance was never made, or is gone. */
  ghost predicate Finished(calls: map<nat, seq<Call>>, lib: nat) {
    lib in calls && (PhaseOf(calls[lib]) == Some(Over) || PhaseOf(calls[lib]) == Some(Fresh))
  }

  ghost predicate CallsOk(m: Manager) {
    && (forall lib: nat :: lib in m.calls <==> 1 <= lib <= m.handles)
    && (forall lib <- m.closed :: Finished(m.calls, lib))
    && (forall e <- m.table :: (m.control.Busy? && m.control.lib == e.lib) || RowFits(m.calls, e))
    && (m.control.Busy? && m.control.lib in m.calls ==>
          var p := PhaseOf(m.calls[m.control.lib]);
          p.Some? && StageFits(m.control.stage, m.control.at, HasRow(m) && m.table[m.control.at.value].started, p.value))
  }

  ghost predicate ManagerInv(m: Manager) {
    ControlOk(m) && HandlesOk(m) && OwnersOk(m) && CallsOk(m)
  }

  lemma PhaseAppend(trace: seq<Call>, call: Call)
    ensures PhaseOf(trace + [call]) == if PhaseOf(trace).Some? then After(PhaseOf(trace).value, call) else None
  {
    var t := trace + [call];
    assert t[..|t| - 1] == trace && t[|t| - 1] == call;
  }

  lemma ReadyKeeps(m: Manager, e: Event)
    requires ManagerInv(m) && m.control.Ready? && FromReady(m, e).Some?
    ensures ManagerInv(FromReady(m, e).value)
  {
    var n := FromReady(m, e).value;
    if e.Open? {
      assert PhaseOf([]) == Some(Fresh);
    } else {
      assert m.table[n.control.at.value] in m.table;
    }
  }

  /** A call into the plugin that moves it to the phase its next stage needs. */
  lemma CallKeeps(m: Manager, call: Call, stage: Stage)
    requires ManagerInv(m) && m.control.Busy? && m.control.lib in m.calls
    requires var p := After(PhaseOf(m.calls[m.control.lib]).value, call);
      p.Some? && StageFits(stage, m.control.at, HasRow(m) && m.table[m.control.at.value].started, p.value)
    ensures CallsOk(m.Called(call).To(stage))
  {
    PhaseAppend(m.calls[m.control.lib], call);
  }

  ghost predicate Loads(m: Manager, e: Event) {
    ManagerInv(m) && m.control.Busy? && m.control.at.None? && m.control.lib in m.calls && FromLoad(m, e).Some?
  }

  ghost predicate Works(m: Manager, e: Event) {
    ManagerInv(m) && HasRow(m) && m.control.lib in m.calls && FromRow(m, e).Some?
  }

  lemma LoadCalls(m: Manager, e: Event)
    requires Loads(m, e)
    requires e.CreateReturns? || e.InitReturns? || e.DestroyReturns?
    ensures ManagerInv(FromLoad(m, e).value)
  {
    var n := FromLoad(m, e).value;
    CallKeeps(m, if e.CreateReturns? then Create(e.ok) else if e.InitReturns? then Init(e.ok) else Destroy, n.control.stage);
  }

  lemma LoadCloses(m: Manager, e: Event)
    requires Loads(m, e)
    requires e.Reject? || e.Close?
    ensures ManagerInv(FromLoad(m, e).value)
  {}

  lemma LoadSucceeds(m: Manager, e: Event)
    requires Loads(m, e)
    requires m.control.stage.Initialized?
    ensures ManagerInv(FromLoad(m, e).value)
  {
    RowAdded(m.table, Loaded(m.control.lib, m.control.owner, false));
  }

  lemma LoadMovesCalls(m: Manager, e: Event)
    requires Loads(m, e)
    requires e.MakeOwner? || e.Activate? || e.Deactivate? || e.Retire? || e.Quiesce? || e.RemoveOwner?
    requires !m.control.stage.Initialized?
    ensures CallsOk(FromLoad(m, e).value) && HandlesOk(FromLoad(m, e).value)
  {
    assert Held(FromLoad(m, e).value) == Held(m);
  }

  lemma LoadMovesControl(m: Manager, e: Event)
    requires Loads(m, e)
    requires e.MakeOwner? || e.Activate? || e.Deactivate? || e.Retire? || e.Quiesce? || e.RemoveOwner?
    requires !m.control.stage.Initialized?
    ensures ControlOk(FromLoad(m, e).value)
  {}

  lemma LoadMoves(m: Manager, e: Event)
    requires Loads(m, e)
    requires e.MakeOwner? || e.Activate? || e.Deactivate? || e.Retire? || e.Quiesce? || e.RemoveOwner?
    requires !m.control.stage.Initialized?
    ensures ManagerInv(FromLoad(m, e).value)
  {
    LoadMovesCalls(m, e);
    LoadMovesControl(m, e);
  }

  lemma LoadKeeps(m: Manager, e: Event)
    requires Loads(m, e)
    ensures ManagerInv(FromLoad(m, e).value)
  {
    if e.CreateReturns? || e.InitReturns? || e.DestroyReturns? {
      LoadCalls(m, e);
    } else if e.Reject? || e.Close? {
      LoadCloses(m, e);
    } else if m.control.stage.Initialized? {
      LoadSucceeds(m, e);
    } else {
      LoadMoves(m, e);
    }
  }

  lemma RowCalls(m: Manager, e: Event)
    requires Works(m, e)
    requires e.StartReturns? || e.DestroyReturns?
    ensures ManagerInv(FromRow(m, e).value)
  {
    var n := FromRow(m, e).value;
    CallKeeps(m, if e.StartReturns? then Start(e.ok) else Destroy, n.control.stage);
  }

  lemma RowStoppedCalls(m: Manager, e: Event)
    requires Works(m, e)
    requires e.StopReturns?
    ensures CallsOk(FromRow(m, e).value)
  {
    PhaseAppend(m.calls[m.control.lib], Stop);
    RowMarked(m.table, m.control.at.value, false);
    if m.control.stage.Stopping? {
      StoppedRows(m, FromRow(m, e).value);
    }
  }

  /** Stopped for good, the row fits its instance again. */
  lemma StoppedRows(m: Manager, n: Manager)
    requires ManagerInv(m) && HasRow(m) && m.control.lib in m.calls
    requires n.control.Ready? && n.table == m.table[m.control.at.value := m.table[m.control.at.value].(started := false)]
    requires n.calls == m.calls[m.control.lib := m.calls[m.control.lib] + [Stop]]
    requires PhaseOf(n.calls[m.control.lib]) == Some(Idle)
    ensures forall e <- n.table :: RowFits(n.calls, e)
  {
    forall e | e in n.table
      ensures RowFits(n.calls, e)
    {
      var k :| 0 <= k < |n.table| && n.table[k] == e;
      if k != m.control.at.value {
        assert m.table[k] in m.table && RowFits(m.calls, m.table[k]);
      }
    }
  }

  lemma RowStopped(m: Manager, e: Event)
    requires Works(m, e)
    requires e.StopReturns?
    ensures ManagerInv(FromRow(m, e).value)
  {
    RowStoppedCalls(m, e);
    RowMarked(m.table, m.control.at.value, false);
  }

  lemma RowReleasedRest(m: Manager, e: Event)
    requires Works(m, e)
    requires e.Deactivate?
    ensures var n := FromRow(m, e).value; ControlOk(n) && HandlesOk(n) && OwnersOk(n)
  {
    RowMarked(m.table, m.control.at.value, true);
  }

  lemma RowReleased(m: Manager, e: Event)
    requires Works(m, e)
    requires e.Deactivate?
    ensures ManagerInv(FromRow(m, e).value)
  {
    RowReleasedRest(m, e);
    RowMarked(m.table, m.control.at.value, true);
    var n := FromRow(m, e).value;
    forall r | r in n.table
      ensures RowFits(n.calls, r)
    {
      if r.lib == m.control.lib {
        var k :| 0 <= k < |n.table| && n.table[k] == r;
        assert k == m.control.at.value;
      } else {
        assert r in m.table;
      }
    }
  }

  lemma RowCloses(m: Manager, e: Event)
    requires Works(m, e)
    requires e.Close?
    ensures ManagerInv(FromRow(m, e).value)
  {
    RowErased(m.table, m.control.at.value);
  }

  lemma RowMovesCalls(m: Manager, e: Event)
    requires Works(m, e)
    requires e.Quiesce? || e.CallStop? || e.CallDestroy? || e.RemoveOwner?
    ensures CallsOk(FromRow(m, e).value) && HandlesOk(FromRow(m, e).value)
  {
    assert Held(FromRow(m, e).value) == Held(m);
  }

  lemma RowMoves(m: Manager, e: Event)
    requires Works(m, e)
    requires e.Quiesce? || e.CallStop? || e.CallDestroy? || e.RemoveOwner?
    ensures ManagerInv(FromRow(m, e).value)
  {
    RowMovesCalls(m, e);
  }

  lemma RowKeeps(m: Manager, e: Event)
    requires Works(m, e)
    ensures ManagerInv(FromRow(m, e).value)
  {
    if e.StartReturns? || e.DestroyReturns? {
      RowCalls(m, e);
    } else if e.StopReturns? {
      RowStopped(m, e);
    } else if e.Deactivate? {
      RowReleased(m, e);
    } else if e.Close? {
      RowCloses(m, e);
    } else {
      RowMoves(m, e);
    }
  }

  lemma NextKeeps(m: Manager, e: Event)
    requires ManagerInv(m) && Next(m, e).Some?
    ensures ManagerInv(Next(m, e).value)
  {
    if m.control.Ready? {
      ReadyKeeps(m, e);
    } else if m.control.at.None? {
      LoadKeeps(m, e);
    } else {
      RowKeeps(m, e);
    }
  }

  /** Everything above holds after any operations with any results. */
  lemma {:induction false} ManagerRunInv(es: seq<Event>)
    ensures Exec(IDLE, es).Some? ==> ManagerInv(Exec(IDLE, es).value)
    decreases |es|
  {
    if es != [] {
      ManagerRunInv(es[..|es| - 1]);
      var before := Exec(IDLE, es[..|es| - 1]);
      if before.Some? && Next(before.value, es[|es| - 1]).Some? {
        NextKeeps(before.value, es[|es| - 1]);
      }
    }
  }

  lemma PhaseKnown(m: Manager, lib: nat)
    requires ManagerInv(m) && lib in m.calls
    ensures PhaseOf(m.calls[lib]).Some?
  {
    if lib in Held(m) {
      if !(m.control.Busy? && m.control.lib == lib) {
        var e :| e in m.table && e.lib == lib;
        assert RowFits(m.calls, e);
      }
    } else {
      assert lib in m.closed && Finished(m.calls, lib);
    }
  }

  lemma RowsRun(m: Manager, lib: nat)
    requires ManagerInv(m) && m.control.Ready? && lib in m.calls
    ensures lib in Libs(m.table) ==> PhaseOf(m.calls[lib]) == Some(Running) || PhaseOf(m.calls[lib]) == Some(Idle)
  {
    if lib in Libs(m.table) {
      var e :| e in m.table && e.lib == lib;
      assert RowFits(m.calls, e);
    }
  }

  /** Every instance is called in order; one whose library is closed has been destroyed, unless it
      was never made. */
  lemma InstanceLifecycle(es: seq<Event>, lib: nat)
    requires Exec(IDLE, es).Some? && lib in Exec(IDLE, es).value.calls
    ensures var m := Exec(IDLE, es).value; var trace := m.calls[lib];
      && WellOrdered(trace)
      && (lib in m.closed ==> trace == [] || trace == [Create(false)] || trace[|trace| - 1] == Destroy)
      && (trace != [] && trace[|trace| - 1] == Destroy && m.control.Ready? ==> lib !in Libs(m.table))
  {
    var m := Exec(IDLE, es).value;
    var trace := m.calls[lib];
    ManagerRunInv(es);
    PhaseKnown(m, lib);
    TraceEnds(trace);
    assert lib in m.closed ==> Finished(m.calls, lib);
    if m.control.Ready? {
      RowsRun(m, lib);
    }
  }

  /** How a trace that has a phase ends. */
  lemma TraceEnds(trace: seq<Call>)
    requires PhaseOf(trace).Some?
    ensures WellOrdered(trace)
    ensures PhaseOf(trace).value.Fresh? ==> trace == []
    ensures PhaseOf(trace).value.Over? ==> trace == [Create(false)] || (trace != [] && trace[|trace| - 1] == Destroy)
    ensures trace != [] && trace[|trace| - 1] == Destroy ==> PhaseOf(trace).value.Over?
  {
    PhaseIffWellOrdered(trace);
    if trace != [] {
      assert trace[|trace| - 1].Create? ==> |trace| == 1;
    }
  }

  /** Between operations: every library handle ever opened is closed exactly once or belongs to
      exactly one row, and the host knows owner 0 and the owners of the rows, which all differ. */
  lemma NothingLeaks(es: seq<Event>)
    requires Exec(IDLE, es).Some? && Exec(IDLE, es).value.control.Ready?
    ensures var m := Exec(IDLE, es).value;
      && (forall lib: nat :: 1 <= lib <= m.handles ==>
            multiset(m.closed)[lib] + multiset(RowLibs(m.table))[lib] == 1)
      && (forall lib: nat :: lib in m.closed || lib in RowLibs(m.table) ==> 1 <= lib <= m.handles)
      && m.owners == {0} + Owners(m.table) && |Owners(m.table)| == |m.table| && m.active == 0
  {
    var m := Exec(IDLE, es).value;
    ManagerRunInv(es);
    RowLibsAre(m.table);
    OwnerCount(m.table);
    forall lib: nat | 1 <= lib <= m.handles
      ensures multiset(m.closed)[lib] + multiset(RowLibs(m.table))[lib] == 1
    {
      OnceEach(m.closed, lib);
      OnceEach(RowLibs(m.table), lib);
      assert lib in m.closed <==> lib !in Libs(m.table);
    }
  }

  ghost function RowLibs(table: seq<Loaded>): seq<nat> {
    seq(|table|, i requires 0 <= i < |table| => table[i].lib)
  }

  lemma RowLibsAre(table: seq<Loaded>)
    ensures forall lib :: lib in RowLibs(table) <==> lib in Libs(table)
  {
    forall lib
      ensures lib in RowLibs(table) <==> lib in Libs(table)
    {
      if lib in RowLibs(table) {
        var k :| 0 <= k < |table| && RowLibs(table)[k] == lib;
        assert table[k] in table;
      }
      if lib in Libs(table) {
        var e :| e in table && e.lib == lib;
        var k :| 0 <= k < |table| && table[k] == e;
        assert RowLibs(table)[k] == lib;
      }
    }
  }

  lemma {:induction false} OnceEach(s: seq<nat>, x: nat)
    requires forall i, j :: 0 <= i < j < |s| ==> s[i] != s[j]
    ensures multiset(s)[x] == if x in s then 1 else 0
  {
    if s != [] {
      var n := |s| - 1;
      assert s == s[..n] + [s[n]];
      OnceEach(s[..n], x);
    }
  }

  lemma {:induction false} OwnerCount(table: seq<Loaded>)
    requires DistinctRows(table)
    ensures |Owners(table)| == |table|
  {
    if table != [] {
      var n := |table| - 1;
      OwnerCount(table[..n]);
      assert table == table[..n] + [table[n]];
      assert Owners(table) == Owners(table[..n]) + {table[n].owner};
      assert table[n].owner !in Owners(table[..n]);
    }
  }
}
