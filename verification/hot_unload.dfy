/** Hot unload under traffic: the manager's steps interleaved with any number of threads that route
    writes to plugin handlers. */
module HotUnload {
  import opened Options
  import opened PluginHosts
  import opened PluginLifecycle

  /** A write in progress: its handler is chosen while the shared lock is held, counted in before
      the lock is released, and counted out after the handler returned. */
  datatype Thread = Choosing(reg: Reg) | Inside(reg: Reg) | Leaving(reg: Reg)

  datatype State = State(m: Manager, writers: seq<Reg>, inflight: map<nat, int>, threads: map<nat, Thread>)

  datatype Action =
    | Manage(e: Event)
    | Register(prefix: string, lib: nat)  // by code of a loaded library, or by the runtime itself (0)
    | Choose(t: nat, name: string)
    | Enter(t: nat)
    | Return(t: nat)
    | Leave(t: nat)

  const START := State(IDLE, [], map[], map[])

  function Count(s: State, o: nat): int {
    if o in s.inflight then s.inflight[o] else 0
  }

  /** Nobody holds the shared lock. */
  ghost predicate LockFree(s: State) {
    forall t <- s.threads :: !s.threads[t].Choosing?
  }

  /** Steps of the manager that take the writers' lock exclusively. */
  predicate Exclusive(e: Event) {
    e.MakeOwner? || e.Activate? || e.Deactivate? || e.RemoveOwner? || e.BeginStart? || e.Retire? || e.BeginUnload?
  }

  /** Code that has been given the host's interface and is still there: the runtime's own, and that of any
      open library from createPlugin on, in whatever function or thread of its. */
  ghost predicate CodeLoaded(m: Manager, lib: nat) {
    lib == 0 || (lib in Held(m) && !((m.At(Opened) || m.At(Owned)) && m.control.lib == lib))
  }

  /** A registration is attributed to the active owner, if the host knows it. */
  function NewReg(m: Manager, prefix: string, lib: nat): Reg {
    Reg(prefix, lib, if m.active in m.owners then m.active else 0)
  }

  ghost predicate Enabled(s: State, a: Action) {
    match a
    case Manage(e) =>
      && Next(s.m, e).Some? && (Exclusive(e) ==> LockFree(s))
      && (e.Quiesce? ==> s.m.control.owner !in s.m.owners || Count(s, s.m.control.owner) <= 0)
    case Register(_, lib) => LockFree(s) && CodeLoaded(s.m, lib)
    case Choose(t, name) => t !in s.threads
    case Enter(t) => t in s.threads && s.threads[t].Choosing?
    case Return(t) => t in s.threads && s.threads[t].Inside?
    case Leave(t) => t in s.threads && s.threads[t].Leaving?
  }

  /** The writers after one step of the manager: retiring an owner the host knows drops its own. */
  ghost function WritersAfter(s: State, e: Event): seq<Reg>
    requires Next(s.m, e).Some?
  {
    var n := Next(s.m, e).value;
    if (e.Retire? || e.BeginUnload?) && n.control.Busy? && n.control.owner in s.m.owners
    then Retired(s.writers, n.control.owner) else s.writers
  }

  ghost function Step(s: State, a: Action): State
    requires Enabled(s, a)
  {
    match a
    case Manage(e) => s.(m := Next(s.m, e).value, writers := WritersAfter(s, e))
    case Register(prefix, lib) => s.(writers := Registered(s.writers, NewReg(s.m, prefix, lib)))
    case Choose(t, name) =>
      var r := Route(s.writers, name);
      if r.Some? then s.(threads := s.threads[t := Choosing(r.value)]) else s
    case Enter(t) =>
      var reg := s.threads[t].reg;
      s.(threads := s.threads[t := Inside(reg)], inflight := s.inflight[reg.owner := Count(s, reg.owner) + 1])
    case Return(t) => s.(threads := s.threads[t := Leaving(s.threads[t].reg)])
    case Leave(t) =>
      var o := s.threads[t].reg.owner;
      s.(threads := s.threads - {t}, inflight := s.inflight[o := Count(s, o) - 1])
  }

  ghost predicate CanRun(s: State, acts: seq<Action>)
    decreases |acts|
  {
    acts == [] || (Enabled(s, acts[0]) && CanRun(Step(s, acts[0]), acts[1..]))
  }

  ghost function Run(s: State, acts: seq<Action>): State
    requires CanRun(s, acts)
    decreases |acts|
  {
    if acts == [] then s else Run(Step(s, acts[0]), acts[1..])
  }

  /** The plugin has the word: a function of its is called, or has just been, with its owner active. */
  predicate HasWord(m: Manager, lib: nat) {
    && m.control.Busy? && m.control.lib == lib
    && (m.control.stage.Creating? || m.control.stage.Initing? || m.control.stage.Initialized? || m.control.stage.Discarding?
        || m.control.stage.Discarded? || m.control.stage.Starting? || m.control.stage.StartDone?)
  }

  /** What one library has to keep to: it registers writers only while it has the word, and its createPlugin
      leaves none behind when it fails.  It says nothing of any other library. */
  ghost predicate Polite(s: State, a: Action, lib: nat) {
    && (a.Register? && a.lib == lib ==> HasWord(s.m, lib))
    && (a == Manage(CreateReturns(false)) && s.m.control.Busy? && s.m.control.lib == lib ==> !Registers(s, lib))
  }

  ghost predicate Registers(s: State, lib: nat) {
    exists reg <- s.writers :: reg.lib == lib
  }

  ghost predicate PoliteRun(s: State, acts: seq<Action>, lib: nat)
    requires CanRun(s, acts)
    decreases |acts|
  {
    acts == [] || (Polite(s, acts[0], lib) && PoliteRun(Step(s, acts[0]), acts[1..], lib))
  }

  // ---- The invariant ----

  predicate RegStage(stage: Stage) {
    stage.Creating? || stage.Initing? || stage.Initialized? || stage.Discarding? || stage.Discarded?
    || stage.Retiring? || stage.Starting? || stage.StartDone? || stage.Stopping?
  }

  ghost predicate RowOf(table: seq<Loaded>, lib: nat, owner: nat) {
    exists e <- table :: e.lib == lib && e.owner == owner
  }

  /** May a plugin have registered writers now? */
  ghost predicate MayRegister(m: Manager, lib: nat, owner: nat) {
    if m.control.Busy? && m.control.lib == lib then m.control.owner == owner && RegStage(m.control.stage)
    else RowOf(m.table, lib, owner)
  }

  /** Its writers are gone, but calls may still be in flight. */
  ghost predicate Drains(m: Manager, lib: nat, owner: nat) {
    m.At(Draining) && m.control.lib == lib && m.control.owner == owner
  }

  /** What holds of the registrations whatever plugins do. */
  ghost predicate RegsOk(s: State) {
    && Distinct(s.writers)
    && (s.m.At(Draining) ==> forall reg <- s.writers :: reg.owner != s.m.control.owner)
  }

  /** Where the calls into a library may come from. */
  ghost predicate CallOk(s: State, reg: Reg) {
    Drains(s.m, reg.lib, reg.owner) || (reg in s.writers && MayRegister(s.m, reg.lib, reg.owner))
  }

  /** One library's writers and calls, if it has been polite. */
  ghost predicate LibOk(s: State, lib: nat) {
    && (forall reg <- s.writers :: reg.lib == lib ==> MayRegister(s.m, lib, reg.owner))
    && (forall t <- s.threads :: s.threads[t].reg.lib == lib && !s.threads[t].Choosing? ==> CallOk(s, s.threads[t].reg))
  }

  ghost function Inflight(threads: map<nat, Thread>, o: nat): set<nat> {
    set t | t in threads && !threads[t].Choosing? && threads[t].reg.owner == o
  }

  ghost predicate CountsOk(s: State) {
    forall o :: Count(s, o) == |Inflight(s.threads, o)|
  }

  /** The invariant of every run: the in-flight counts are the calls in progress, and who still holds the
      lock holds a registration. */
  ghost predicate Inv(s: State) {
    && ManagerInv(s.m) && RegsOk(s) && CountsOk(s)
    && forall t <- s.threads :: s.threads[t].Choosing? ==> s.threads[t].reg in s.writers
  }

  // ---- Counting ----

  /** Does this thread count for that owner? */
  function Counted(th: Thread, o: nat): int {
    if !th.Choosing? && th.reg.owner == o then 1 else 0
  }

  lemma InflightPut(threads: map<nat, Thread>, t: nat, th: Thread, o: nat)
    ensures Inflight(threads[t := th], o) ==
      (Inflight(threads, o) - {t}) + if !th.Choosing? && th.reg.owner == o then {t} else {}
  {}

  lemma PutCount(threads: map<nat, Thread>, t: nat, th: Thread, o: nat)
    ensures |Inflight(threads[t := th], o)| ==
      |Inflight(threads, o)| + Counted(th, o) - if t in threads then Counted(threads[t], o) else 0
  {
    InflightPut(threads, t, th, o);
    WithoutOne(Inflight(threads, o), t);
  }

  lemma WithoutOne(s: set<nat>, t: nat)
    ensures |s - {t}| == |s| - if t in s then 1 else 0
  {
    if t !in s {
      assert s - {t} == s;
    }
  }

  lemma DropCount(threads: map<nat, Thread>, t: nat, o: nat)
    requires t in threads
    ensures |Inflight(threads - {t}, o)| == |Inflight(threads, o)| - Counted(threads[t], o)
  {
    assert Inflight(threads - {t}, o) == Inflight(threads, o) - {t};
  }

  lemma TrafficCounts(s: State, a: Action)
    requires CountsOk(s) && Enabled(s, a) && (a.Choose? || a.Enter? || a.Return? || a.Leave?)
    ensures CountsOk(Step(s, a))
  {
    var n := Step(s, a);
    forall o
      ensures Count(n, o) == |Inflight(n.threads, o)|
    {
      assert Count(s, o) == |Inflight(s.threads, o)|;
      if a.Leave? {
        DropCount(s.threads, a.t, o);
      } else if n != s {
        PutCount(s.threads, a.t, n.threads[a.t], o);
      }
    }
  }

  lemma TrafficKeeps(s: State, a: Action)
    requires Inv(s) && Enabled(s, a) && (a.Choose? || a.Enter? || a.Return? || a.Leave?)
    ensures Inv(Step(s, a))
  {
    TrafficCounts(s, a);
  }

  lemma RegisterKeeps(s: State, prefix: string, lib: nat)
    requires Inv(s) && Enabled(s, Register(prefix, lib))
    ensures Inv(Step(s, Register(prefix, lib)))
  {
    RegisteredDistinct(s.writers, NewReg(s.m, prefix, lib));
    SameCounts(s, Step(s, Register(prefix, lib)));
  }

  lemma SameCounts(s: State, n: State)
    requires CountsOk(s) && n.inflight == s.inflight && n.threads == s.threads
    ensures CountsOk(n)
  {
    forall o
      ensures Count(n, o) == |Inflight(n.threads, o)|
    {
      assert Count(s, o) == |Inflight(s.threads, o)|;
    }
  }

  // ---- Permissions across the manager's steps ----

  lemma RowOfMark(m: Manager, started: bool, lib: nat, owner: nat)
    requires HasRow(m) && RowOf(m.table, lib, owner)
    ensures RowOf(m.Mark(started).table, lib, owner)
  {
    var e :| e in m.table && e.lib == lib && e.owner == owner;
    var k :| 0 <= k < |m.table| && m.table[k] == e;
    assert m.Mark(started).table[k] in m.Mark(started).table;
  }

  lemma RowAt(m: Manager, i: nat, lib: nat, owner: nat)
    requires DistinctRows(m.table) && i < |m.table| && m.table[i].lib == lib
    ensures RowOf(m.table, lib, owner) <==> m.table[i].owner == owner
  {
    assert m.table[i] in m.table;
    if RowOf(m.table, lib, owner) {
      var e :| e in m.table && e.lib == lib && e.owner == owner;
      var k :| 0 <= k < |m.table| && m.table[k] == e;
    }
  }

  /** The steps that end a plugin's permission to have writers. */
  ghost predicate Takes(m: Manager, e: Event, lib: nat, owner: nat) {
    && Next(m, e).Some?
    && var n := Next(m, e).value;
       || ((e.Retire? || e.BeginUnload?) && Drains(n, lib, owner))
       || (e == CreateReturns(false) && owner == m.control.owner && lib == m.control.lib)
  }

  lemma LoadedRow(m: Manager, lib: nat, owner: nat)
    requires ManagerInv(m) && MayRegister(m, lib, owner) && m.At(Initialized) && m.control.at.None?
    ensures RowOf(m.table + [Loaded(m.control.lib, m.control.owner, false)], lib, owner)
  {
    var e := Loaded(m.control.lib, m.control.owner, false);
    assert (m.table + [e])[|m.table|] == e;
    if lib != m.control.lib {
      var r :| r in m.table && r.lib == lib && r.owner == owner;
      assert r in m.table + [e];
    }
  }

  lemma ErasedRow(m: Manager, i: nat, lib: nat, owner: nat)
    requires DistinctRows(m.table) && i < |m.table| && m.table[i].lib != lib && RowOf(m.table, lib, owner)
    ensures RowOf(m.table[..i] + m.table[i + 1..], lib, owner)
  {
    RowErased(m.table, i);
    var r :| r in m.table && r.lib == lib && r.owner == owner;
    assert r in m.table[..i] + m.table[i + 1..];
  }

  lemma HeldRow(m: Manager, lib: nat, owner: nat)
    requires ManagerInv(m) && RowOf(m.table, lib, owner)
    ensures lib in Held(m) && 1 <= lib <= m.handles
  {
    var r :| r in m.table && r.lib == lib && r.owner == owner;
    assert r.lib in Libs(m.table);
  }

  lemma ReadyPermission(m: Manager, e: Event, lib: nat, owner: nat)
    requires ManagerInv(m) && m.control.Ready? && FromReady(m, e).Some? && MayRegister(m, lib, owner)
    ensures Takes(m, e, lib, owner) || MayRegister(FromReady(m, e).value, lib, owner)
  {
    HeldRow(m, lib, owner);
    if !e.Open? && m.table[e.i].lib == lib {
      RowAt(m, e.i, lib, owner);
    }
  }

  lemma LoadPermission(m: Manager, e: Event, lib: nat, owner: nat)
    requires Loads(m, e) && MayRegister(m, lib, owner)
    ensures Takes(m, e, lib, owner) || MayRegister(FromLoad(m, e).value, lib, owner)
  {
    if m.control.stage.Initialized? {
      LoadedRow(m, lib, owner);
    }
  }

  lemma RowPermission(m: Manager, e: Event, lib: nat, owner: nat)
    requires Works(m, e) && MayRegister(m, lib, owner)
    ensures Takes(m, e, lib, owner) || MayRegister(FromRow(m, e).value, lib, owner)
  {
    if lib == m.control.lib {
      RowAt(m, m.control.at.value, lib, owner);
    }
    if RowOf(m.table, lib, owner) {
      RowOfMark(m, true, lib, owner);
      RowOfMark(m, false, lib, owner);
      if lib != m.control.lib {
        ErasedRow(m, m.control.at.value, lib, owner);
      }
    }
  }

  lemma RegisterPermission(m: Manager, e: Event, lib: nat, owner: nat)
    requires ManagerInv(m) && Next(m, e).Some? && MayRegister(m, lib, owner)
    ensures Takes(m, e, lib, owner) || MayRegister(Next(m, e).value, lib, owner)
  {
    if m.control.Ready? {
      ReadyPermission(m, e, lib, owner);
    } else if m.control.at.None? {
      LoadPermission(m, e, lib, owner);
    } else {
      RowPermission(m, e, lib, owner);
    }
  }

  // ---- Every step keeps the invariant ----

  lemma DrainingStarts(m: Manager, e: Event)
    requires Next(m, e).Some?
    ensures Next(m, e).value.At(Draining) <==> e.Retire? || e.BeginUnload?
  {}

  /** Draining starts by retiring an owner the host knows. */
  lemma RetireKnown(m: Manager, e: Event)
    requires ControlOk(m) && OwnersOk(m) && Next(m, e).Some? && (e.Retire? || e.BeginUnload?)
    ensures var n := Next(m, e).value; n.control.Busy? && n.control.owner != 0 && n.control.owner in m.owners
  {
    if e.BeginUnload? {
      assert m.table[e.i] in m.table;
    }
  }

  lemma WritersAfterIs(s: State, e: Event)
    requires RegsOk(s) && ManagerInv(s.m) && Next(s.m, e).Some?
    ensures Distinct(WritersAfter(s, e)) && forall reg <- WritersAfter(s, e) :: reg in s.writers
    ensures var n := Next(s.m, e).value;
      n.At(Draining) ==> forall reg <- WritersAfter(s, e) :: reg.owner != n.control.owner
  {
    DrainingStarts(s.m, e);
    var n := Next(s.m, e).value;
    if n.At(Draining) {
      RetireKnown(s.m, e);
      WithoutIsFilter(s.writers, n.control.owner);
    }
  }

  /** Waiting ends with no call of that owner in flight. */
  lemma QuietAtLast(s: State, t: nat)
    requires Inv(s) && Enabled(s, Manage(Quiesce)) && s.m.control.owner in s.m.owners
    requires t in s.threads && !s.threads[t].Choosing?
    ensures s.threads[t].reg.owner != s.m.control.owner
  {
    var o := s.m.control.owner;
    assert Count(s, o) == |Inflight(s.threads, o)|;
    assert t in Inflight(s.threads, o) <==> s.threads[t].reg.owner == o;
  }

  /** Every step of every run keeps the invariant. */
  lemma StepKeeps(s: State, a: Action)
    requires Inv(s) && Enabled(s, a)
    ensures Inv(Step(s, a))
  {
    match a
    case Register(prefix, lib) => RegisterKeeps(s, prefix, lib);
    case Manage(e) =>
      NextKeeps(s.m, e);
      WritersAfterIs(s, e);
      SameCounts(s, Step(s, a));
    case _ => TrafficKeeps(s, a);
  }

  lemma StartInv()
    ensures Inv(START) && forall lib :: LibOk(START, lib)
  {
    assert forall o :: Inflight(START.threads, o) == {};
  }

  lemma {:induction false} RunKeeps(s: State, acts: seq<Action>)
    requires Inv(s) && CanRun(s, acts)
    ensures Inv(Run(s, acts))
    decreases |acts|
  {
    if acts != [] {
      StepKeeps(s, acts[0]);
      RunKeeps(Step(s, acts[0]), acts[1..]);
    }
  }

  // ---- What one polite library keeps ----

  lemma DrainingKept(s: State, e: Event, t: nat)
    requires Inv(s) && Enabled(s, Manage(e)) && t in s.threads && !s.threads[t].Choosing?
    ensures var reg := s.threads[t].reg;
      Drains(s.m, reg.lib, reg.owner) ==> Drains(Next(s.m, e).value, reg.lib, reg.owner)
  {
    if e.Quiesce? {
      QuietAtLast(s, t);
    }
  }

  lemma RegisteredKept(s: State, e: Event, reg: Reg)
    requires Inv(s) && Enabled(s, Manage(e)) && Polite(s, Manage(e), reg.lib)
    requires reg in s.writers && MayRegister(s.m, reg.lib, reg.owner)
    ensures var n := Step(s, Manage(e));
      && (reg in n.writers ==> MayRegister(n.m, reg.lib, reg.owner))
      && CallOk(n, reg)
  {
    var n := Step(s, Manage(e));
    RegisterPermission(s.m, e, reg.lib, reg.owner);
    if (e.Retire? || e.BeginUnload?) && n.m.control.Busy? {
      WithoutIsFilter(s.writers, n.m.control.owner);
      RetireKnown(s.m, e);
    }
  }

  lemma ManageKeepsLib(s: State, e: Event, lib: nat)
    requires Inv(s) && LibOk(s, lib) && Enabled(s, Manage(e)) && Polite(s, Manage(e), lib)
    ensures LibOk(Step(s, Manage(e)), lib)
  {
    var n := Step(s, Manage(e));
    WritersAfterIs(s, e);
    forall reg | reg in n.writers && reg.lib == lib
      ensures MayRegister(n.m, lib, reg.owner)
    {
      RegisteredKept(s, e, reg);
    }
    forall t | t in n.threads && n.threads[t].reg.lib == lib && !n.threads[t].Choosing?
      ensures CallOk(n, n.threads[t].reg)
    {
      var reg := s.threads[t].reg;
      DrainingKept(s, e, t);
      if !Drains(s.m, reg.lib, reg.owner) {
        RegisteredKept(s, e, reg);
      }
    }
  }

  lemma WordIsPermission(m: Manager, lib: nat)
    requires ManagerInv(m) && HasWord(m, lib)
    ensures m.active in m.owners && MayRegister(m, lib, m.active)
  {}

  lemma RegisterKeepsLib(s: State, prefix: string, other: nat, lib: nat)
    requires Inv(s) && LibOk(s, lib) && Enabled(s, Register(prefix, other)) && Polite(s, Register(prefix, other), lib)
    ensures LibOk(Step(s, Register(prefix, other)), lib)
  {
    RegisteredDistinct(s.writers, NewReg(s.m, prefix, other));
    if other == lib {
      WordIsPermission(s.m, lib);
    }
  }

  lemma TrafficKeepsLib(s: State, a: Action, lib: nat)
    requires Inv(s) && LibOk(s, lib) && Enabled(s, a) && (a.Choose? || a.Enter? || a.Return? || a.Leave?)
    ensures LibOk(Step(s, a), lib)
  {}

  lemma StepKeepsLib(s: State, a: Action, lib: nat)
    requires Inv(s) && LibOk(s, lib) && Enabled(s, a) && Polite(s, a, lib)
    ensures LibOk(Step(s, a), lib)
  {
    match a
    case Manage(e) => ManageKeepsLib(s, e, lib);
    case Register(prefix, other) => RegisterKeepsLib(s, prefix, other, lib);
    case _ => TrafficKeepsLib(s, a, lib);
  }

  lemma {:induction false} RunKeepsLib(s: State, acts: seq<Action>, lib: nat)
    requires Inv(s) && LibOk(s, lib) && CanRun(s, acts) && PoliteRun(s, acts, lib)
    ensures LibOk(Run(s, acts), lib)
    decreases |acts|
  {
    if acts != [] {
      StepKeeps(s, acts[0]);
      StepKeepsLib(s, acts[0], lib);
      RunKeepsLib(Step(s, acts[0]), acts[1..], lib);
    }
  }

  // ---- Safety ----

  /** Neither a registration nor a thread leads into that library. */
  ghost predicate Free(s: State, lib: nat) {
    !Registers(s, lib) && forall t <- s.threads :: s.threads[t].reg.lib != lib
  }

  lemma NotClosed(m: Manager, lib: nat, owner: nat)
    requires ManagerInv(m) && (MayRegister(m, lib, owner) || Drains(m, lib, owner))
    ensures lib !in m.closed
  {
    if !(m.control.Busy? && m.control.lib == lib) {
      HeldRow(m, lib, owner);
    }
  }

  lemma ClosedIsFree(s: State, lib: nat)
    requires Inv(s) && LibOk(s, lib)
    ensures lib in s.m.closed ==> Free(s, lib)
  {
    forall reg | reg in s.writers && reg.lib == lib
      ensures lib !in s.m.closed
    {
      NotClosed(s.m, lib, reg.owner);
    }
    forall t | t in s.threads && s.threads[t].reg.lib == lib
      ensures lib !in s.m.closed
    {
      var reg := s.threads[t].reg;
      assert s.threads[t].Choosing? ==> reg in s.writers;
      NotClosed(s.m, lib, reg.owner);
    }
  }

  /** Over every interleaving: once the library of a polite plugin is closed, none of its handlers is
      registered, chosen or running, whatever the other plugins do. */
  lemma NoCallIntoClosedLibrary(acts: seq<Action>, lib: nat)
    requires CanRun(START, acts) && PoliteRun(START, acts, lib)
    ensures var s := Run(START, acts); lib in s.m.closed ==> Free(s, lib)
  {
    StartInv();
    RunKeeps(START, acts);
    RunKeepsLib(START, acts, lib);
    ClosedIsFree(Run(START, acts), lib);
  }

  /** When unloading calls stop or destroy of a polite plugin, no thread is in it, or about to enter it. */
  lemma UnloadIsQuiet(acts: seq<Action>, lib: nat)
    requires CanRun(START, acts) && PoliteRun(START, acts, lib)
    ensures var s := Run(START, acts);
      (s.m.At(Quiet) || s.m.At(Ending) || s.m.At(Destroying)) && s.m.control.lib == lib ==> Free(s, lib)
  {
    StartInv();
    RunKeeps(START, acts);
    RunKeepsLib(START, acts, lib);
    var s := Run(START, acts);
    if (s.m.At(Quiet) || s.m.At(Ending) || s.m.At(Destroying)) && s.m.control.lib == lib {
      assert forall owner :: !MayRegister(s.m, lib, owner);
      assert forall t <- s.threads :: s.threads[t].Choosing? ==> s.threads[t].reg in s.writers;
    }
  }

  /** A plugin that registers writers inside its own init and start only. */
  ghost predicate Disciplined(s: State, acts: seq<Action>, lib: nat)
    requires CanRun(s, acts)
    decreases |acts|
  {
    acts == [] || ((acts[0].Register? && acts[0].lib == lib ==> HasWord(s.m, lib) && (s.m.At(Initing) || s.m.At(Starting)))
                   && Disciplined(Step(s, acts[0]), acts[1..], lib))
  }

  /** Nothing registered yet by a plugin that is being created. */
  ghost predicate CreatingClean(s: State, lib: nat) {
    s.m.At(Creating) && s.m.control.lib == lib ==> !Registers(s, lib)
  }

  lemma CreatingStarts(m: Manager, e: Event)
    requires Next(m, e).Some? && Next(m, e).value.At(Creating)
    ensures e.Activate? && m.At(Owned) && Next(m, e).value.control.lib == m.control.lib
  {}

  lemma CleanKept(s: State, a: Action, lib: nat)
    requires Inv(s) && LibOk(s, lib) && CreatingClean(s, lib) && Enabled(s, a)
    requires a.Register? && a.lib == lib ==> s.m.At(Initing) || s.m.At(Starting)
    ensures CreatingClean(Step(s, a), lib)
  {
    match a
    case Manage(e) =>
      WritersAfterIs(s, e);
      if Next(s.m, e).value.At(Creating) {
        CreatingStarts(s.m, e);
      }
    case Register(prefix, other) => RegisteredDistinct(s.writers, NewReg(s.m, prefix, other));
    case _ =>
  }

  lemma {:induction false} DisciplinedIsPolite(s: State, acts: seq<Action>, lib: nat)
    requires Inv(s) && LibOk(s, lib) && CreatingClean(s, lib) && CanRun(s, acts) && Disciplined(s, acts, lib)
    ensures PoliteRun(s, acts, lib)
    decreases |acts|
  {
    if acts != [] {
      assert Polite(s, acts[0], lib);
      StepKeeps(s, acts[0]);
      StepKeepsLib(s, acts[0], lib);
      CleanKept(s, acts[0], lib);
      DisciplinedIsPolite(Step(s, acts[0]), acts[1..], lib);
    }
  }

  /** So a plugin that registers writers in init and start only is never called once its library is closed,
      nor while unloading stops or destroys it, whatever fails, whatever the other plugins do, and however
      writes, loads, reloads and unloads interleave. */
  lemma DisciplinedPluginsAreSafe(acts: seq<Action>, lib: nat)
    requires CanRun(START, acts) && Disciplined(START, acts, lib)
    ensures var s := Run(START, acts);
      && (lib in s.m.closed ==> Free(s, lib))
      && ((s.m.At(Quiet) || s.m.At(Ending) || s.m.At(Destroying)) && s.m.control.lib == lib ==> Free(s, lib))
  {
    StartInv();
    DisciplinedIsPolite(START, acts, lib);
    NoCallIntoClosedLibrary(acts, lib);
    UnloadIsQuiet(acts, lib);
  }

  // ---- Draining ----

  /** Once its writers are retired, an owner's count of calls in flight never rises. */
  lemma DrainingOnlyFalls(s: State, a: Action)
    requires Inv(s) && s.m.At(Draining) && Enabled(s, a)
    ensures Count(Step(s, a), s.m.control.owner) <= Count(s, s.m.control.owner)
  {
    if a.Enter? {
      assert s.threads[a.t].reg in s.writers;
    }
  }

  lemma {:induction false} RunAppend(s: State, a: seq<Action>, b: seq<Action>, lib: nat)
    requires CanRun(s, a) && CanRun(Run(s, a), b)
    ensures CanRun(s, a + b) && Run(s, a + b) == Run(Run(s, a), b)
    ensures PoliteRun(s, a, lib) && PoliteRun(Run(s, a), b, lib) ==> PoliteRun(s, a + b, lib)
    ensures Untouched(a) && Untouched(b) ==> Untouched(a + b)
    decreases |a|
  {
    if a == [] {
      assert a + b == b;
    } else {
      RunAppend(Step(s, a[0]), a[1..], b, lib);
      assert (a + b)[0] == a[0] && (a + b)[1..] == a[1..] + b;
    }
  }

  /** The manager does nothing meanwhile. */
  ghost predicate Untouched(acts: seq<Action>) {
    forall a <- acts :: !a.Manage?
  }

  /** Waiting always can end: the calls in flight only have to return. */
  lemma {:induction false} DrainingEnds(s: State) returns (acts: seq<Action>)
    requires Inv(s) && s.m.At(Draining)
    ensures CanRun(s, acts) && Untouched(acts) && (forall a <- acts :: a.Return? || a.Leave?)
    ensures Enabled(Run(s, acts), Manage(Quiesce))
    decreases |Inflight(s.threads, s.m.control.owner)|
  {
    var o := s.m.control.owner;
    assert Count(s, o) == |Inflight(s.threads, o)|;
    if Inflight(s.threads, o) == {} {
      acts := [];
    } else {
      var t :| t in Inflight(s.threads, o);
      var first := OneLeaves(s, t);
      var rest := DrainingEnds(Run(s, first));
      RunAppend(s, first, rest, 0);
      acts := first + rest;
    }
  }

  lemma OneLeaves(s: State, t: nat) returns (acts: seq<Action>)
    requires Inv(s) && t in s.threads && !s.threads[t].Choosing?
    ensures CanRun(s, acts) && Untouched(acts) && (forall a <- acts :: a.Return? || a.Leave?)
    ensures Inv(Run(s, acts)) && Run(s, acts).m == s.m
    ensures |Inflight(Run(s, acts).threads, s.threads[t].reg.owner)| < |Inflight(s.threads, s.threads[t].reg.owner)|
  {
    var o := s.threads[t].reg.owner;
    if s.threads[t].Leaving? {
      DropCount(s.threads, t, o);
      StepKeeps(s, Leave(t));
      acts := [Leave(t)];
      assert Run(s, acts) == Step(s, Leave(t));
    } else {
      var n := Step(s, Return(t));
      StepKeeps(s, Return(t));
      PutCount(s.threads, t, n.threads[t], o);
      DropCount(n.threads, t, o);
      StepKeeps(n, Leave(t));
      acts := [Return(t), Leave(t)];
      assert acts[1..] == [Leave(t)] && Run(n, [Leave(t)]) == Step(n, Leave(t));
    }
  }

  // ---- Who can still get in, exactly ----

  ghost function Choosers(s: State): set<nat> {
    set t | t in s.threads && s.threads[t].Choosing?
  }

  /** The shared lock is released sooner or later. */
  lemma {:induction false} LockIsReleased(s: State) returns (acts: seq<Action>)
    ensures CanRun(s, acts) && (forall lib :: PoliteRun(s, acts, lib)) && Untouched(acts)
    ensures var n := Run(s, acts); LockFree(n) && n.m == s.m && n.writers == s.writers
    decreases |Choosers(s)|
  {
    acts := [];
    if t :| t in Choosers(s) {
      var n := Step(s, Enter(t));
      assert Choosers(n) == Choosers(s) - {t};
      var rest := LockIsReleased(n);
      acts := [Enter(t)] + rest;
      assert acts[1..] == rest;
    } else {
      forall t | t in s.threads
        ensures !s.threads[t].Choosing?
      {
        assert t !in Choosers(s);
      }
    }
  }

  lemma {:induction false} FreshId(ids: set<nat>) returns (unused: nat)
    ensures forall t <- ids :: t < unused
  {
    unused := 0;
    if t :| t in ids {
      unused := FreshId(ids - {t});
      unused := if unused <= t then t + 1 else unused;
      assert forall x <- ids :: x == t || x in ids - {t};
    }
  }

  /** Some thread is inside a handler of that library. */
  ghost predicate RunsIn(s: State, lib: nat) {
    exists t <- s.threads :: s.threads[t].Inside? && s.threads[t].reg.lib == lib
  }

  /** A registration leads into that library, or a thread has chosen one that does or is inside. */
  ghost predicate Leads(s: State, lib: nat) {
    Registers(s, lib) || exists t <- s.threads :: !s.threads[t].Leaving? && s.threads[t].reg.lib == lib
  }

  /** That library registers nothing more. */
  ghost predicate Silent(acts: seq<Action>, lib: nat) {
    forall a <- acts :: a.Register? ==> a.lib != lib
  }

  /** A write whose name is exactly a registered prefix enters that registration's handler. */
  lemma WriteEnters(s: State, reg: Reg) returns (acts: seq<Action>)
    requires Distinct(s.writers) && reg in s.writers
    ensures CanRun(s, acts) && (forall lib :: PoliteRun(s, acts, lib) && Silent(acts, lib)) && Untouched(acts)
    ensures RunsIn(Run(s, acts), reg.lib) && Run(s, acts).m == s.m
  {
    BestIsLongest(s.writers, reg.prefix, reg);
    var t := FreshId(s.threads.Keys);
    var chosen := Step(s, Choose(t, reg.prefix));
    var inside := Step(chosen, Enter(t));
    acts := [Choose(t, reg.prefix), Enter(t)];
    assert acts[1..] == [Enter(t)] && Run(chosen, [Enter(t)]) == inside;
    assert inside.threads[t] == Inside(reg);
    forall lib
      ensures PoliteRun(s, acts, lib)
    {
      assert PoliteRun(chosen, acts[1..], lib) && Polite(s, acts[0], lib);
    }
  }

  /** Whatever leads into a library is taken. */
  lemma LeadsIn(s: State, lib: nat) returns (acts: seq<Action>)
    requires Distinct(s.writers) && Leads(s, lib)
    ensures CanRun(s, acts) && PoliteRun(s, acts, lib) && Silent(acts, lib) && Untouched(acts)
    ensures RunsIn(Run(s, acts), lib) && Run(s, acts).m == s.m
  {
    if reg :| reg in s.writers && reg.lib == lib {
      acts := WriteEnters(s, reg);
    } else {
      var t :| t in s.threads && !s.threads[t].Leaving? && s.threads[t].reg.lib == lib;
      acts := if s.threads[t].Inside? then [] else [Enter(t)];
      if s.threads[t].Choosing? {
        var n := Step(s, Enter(t));
        assert n.threads[t] == Inside(s.threads[t].reg) && Run(s, acts) == n;
      }
    }
  }

  /** Nothing new leads into a library that registers nothing. */
  lemma StaysOut(s: State, a: Action, lib: nat)
    requires Inv(s) && Enabled(s, a) && !Leads(s, lib) && (a.Register? ==> a.lib != lib)
    ensures !Leads(Step(s, a), lib)
  {
    match a
    case Register(prefix, other) => RegisteredDistinct(s.writers, NewReg(s.m, prefix, other));
    case Manage(e) => WritersAfterIs(s, e);
    case _ =>
  }

  lemma {:induction false} StaysOutRun(s: State, acts: seq<Action>, lib: nat)
    requires Inv(s) && CanRun(s, acts) && !Leads(s, lib) && Silent(acts, lib)
    ensures !RunsIn(Run(s, acts), lib)
    decreases |acts|
  {
    if acts != [] {
      assert acts[0] in acts;
      StepKeeps(s, acts[0]);
      StaysOut(s, acts[0], lib);
      StaysOutRun(Step(s, acts[0]), acts[1..], lib);
    }
  }

  /** A thread can get into a library without the manager doing anything, and without the library registering
      anything more. */
  ghost predicate Enters(s: State, lib: nat) {
    exists acts :: CanRun(s, acts) && Untouched(acts) && Silent(acts, lib) && RunsIn(Run(s, acts), lib)
  }

  /** That is so exactly when a registration leads there or a thread has got past choosing one. */
  lemma EntersIff(s: State, lib: nat)
    requires Inv(s)
    ensures Enters(s, lib) <==> Leads(s, lib)
  {
    if Leads(s, lib) {
      var acts := LeadsIn(s, lib);
    } else {
      forall acts | CanRun(s, acts) && Untouched(acts) && Silent(acts, lib)
        ensures !RunsIn(Run(s, acts), lib)
      {
        StaysOutRun(s, acts, lib);
      }
    }
  }

  /** After a failed init, destroy is called with the writers still in place: a thread can be inside a
      plugin that has been polite while its destroy runs exactly when init had registered a writer, or
      destroy itself registers one. */
  lemma DestroyOverlapIff(s: State)
    requires Inv(s) && s.m.At(Discarding) && LibOk(s, s.m.control.lib)
    ensures Enters(s, s.m.control.lib) <==> Registers(s, s.m.control.lib)
    ensures forall prefix :: Enabled(s, Register(prefix, s.m.control.lib)) && !Taken(s.writers, prefix) ==>
      Enters(Step(s, Register(prefix, s.m.control.lib)), s.m.control.lib)
  {
    var lib := s.m.control.lib;
    EntersIff(s, lib);
    assert Leads(s, lib) ==> Registers(s, lib);
    forall prefix | Enabled(s, Register(prefix, lib)) && !Taken(s.writers, prefix)
      ensures Enters(Step(s, Register(prefix, lib)), lib)
    {
      RegisteringLeads(s, prefix, lib);
    }
  }

  /** A library that registers a free prefix can be entered from then on. */
  lemma RegisteringLeads(s: State, prefix: string, lib: nat)
    requires Inv(s) && Enabled(s, Register(prefix, lib)) && !Taken(s.writers, prefix)
    ensures Enters(Step(s, Register(prefix, lib)), lib)
  {
    var n, reg := Step(s, Register(prefix, lib)), NewReg(s.m, prefix, lib);
    RegisteredDistinct(s.writers, reg);
    StepKeeps(s, Register(prefix, lib));
    assert reg in n.writers;
    EntersIff(n, lib);
  }

  // ---- Closing ----

  /** No thread ever gets into that library again, whatever anybody does. */
  ghost predicate NeverAgain(s: State, lib: nat) {
    forall acts :: CanRun(s, acts) ==> !RunsIn(Run(s, acts), lib)
  }

  lemma ClosedGrows(m: Manager, e: Event)
    requires Next(m, e).Some?
    ensures m.closed <= Next(m, e).value.closed
  {}

  lemma ClosedNotLoaded(m: Manager, lib: nat)
    requires HandlesOk(m) && lib in m.closed
    ensures !CodeLoaded(m, lib)
  {}

  lemma ClosedStays(s: State, a: Action, lib: nat)
    requires Inv(s) && Enabled(s, a) && lib in s.m.closed
    ensures lib in Step(s, a).m.closed && (a.Register? ==> a.lib != lib)
  {
    ClosedNotLoaded(s.m, lib);
    if a.Manage? {
      ClosedGrows(s.m, a.e);
    }
  }

  lemma {:induction false} ClosedRun(s: State, acts: seq<Action>, lib: nat)
    requires Inv(s) && CanRun(s, acts) && lib in s.m.closed && !Leads(s, lib)
    ensures !RunsIn(Run(s, acts), lib)
    decreases |acts|
  {
    if acts != [] {
      StepKeeps(s, acts[0]);
      ClosedStays(s, acts[0], lib);
      StaysOut(s, acts[0], lib);
      ClosedRun(Step(s, acts[0]), acts[1..], lib);
    }
  }

  lemma CloseIs(s: State)
    requires Enabled(s, Manage(Close))
    ensures var closed := Step(s, Manage(Close));
      s.m.control.Busy? && s.m.control.lib in closed.m.closed && closed.writers == s.writers && closed.threads == s.threads
  {
    var closed := Step(s, Manage(Close));
    assert closed.m.closed[|s.m.closed|] == s.m.control.lib;
  }

  lemma NeverAgainIff(s: State, lib: nat)
    requires Inv(s) && lib in s.m.closed
    ensures NeverAgain(s, lib) <==> !Leads(s, lib)
  {
    if Leads(s, lib) {
      var acts := LeadsIn(s, lib);
    } else {
      forall acts | CanRun(s, acts)
        ensures !RunsIn(Run(s, acts), lib)
      {
        ClosedRun(s, acts, lib);
      }
    }
  }

  /** Closing a library is safe, over every continuation, exactly when at that moment no registration leads
      into it and no thread has chosen one that does or is inside. */
  lemma CloseSafeIff(s: State)
    requires Inv(s) && Enabled(s, Manage(Close))
    ensures s.m.control.Busy?
    ensures NeverAgain(Step(s, Manage(Close)), s.m.control.lib) <==> !Leads(s, s.m.control.lib)
  {
    CloseIs(s);
    StepKeeps(s, Manage(Close));
    NeverAgainIff(Step(s, Manage(Close)), s.m.control.lib);
  }

  /** A polite plugin's library is always closed safely. */
  lemma PoliteClosesSafely(s: State)
    requires Inv(s) && Enabled(s, Manage(Close)) && LibOk(s, s.m.control.lib)
    ensures NeverAgain(Step(s, Manage(Close)), s.m.control.lib)
  {
    CloseSafeIff(s);
  }

  // ---- A createPlugin that fails ----

  lemma RefusedCloses(s: State) returns (acts: seq<Action>)
    requires LockFree(s) && s.m.At(Refused) && s.m.control.at.None? && s.m.control.lib in s.m.calls
    ensures CanRun(s, acts) && forall lib :: PoliteRun(s, acts, lib)
    ensures var n := Run(s, acts); n.writers == s.writers && s.m.control.lib in n.m.closed
  {
    RefusedNext(s.m);
    var s1 := Step(s, Manage(Deactivate));
    var s2 := Step(s1, Manage(RemoveOwner));
    var s3 := Step(s2, Manage(Close));
    acts := [Manage(Deactivate), Manage(RemoveOwner), Manage(Close)];
    assert acts[1..] == [Manage(RemoveOwner), Manage(Close)] && acts[1..][1..] == [Manage(Close)];
    assert Run(s2, [Manage(Close)]) == s3;
  }

  /** What the manager does after a createPlugin that failed. */
  lemma RefusedNext(m: Manager)
    requires m.At(Refused) && m.control.at.None? && m.control.lib in m.calls
    ensures Next(m, Deactivate).Some?
    ensures Next(Next(m, Deactivate).value, RemoveOwner).Some?
    ensures var m2 := Next(Next(m, Deactivate).value, RemoveOwner).value;
      Next(m2, Close).Some? && m.control.lib in Next(m2, Close).value.closed
  {
    var m2 := Next(Next(m, Deactivate).value, RemoveOwner).value;
    assert Next(m2, Close).value.closed[|m.closed|] == m.control.lib;
  }

  /** A createPlugin that fails after registering a writer can be followed by a call into its closed
      library. */
  lemma LeftoverIsCalled(s: State, reg: Reg) returns (acts: seq<Action>)
    requires Distinct(s.writers) && s.m.At(Refused) && s.m.control.at.None? && s.m.control.lib in s.m.calls
    requires reg in s.writers && reg.lib == s.m.control.lib
    ensures CanRun(s, acts) && PoliteRun(s, acts, reg.lib)
    ensures reg.lib in Run(s, acts).m.closed && RunsIn(Run(s, acts), reg.lib)
  {
    var a := LockIsReleased(s);
    var b := RefusedCloses(Run(s, a));
    RunAppend(s, a, b, reg.lib);
    var c := WriteEnters(Run(s, a + b), reg);
    RunAppend(s, a + b, c, reg.lib);
    acts := a + b + c;
  }

  /** No continuation in which this library is polite calls into it once it is closed. */
  ghost predicate SafeFrom(s: State, lib: nat) {
    forall acts :: CanRun(s, acts) && PoliteRun(s, acts, lib) ==> !(lib in Run(s, acts).m.closed && RunsIn(Run(s, acts), lib))
  }

  lemma PoliteIsSafe(s: State, lib: nat)
    requires Inv(s) && LibOk(s, lib)
    ensures SafeFrom(s, lib)
  {
    forall acts | CanRun(s, acts) && PoliteRun(s, acts, lib)
      ensures !(lib in Run(s, acts).m.closed && RunsIn(Run(s, acts), lib))
    {
      RunKeeps(s, acts);
      RunKeepsLib(s, acts, lib);
      ClosedIsFree(Run(s, acts), lib);
    }
  }

  /** What a createPlugin failure does to a library that has been polite until then: every continuation in
      which it still is stays out of it once it is closed, exactly when the failed call left no writer. */
  lemma CreateFailureSafeIff(s: State)
    requires Inv(s) && Enabled(s, Manage(CreateReturns(false))) && LibOk(s, s.m.control.lib)
    ensures SafeFrom(Step(s, Manage(CreateReturns(false))), s.m.control.lib) <==> !Registers(s, s.m.control.lib)
  {
    var lib, failed := s.m.control.lib, Step(s, Manage(CreateReturns(false)));
    if reg :| reg in s.writers && reg.lib == lib {
      var acts := LeftoverIsCalled(failed, reg);
      assert CanRun(failed, acts) && PoliteRun(failed, acts, lib) && RunsIn(Run(failed, acts), lib);
    } else {
      StepKeeps(s, Manage(CreateReturns(false)));
      StepKeepsLib(s, Manage(CreateReturns(false)), lib);
      PoliteIsSafe(failed, lib);
    }
  }

  // ---- All four failures do happen ----

  lemma RunMore(acts: seq<Action>, a: Action)
    requires CanRun(START, acts) && Enabled(Run(START, acts), a)
    ensures CanRun(START, acts + [a]) && Run(START, acts + [a]) == Step(Run(START, acts), a)
  {
    var n := Run(START, acts);
    assert [a][1..] == [] && Run(n, [a]) == Step(n, a);
    RunAppend(START, acts, [a], 0);
  }

  lemma Joined(acts: seq<Action>, more: seq<Action>)
    requires CanRun(START, acts) && CanRun(Run(START, acts), more)
    ensures CanRun(START, acts + more) && Run(START, acts + more) == Run(Run(START, acts), more)
  {
    RunAppend(START, acts, more, 0);
  }

  /** Loading as far as createPlugin. */
  lemma ReachesCreating() returns (acts: seq<Action>)
    ensures CanRun(START, acts)
    ensures var s := Run(START, acts);
      && s.m.control == Busy(None, 1, 1, Creating) && s.m.calls == map[1 := []] && s.m.active == 1 && 1 in s.m.owners
      && s.m.table == [] && s.writers == [] && s.threads == map[] && s.inflight == map[]
  {
    acts := [];
    RunMore(acts, Manage(Open));
    acts := acts + [Manage(Open)];
    RunMore(acts, Manage(MakeOwner));
    acts := acts + [Manage(MakeOwner)];
    RunMore(acts, Manage(Activate));
    acts := acts + [Manage(Activate)];
  }

  /** One registration more, by code that may. */
  lemma RunRegisters(acts: seq<Action>, prefix: string, lib: nat) returns (more: seq<Action>, reg: Reg)
    requires CanRun(START, acts)
    requires var s := Run(START, acts); s.threads == map[] && s.writers == [] && CodeLoaded(s.m, lib)
    ensures CanRun(START, more) && reg.lib == lib && reg.prefix == prefix
    ensures Run(START, more) == Run(START, acts).(writers := [reg])
  {
    reg := NewReg(Run(START, acts).m, prefix, lib);
    RunMore(acts, Register(prefix, lib));
    more := acts + [Register(prefix, lib)];
    assert Run(START, more).writers == [] + [reg];
  }

  /** A plugin that registers a writer in createPlugin and then fails is called after its library has
      been closed. */
  lemma CreateFailureHappens(prefix: string) returns (acts: seq<Action>, lib: nat)
    ensures CanRun(START, acts) && lib in Run(START, acts).m.closed && RunsIn(Run(START, acts), lib)
  {
    acts := ReachesCreating();
    var reg;
    acts, reg := RunRegisters(acts, prefix, 1);
    RunMore(acts, Manage(CreateReturns(false)));
    acts := acts + [Manage(CreateReturns(false))];
    assert reg in Run(START, acts).writers;
    var more := LeftoverIsCalled(Run(START, acts), reg);
    Joined(acts, more);
    acts, lib := acts + more, 1;
  }

  lemma ReachesIniting() returns (acts: seq<Action>)
    ensures CanRun(START, acts)
    ensures var s := Run(START, acts);
      && s.m.control == Busy(None, 1, 1, Initing) && s.m.calls.Keys == {1} && s.m.active == 1 && 1 in s.m.owners
      && s.m.table == [] && s.writers == [] && s.threads == map[] && s.inflight == map[]
  {
    acts := ReachesCreating();
    RunMore(acts, Manage(CreateReturns(true)));
    acts := acts + [Manage(CreateReturns(true))];
  }

  /** A plugin that registers a writer in init and then fails is called while destroy runs. */
  lemma DestroyOverlapHappens(prefix: string) returns (acts: seq<Action>)
    ensures CanRun(START, acts)
    ensures var s := Run(START, acts); s.m.At(Discarding) && RunsIn(s, s.m.control.lib)
  {
    acts := ReachesIniting();
    var reg;
    acts, reg := RunRegisters(acts, prefix, 1);
    RunMore(acts, Manage(InitReturns(false)));
    acts := acts + [Manage(InitReturns(false))];
    assert reg in Run(START, acts).writers;
    var more := WriteEnters(Run(START, acts), reg);
    Joined(acts, more);
    acts := acts + more;
  }

  /** So is one whose init registered nothing, if its destroy registers a writer. */
  lemma DestroyRegistersHappens(prefix: string) returns (before: seq<Action>, acts: seq<Action>)
    ensures CanRun(START, before) && Run(START, before).m.At(Discarding) && Run(START, before).writers == []
    ensures CanRun(Run(START, before), acts) && Untouched(acts)
    ensures var s := Run(Run(START, before), acts); s.m.At(Discarding) && RunsIn(s, s.m.control.lib)
  {
    before := ReachesIniting();
    RunMore(before, Manage(InitReturns(false)));
    before := before + [Manage(InitReturns(false))];
    var s := Run(START, before);
    var after, reg := RunRegisters(before, prefix, 1);
    var n := Step(s, Register(prefix, 1));
    assert n.writers == [] + [NewReg(s.m, prefix, 1)] && NewReg(s.m, prefix, 1) in n.writers;
    var more := WriteEnters(n, NewReg(s.m, prefix, 1));
    acts := [Register(prefix, 1)] + more;
    assert acts[0] == Register(prefix, 1) && acts[1..] == more;
  }

  /** One step of the manager with no thread about and nothing to retire. */
  lemma RunManages(acts: seq<Action>, e: Event) returns (more: seq<Action>)
    requires CanRun(START, acts) && Run(START, acts).threads == map[]
    requires Next(Run(START, acts).m, e).Some? && !e.Quiesce? && !e.Retire? && !e.BeginUnload?
    ensures CanRun(START, more)
    ensures Run(START, more) == Run(START, acts).(m := Next(Run(START, acts).m, e).value)
  {
    RunMore(acts, Manage(e));
    more := acts + [Manage(e)];
  }

  /** Loaded and started. */
  lemma ReachesStarted() returns (acts: seq<Action>)
    ensures CanRun(START, acts)
    ensures var s := Run(START, acts);
      && s.m.control.Ready? && s.m.table == [Loaded(1, 1, true)] && s.m.calls.Keys == {1} && s.m.active == 0
      && s.writers == [] && s.threads == map[] && s.inflight == map[]
  {
    acts := ReachesIniting();
    RunMore(acts, Manage(InitReturns(true)));
    acts := acts + [Manage(InitReturns(true))];
    RunMore(acts, Manage(Deactivate));
    acts := acts + [Manage(Deactivate)];
    assert Run(START, acts).m.table == [] + [Loaded(1, 1, false)];
    acts := StartsFirst(acts);
  }

  /** The only row of a table, being started. */
  ghost predicate BeingStarted(m: Manager, stage: Stage) {
    m.control == Busy(Some(0), 1, 1, stage) && m.table == [Loaded(1, 1, false)] && m.calls.Keys == {1}
  }

  lemma StartNext(m: Manager)
    requires m.control.Ready? && m.table == [Loaded(1, 1, false)] && m.calls.Keys == {1}
    ensures Next(m, BeginStart(0)).Some? && BeingStarted(Next(m, BeginStart(0)).value, Starting)
  {}

  lemma StartingNext(m: Manager)
    requires BeingStarted(m, Starting)
    ensures Next(m, StartReturns(true)).Some? && BeingStarted(Next(m, StartReturns(true)).value, StartDone(true))
  {}

  lemma StartedNext(m: Manager)
    requires BeingStarted(m, StartDone(true))
    ensures Next(m, Deactivate).Some?
    ensures var n := Next(m, Deactivate).value;
      n.control.Ready? && n.table == [Loaded(1, 1, true)] && n.calls.Keys == {1} && n.active == 0
  {}

  lemma StartsFirst(before: seq<Action>) returns (acts: seq<Action>)
    requires CanRun(START, before)
    requires var s := Run(START, before);
      && s.m.control.Ready? && s.m.table == [Loaded(1, 1, false)] && s.m.calls.Keys == {1}
      && s.writers == [] && s.threads == map[] && s.inflight == map[]
    ensures CanRun(START, acts)
    ensures var s := Run(START, acts);
      && s.m.control.Ready? && s.m.table == [Loaded(1, 1, true)] && s.m.calls.Keys == {1} && s.m.active == 0
      && s.writers == [] && s.threads == map[] && s.inflight == map[]
  {
    StartNext(Run(START, before).m);
    acts := RunManages(before, BeginStart(0));
    StartingNext(Run(START, acts).m);
    acts := RunManages(acts, StartReturns(true));
    StartedNext(Run(START, acts).m);
    acts := RunManages(acts, Deactivate);
  }

  /** The only row of a table, at this stage of being unloaded. */
  ghost predicate Unloading(m: Manager, stage: Stage, started: bool) {
    m.control == Busy(Some(0), 1, 1, stage) && m.table == [Loaded(1, 1, started)] && m.calls.Keys == {1}
  }

  /** Unloading as far as the writers are gone and no call is in flight. */
  lemma ReachesQuiet() returns (acts: seq<Action>)
    ensures CanRun(START, acts)
    ensures var s := Run(START, acts); Unloading(s.m, Quiet, true) && s.writers == [] && s.threads == map[]
  {
    acts := ReachesStarted();
    RunMore(acts, Manage(BeginUnload(0)));
    acts := acts + [Manage(BeginUnload(0))];
    RunMore(acts, Manage(Quiesce));
    acts := acts + [Manage(Quiesce)];
  }

  lemma ReachesStop() returns (acts: seq<Action>)
    ensures CanRun(START, acts)
    ensures var s := Run(START, acts); Unloading(s.m, Ending, true) && s.writers == [] && s.threads == map[]
  {
    acts := ReachesQuiet();
    acts := RunManages(acts, CallStop);
  }

  lemma StopNext(m: Manager)
    requires Unloading(m, Ending, true)
    ensures Next(m, StopReturns).Some? && Unloading(Next(m, StopReturns).value, Quiet, false)
  {}

  lemma QuietNext(m: Manager)
    requires Unloading(m, Quiet, false)
    ensures Next(m, CallDestroy).Some? && Unloading(Next(m, CallDestroy).value, Destroying, false)
  {}

  lemma DestroyNext(m: Manager)
    requires Unloading(m, Destroying, false)
    ensures Next(m, DestroyReturns).Some? && Unloading(Next(m, DestroyReturns).value, Dropping, false)
  {}

  lemma DropNext(m: Manager)
    requires Unloading(m, Dropping, false)
    ensures Next(m, RemoveOwner).Some? && Unloading(Next(m, RemoveOwner).value, Closing, false)
  {}

  lemma CloseNext(m: Manager)
    requires Unloading(m, Closing, false)
    ensures Next(m, Close).Some? && 1 in Next(m, Close).value.closed
  {
    assert Next(m, Close).value.closed[|m.closed|] == 1;
  }

  /** From stop to the closed library. */
  lemma StopCloses(before: seq<Action>) returns (acts: seq<Action>)
    requires CanRun(START, before) && Unloading(Run(START, before).m, Ending, true) && Run(START, before).threads == map[]
    ensures CanRun(START, acts)
    ensures var s := Run(START, acts); 1 in s.m.closed && s.writers == Run(START, before).writers
  {
    StopNext(Run(START, before).m);
    acts := RunManages(before, StopReturns);
    QuietNext(Run(START, acts).m);
    acts := RunManages(acts, CallDestroy);
    DestroyNext(Run(START, acts).m);
    acts := RunManages(acts, DestroyReturns);
    DropNext(Run(START, acts).m);
    acts := RunManages(acts, RemoveOwner);
    CloseNext(Run(START, acts).m);
    acts := RunManages(acts, Close);
  }

  /** A plugin that registers a writer in stop while it is unloaded is called after its library has been
      closed. */
  lemma StopRegistersHappens(prefix: string) returns (acts: seq<Action>, lib: nat)
    ensures CanRun(START, acts) && lib in Run(START, acts).m.closed && RunsIn(Run(START, acts), lib)
  {
    acts := ReachesStop();
    var reg;
    acts, reg := RunRegisters(acts, prefix, 1);
    acts := StopCloses(acts);
    assert reg in Run(START, acts).writers;
    var more := WriteEnters(Run(START, acts), reg);
    Joined(acts, more);
    acts, lib := acts + more, 1;
  }

  // ---- The manager's own view of a run ----

  function EventsOf(acts: seq<Action>): seq<Event> {
    if acts == [] then []
    else (if acts[0].Manage? then [acts[0].e] else []) + EventsOf(acts[1..])
  }

  lemma {:induction false} ExecFront(m: Manager, e: Event, es: seq<Event>)
    ensures Exec(m, [e] + es) == if Next(m, e).Some? then Exec(Next(m, e).value, es) else None
    decreases |es|
  {
    var all := [e] + es;
    if es == [] {
      assert all[..0] == [] && Exec(m, all[..0]) == Some(m);
    } else {
      ExecFront(m, e, es[..|es| - 1]);
      assert all[..|all| - 1] == [e] + es[..|es| - 1] && all[|all| - 1] == es[|es| - 1];
    }
  }

  /** Traffic never changes what the manager's own steps lead to: every run is a sequence of the
      manager's steps with writes in between. */
  lemma {:induction false} RunIsManagerRun(s: State, acts: seq<Action>)
    requires CanRun(s, acts)
    ensures Exec(s.m, EventsOf(acts)) == Some(Run(s, acts).m)
    decreases |acts|
  {
    if acts != [] {
      var next := Step(s, acts[0]);
      RunIsManagerRun(next, acts[1..]);
      if acts[0].Manage? {
        ExecFront(s.m, acts[0].e, EventsOf(acts[1..]));
      } else {
        assert EventsOf(acts) == EventsOf(acts[1..]);
      }
    }
  }
}
