/** The plugin manager: loading, starting, stopping, unloading and reloading plugins, with every
    step it takes recorded and allowed by the lifecycle automaton. */
module PluginManagers {
  import opened Options
  import opened PluginHosts
  import opened PluginLifecycle
  import opened Facts

  const ABI_MIN := 3
  const ABI_VERSION := 3

  datatype Info = Info(id: Option<string>, abi: nat)

  /** What a library and its plugin do when they are loaded; an exception counts as failure. */
  datatype Behaviour = Behaviour(opens: bool, symbols: bool, info: Option<Info>, creates: bool, inits: bool)

  predicate Accepted(b: Behaviour) {
    && b.opens && b.symbols && b.info.Some? && ABI_MIN <= b.info.value.abi <= ABI_VERSION
    && b.creates && b.inits
  }

  datatype Row = Row(lib: nat, owner: nat, started: bool, id: Option<string>, path: string)

  function Entry(r: Row): Loaded {
    Loaded(r.lib, r.owner, r.started)
  }

  function Table(rows: seq<Row>): seq<Loaded> {
    seq(|rows|, i requires 0 <= i < |rows| => Entry(rows[i]))
  }

  lemma ExecMore(es: seq<Event>, e: Event)
    requires Exec(IDLE, es).Some?
    ensures Exec(IDLE, es + [e]) == Next(Exec(IDLE, es).value, e)
  {
    var all := es + [e];
    assert all[..|all| - 1] == es && all[|all| - 1] == e;
  }

  class PluginManager {
    const host: PluginHost
    var plugins: seq<Row>
    var handles: nat            // library handles handed out so far
    ghost var log: seq<Event>  // every step taken
    ghost var m: Manager       // where those steps lead

    ghost predicate Recorded()
      reads this
    {
      Exec(IDLE, log) == Some(m)
    }

    /** The registrations the host routes by. */
    ghost function Writers(): seq<Reg>
      reads this, host
    {
      View(host.writers)
    }

    /** The manager and the host hold what the recorded steps say. */
    ghost predicate Agrees()
      reads this, host
    {
      && host.Valid() && Recorded()
      && m.table == Table(plugins) && m.handles == handles
      && host.owners.Keys == m.owners && host.activeOwner == m.active && host.nextOwner == m.nextOwner
    }

    ghost predicate Valid()
      reads this, host
    {
      Agrees() && m.control.Ready?
    }

    constructor (host: PluginHost)
      requires host.Valid() && host.owners.Keys == {0} && host.activeOwner == 0 && host.nextOwner == 1
      ensures Valid() && this.host == host && plugins == []
    {
      this.host := host;
      plugins, handles := [], 0;
      log, m := [], IDLE;
    }

    ghost method Record(e: Event)
      requires Recorded() && Next(m, e).Some?
      modifies this`log, this`m
      ensures log == old(log) + [e] && Some(m) == Next(old(m), e)
      ensures Recorded()
    {
      ExecMore(log, e);
      log, m := log + [e], Next(m, e).value;
    }

    /** One step that changes neither the host nor the table. */
    ghost method Advance(e: Event, to: Stage)
      requires Agrees() && m.control.Busy? && (m.control.at.None? || HasRow(m))
      requires Moves(m.control.at.Some?, m.control.stage, e, to)
      modifies this`log, this`m
      ensures Agrees() && log == old(log) + [e]
      ensures m.control == old(m.control).(stage := to) && m.table == old(m.table)
      ensures m.closed == old(m.closed) && m.owners == old(m.owners)
    {
      BusyKnown(log, m);
      MovesIsNext(m, e, to);
      Record(e);
    }

    /** Takes out a writer owner for the plugin being loaded and makes it the active one. */
    method TakeOwner() returns (owner: nat)
      requires Agrees() && m.At(Opened) && m.control.at.None?
      modifies this`log, this`m, host`owners, host`nextOwner, host`activeOwner
      ensures Agrees() && old(log) <= log && m.control == Busy(None, old(m.control.lib), owner, Creating)
      ensures owner == old(host.nextOwner) && owner !in old(m.owners)
      ensures m.owners == old(m.owners) + {owner} && m.closed == old(m.closed)
    {
      BusyKnown(log, m);
      owner := host.CreateOwner();
      Record(MakeOwner);
      host.SetActiveOwner(owner);
      Record(Activate);
    }

    /** No plugin is active any more. */
    method Deactivated(ghost next: Control)
      requires Agrees() && (m.At(Refused) || m.At(Discarded)) && m.control.at.None?
      requires next == m.control.(stage := if m.At(Refused) then Dropping else Retiring)
      modifies this`log, this`m, host`activeOwner
      ensures Agrees() && old(log) <= log && m.control == next
      ensures m.owners == old(m.owners) && m.closed == old(m.closed)
    {
      BusyKnown(log, m);
      host.SetActiveOwner(0);
      Record(Deactivate);
    }

    method OwnerRemoved(owner: nat)
      requires Agrees() && m.At(Dropping) && (m.control.at.None? || HasRow(m)) && m.control.owner == owner
      modifies this`log, this`m, host`owners
      ensures Agrees() && old(log) <= log
      ensures m.control == old(m.control).(stage := Closing) && m.table == old(m.table)
      ensures m.closed == old(m.closed) && m.owners == old(m.owners) - {owner}
    {
      BusyKnown(log, m);
      host.RemoveOwner(owner);
      Record(RemoveOwner);
    }

    /** Forgets the owner and closes the library of a plugin that did not make it. */
    method GiveUp(owner: nat)
      requires Agrees() && m.At(Dropping) && m.control.at.None? && m.control.owner == owner
      modifies this`log, this`m, host`owners
      ensures Valid() && old(log) <= log
      ensures m.owners == old(m.owners) - {owner} && m.closed == old(m.closed) + [old(m.control.lib)]
    {
      OwnerRemoved(owner);
      BusyKnown(log, m);
      Record(Close);
    }

    method FailedCreate(owner: nat)
      requires Agrees() && m.At(Refused) && m.control.at.None? && m.control.owner == owner
      modifies this`log, this`m, host`activeOwner, host`owners
      ensures Valid() && old(log) <= log
      ensures m.owners == old(m.owners) - {owner} && m.closed == old(m.closed) + [old(m.control.lib)]
    {
      Deactivated(m.control.(stage := Dropping));
      GiveUp(owner);
    }

    method FailedInit(owner: nat)
      requires Agrees() && m.At(Discarding) && m.control.at.None? && m.control.owner == owner
      modifies this`log, this`m, host`activeOwner, host`owners, host`writers
      ensures Valid() && old(log) <= log
      ensures Writers() == Without(old(Writers()), owner)
      ensures m.owners == old(m.owners) - {owner} && m.closed == old(m.closed) + [old(m.control.lib)]
    {
      Advance(DestroyReturns, Discarded);
      Deactivated(m.control.(stage := Retiring));
      RetiredQuietly(owner);
      GiveUp(owner);
    }

    /** No thread can find the plugin's writers any more, and the last one in them has left. */
    method RetiredQuietly(owner: nat)
      requires Agrees() && m.At(Retiring) && m.control.at.None? && m.control.owner == owner
      modifies this`log, this`m, host`writers
      ensures Agrees() && old(log) <= log && m.control == old(m.control).(stage := Dropping)
      ensures Writers() == Without(old(Writers()), owner)
      ensures m.owners == old(m.owners) && m.closed == old(m.closed)
    {
      OwnerKnown(log, m, owner);
      host.RetireOwner(owner);
      Advance(Retire, Draining);
      Advance(Quiesce, Dropping);
    }

    method Enter(lib: nat, owner: nat, id: Option<string>, path: string)
      requires Agrees() && m.At(Initialized) && m.control.at.None? && m.control.owner == owner && m.control.lib == lib
      modifies this`plugins, this`log, this`m, host`activeOwner
      ensures Valid() && old(log) <= log && handles == old(handles)
      ensures plugins == old(plugins) + [Row(lib, owner, false, id, path)]
      ensures m.owners == old(m.owners) && m.closed == old(m.closed)
    {
      BusyKnown(log, m);
      host.SetActiveOwner(0);
      Record(Deactivate);
      plugins := plugins + [Row(lib, owner, false, id, path)];
    }

    /** Opens a library and looks at what it offers. */
    method OpenLibrary(b: Behaviour) returns (ok: bool)
      requires Valid()
      modifies this`handles, this`log, this`m
      ensures Agrees() && old(log) <= log
      ensures if ok then m.control == Busy(None, handles, 0, Opened) else m.control.Ready?
      ensures handles == old(handles) + if b.opens then 1 else 0
      ensures m.owners == old(m.owners) && m.closed == old(m.closed) + if !ok && b.opens then [handles] else []
      ensures ok <==> b.opens && b.symbols && b.info.Some? && ABI_MIN <= b.info.value.abi <= ABI_VERSION
    {
      if !b.opens {
        return false;
      }
      handles := handles + 1;
      Record(Open);
      if !b.symbols || b.info.None? || b.info.value.abi > ABI_VERSION || b.info.value.abi < ABI_MIN {
        BusyKnown(log, m);
        Record(Reject);
        return false;
      }
      return true;
    }

    /** createPlugin and init, and what follows when they fail. */
    method Install(path: string, b: Behaviour) returns (ok: bool)
      requires Agrees() && m.control == Busy(None, handles, 0, Opened) && b.info.Some?
      modifies this, host
      ensures Valid() && old(log) <= log && handles == old(handles)
      ensures ok <==> b.creates && b.inits
      ensures plugins == if ok then old(plugins) + [Row(handles, old(host.nextOwner), false, b.info.value.id, path)]
                         else old(plugins)
      ensures m.owners == old(m.owners) + if ok then {old(host.nextOwner)} else {}
      ensures Writers() == old(Writers())
      ensures m.closed == old(m.closed) + if ok then [] else [handles]
    {
      var owner := TakeOwner();
      WithoutFresh(host, owner);
      ok := Create(owner, path, b);
    }

    method Create(owner: nat, path: string, b: Behaviour) returns (ok: bool)
      requires Agrees() && m.control == Busy(None, handles, owner, Creating) && b.info.Some?
      modifies this, host
      ensures Valid() && old(log) <= log && handles == old(handles) && (ok <==> b.creates && b.inits)
      ensures plugins == if ok then old(plugins) + [Row(handles, owner, false, b.info.value.id, path)] else old(plugins)
      ensures m.owners == old(m.owners) - if ok then {} else {owner}
      ensures Writers() == if b.creates && !b.inits then Without(old(Writers()), owner) else old(Writers())
      ensures m.closed == old(m.closed) + if ok then [] else [handles]
    {
      Advance(CreateReturns(b.creates), if b.creates then Initing else Refused);
      if !b.creates {
        FailedCreate(owner);
        return false;
      }
      ok := Initialize(owner, path, b);
    }

    method Initialize(owner: nat, path: string, b: Behaviour) returns (ok: bool)
      requires Agrees() && m.control == Busy(None, handles, owner, Initing) && b.info.Some?
      modifies this, host
      ensures Valid() && old(log) <= log && handles == old(handles) && (ok <==> b.inits)
      ensures plugins == if ok then old(plugins) + [Row(handles, owner, false, b.info.value.id, path)] else old(plugins)
      ensures m.owners == old(m.owners) - if ok then {} else {owner}
      ensures Writers() == if b.inits then old(Writers()) else Without(old(Writers()), owner)
      ensures m.closed == old(m.closed) + if ok then [] else [handles]
    {
      Advance(InitReturns(b.inits), if b.inits then Initialized else Discarding);
      if !b.inits {
        FailedInit(owner);
        return false;
      }
      Enter(handles, owner, b.info.value.id, path);
      return true;
    }

    /** A failed load leaves no owner behind, and closes what it opened. */
    method Load(path: string, b: Behaviour) returns (ok: bool)
      requires Valid()
      modifies this, host
      ensures Valid() && old(log) <= log
      ensures ok <==> Accepted(b)
      ensures plugins ==
        if ok then old(plugins) + [Row(old(handles) + 1, old(host.nextOwner), false, b.info.value.id, path)]
        else old(plugins)
      ensures handles == old(handles) + if b.opens then 1 else 0
      ensures host.owners.Keys == old(host.owners.Keys) + if ok then {old(host.nextOwner)} else {}
      ensures Writers() == old(Writers())
      ensures m.closed == old(m.closed) + if !ok && b.opens then [handles] else []
    {
      ok := OpenLibrary(b);
      if ok {
        ok := Install(path, b);
      }
    }

    method Starting(i: nat)
      requires Valid() && i < |plugins| && !plugins[i].started
      modifies this`log, this`m, host`activeOwner
      ensures Agrees() && old(log) <= log && m.table == old(m.table)
      ensures m.control == Busy(Some(i), plugins[i].lib, plugins[i].owner, Stage.Starting)
    {
      host.SetActiveOwner(plugins[i].owner);
      Record(BeginStart(i));
    }

    method Started(i: nat, works: bool)
      requires Agrees() && m.At(StartDone(works)) && m.control.at == Some(i) && i < |plugins| && !plugins[i].started
      modifies this`plugins, this`log, this`m, host`activeOwner
      ensures Valid() && old(log) <= log
      ensures plugins == old(plugins)[i := old(plugins[i]).(started := works)]
    {
      BusyKnown(log, m);
      host.SetActiveOwner(0);
      Record(Deactivate);
      plugins := plugins[i := plugins[i].(started := works)];
    }

    method StartAt(i: nat, works: bool) returns (ok: bool)
      requires Valid() && i < |plugins|
      modifies this`plugins, this`log, this`m, host`activeOwner
      ensures Valid() && old(log) <= log
      ensures ok <==> old(plugins[i].started) || works
      ensures plugins == old(plugins)[i := old(plugins[i]).(started := ok)]
    {
      var p := plugins[i];
      if p.started {
        return true;
      }
      Starting(i);
      Advance(StartReturns(works), StartDone(works));
      Started(i, works);
      return works;
    }

    method StartAll(works: nat -> bool) returns (ok: bool)
      requires Valid()
      modifies this`plugins, this`log, this`m, host`activeOwner
      ensures Valid() && old(log) <= log && |plugins| == |old(plugins)|
      ensures forall k :: 0 <= k < |plugins| ==>
                plugins[k] == old(plugins[k]).(started := old(plugins[k]).started || works(old(plugins[k]).lib))
      ensures ok <==> forall p <- plugins :: p.started
    {
      ok := true;
      var i := 0;
      while i < |plugins|
        invariant Valid() && old(log) <= log && i <= |plugins| == |old(plugins)|
        invariant forall k :: 0 <= k < i ==>
                    plugins[k] == old(plugins[k]).(started := old(plugins[k]).started || works(old(plugins[k]).lib))
        invariant forall k :: i <= k < |plugins| ==> plugins[k] == old(plugins[k])
        invariant ok <==> forall k :: 0 <= k < i ==> plugins[k].started
      {
        var started := StartAt(i, works(plugins[i].lib));
        if !started {
          ok := false;
        }
        i := i + 1;
      }
    }

    /** Stops one started plugin; whatever stop returns, it counts as stopped. */
    method StopAt(i: nat)
      requires Valid() && i < |plugins| && plugins[i].started
      modifies this`plugins, this`log, this`m
      ensures Valid() && old(log) <= log
      ensures plugins == old(plugins)[i := old(plugins[i]).(started := false)]
    {
      Record(BeginStop(i));
      BusyKnown(log, m);
      Record(StopReturns);
      plugins := plugins[i := plugins[i].(started := false)];
    }

    method StopAll(stops: nat -> bool) returns (ok: bool)
      requires Valid()
      modifies this`plugins, this`log, this`m
      ensures Valid() && old(log) <= log && |plugins| == |old(plugins)|
      ensures forall k :: 0 <= k < |plugins| ==> plugins[k] == old(plugins[k]).(started := false)
      ensures ok <==> forall p <- old(plugins) :: p.started ==> stops(p.lib)
    {
      ok := true;
      var i := 0;
      while i < |plugins|
        invariant Valid() && old(log) <= log && i <= |plugins| == |old(plugins)|
        invariant forall k :: 0 <= k < i ==> plugins[k] == old(plugins[k]).(started := false)
        invariant forall k :: i <= k < |plugins| ==> plugins[k] == old(plugins[k])
        invariant ok <==> forall k :: 0 <= k < i && old(plugins[k]).started ==> stops(old(plugins[k]).lib)
      {
        if plugins[i].started {
          if !stops(plugins[i].lib) {
            ok := false;
          }
          StopAt(i);
        }
        i := i + 1;
      }
    }

    method BeginUnloading(i: nat)
      requires Valid() && i < |plugins|
      modifies this`log, this`m, host`writers
      ensures Agrees() && old(log) <= log && m.table == old(m.table) && m.closed == old(m.closed)
      ensures m.control == Busy(Some(i), plugins[i].lib, plugins[i].owner, Draining)
      ensures Writers() == Without(old(Writers()), plugins[i].owner)
    {
      RowOwnerKnown(log, m, i);
      host.RetireOwner(plugins[i].owner);
      Record(BeginUnload(i));
    }

    ghost method StopCalled(i: nat)
      requires Agrees() && m.At(Quiet) && m.control.at == Some(i) && i < |plugins| && plugins[i].started
      modifies this`log, this`m
      ensures Agrees() && old(log) <= log && m.control == old(m.control).(stage := Ending) && m.closed == old(m.closed)
    {
      BusyKnown(log, m);
      Record(CallStop);
    }

    method StopLeaving(i: nat)
      requires Agrees() && m.At(Quiet) && m.control.at == Some(i) && i < |plugins| && plugins[i].started
      modifies this`plugins, this`log, this`m
      ensures Agrees() && old(log) <= log && m.control == old(m.control) && m.closed == old(m.closed)
      ensures plugins == old(plugins)[i := old(plugins[i]).(started := false)]
    {
      StopCalled(i);
      BusyKnown(log, m);
      StopIsNext(m);
      Record(StopReturns);
      plugins := plugins[i := plugins[i].(started := false)];
    }

    method Destroyed(i: nat)
      requires Agrees() && m.At(Quiet) && m.control.at == Some(i) && i < |plugins| && !plugins[i].started
      modifies this`log, this`m
      ensures Agrees() && old(log) <= log && m.control == old(m.control).(stage := Dropping) && m.closed == old(m.closed)
    {
      BusyKnown(log, m);
      Record(CallDestroy);
      Advance(DestroyReturns, Dropping);
    }

    method CloseRow(i: nat)
      requires Agrees() && m.At(Closing) && m.control.at == Some(i) && i < |plugins|
      modifies this`plugins, this`log, this`m
      ensures Valid() && old(log) <= log
      ensures plugins == old(plugins)[..i] + old(plugins)[i + 1..]
      ensures m.closed == old(m.closed) + [old(m.control.lib)]
    {
      BusyKnown(log, m);
      Record(Close);
      plugins := plugins[..i] + plugins[i + 1..];
    }

    /** Retire the writers, wait for the calls in flight, stop, destroy, forget the owner, close. */
    method UnloadAt(i: nat)
      requires Valid() && i < |plugins|
      modifies this`plugins, this`log, this`m, host`writers, host`owners
      ensures Valid() && old(log) <= log
      ensures plugins == old(plugins)[..i] + old(plugins)[i + 1..]
      ensures m.closed == old(m.closed) + [old(plugins[i]).lib]
      ensures Writers() == Without(old(Writers()), old(plugins[i]).owner)
    {
      var owner := plugins[i].owner;
      BeginUnloading(i);
      Advance(Quiesce, Quiet);
      if plugins[i].started {
        StopLeaving(i);
      }
      Destroyed(i);
      OwnerRemoved(owner);
      CloseRow(i);
    }

    method FindIndex(id: string) returns (idx: Option<nat>)
      ensures idx.Some? ==> idx.value < |plugins| && plugins[idx.value].id == Some(id)
      ensures forall k :: 0 <= k < (if idx.Some? then idx.value else |plugins|) ==> plugins[k].id != Some(id)
    {
      var i := 0;
      while i < |plugins|
        invariant i <= |plugins| && forall k :: 0 <= k < i ==> plugins[k].id != Some(id)
      {
        if plugins[i].id == Some(id) {
          return Some(i);
        }
        i := i + 1;
      }
      return None;
    }

    method Unload(id: string) returns (ok: bool)
      requires Valid()
      modifies this`plugins, this`log, this`m, host`writers, host`owners
      ensures Valid() && old(log) <= log
      ensures plugins == match FirstWith(old(plugins), id) {
        case None => old(plugins)
        case Some(i) => old(plugins)[..i] + old(plugins)[i + 1..]
      }
      ensures Writers() == match FirstWith(old(plugins), id) {
        case None => old(Writers())
        case Some(i) => Without(old(Writers()), old(plugins)[i].owner)
      }
      ensures ok <==> FirstWith(old(plugins), id).Some?
      ensures ok ==> forall name :: NotRouted(Writers(), old(plugins)[FirstWith(old(plugins), id).value].owner, name)
    {
      var idx := FindIndex(id);
      FirstWithIs(plugins, id, idx);
      if idx.None? {
        return false;
      }
      WithoutNotRouted(Writers(), plugins[idx.value].owner);
      UnloadAt(idx.value);
      return true;
    }

    /** Unloads one row, loads again from its path, and starts it again if it had been started. */
    method ReloadAt(i: nat, b: Behaviour, works: bool) returns (ok: bool)
      requires Valid() && i < |plugins|
      modifies this, host
      ensures Valid() && old(log) <= log
      ensures ok <==> Accepted(b) && (old(plugins)[i].started ==> works)
      ensures Writers() == Without(old(Writers()), old(plugins)[i].owner)
      ensures plugins == Reloaded(old(plugins), i, b, works, old(handles) + 1, old(host.nextOwner))
    {
      var was := plugins[i];
      UnloadAt(i);
      ok := LoadAndStart(was.path, b, was.started, works);
      if ok && was.started {
        ok := works;
      }
    }

    method Reload(id: string, b: Behaviour, works: bool) returns (ok: bool)
      requires Valid()
      modifies this, host
      ensures Valid() && old(log) <= log
      ensures match FirstWith(old(plugins), id) {
        case None => !ok && plugins == old(plugins) && Writers() == old(Writers())
        case Some(i) =>
          && (ok <==> Accepted(b) && (old(plugins)[i].started ==> works))
          && Writers() == Without(old(Writers()), old(plugins)[i].owner)
          && plugins == Reloaded(old(plugins), i, b, works, old(handles) + 1, old(host.nextOwner))
      }
    {
      var idx := FindIndex(id);
      FirstWithIs(plugins, id, idx);
      if idx.None? {
        return false;
      }
      ok := ReloadAt(idx.value, b, works);
    }

    /** The destructor: unloads everything, last loaded first, and leaves no library open. */
    method Shutdown()
      requires Valid()
      modifies this`plugins, this`log, this`m, host`writers, host`owners
      ensures Valid() && old(log) <= log && plugins == []
      ensures m.closed == old(m.closed) + Backwards(old(plugins))
      ensures forall reg :: reg in Writers() <==> reg in old(Writers()) && !OwnedBy(old(plugins), reg)
      ensures host.owners.Keys == {0} && forall lib: nat :: 1 <= lib <= handles ==> multiset(m.closed)[lib] == 1
    {
      while plugins != []
        invariant Valid() && old(log) <= log && plugins <= old(plugins)
        invariant m.closed + Backwards(plugins) == old(m.closed) + Backwards(old(plugins))
        invariant forall reg :: reg in Writers() <==> reg in old(Writers()) && !OwnedBy(old(plugins)[|plugins|..], reg)
        decreases |plugins|
      {
        BackwardsStep(m.closed, plugins);
        ghost var last := |plugins| - 1;
        assert plugins[..last] + plugins[last + 1..] == plugins[..last];
        WithoutIsFilter(Writers(), plugins[last].owner);
        OwnedByMore(old(plugins), last);
        UnloadAt(|plugins| - 1);
      }
      AllClosed(log, m);
    }

    /** Loads, from a directory listing, what is not loaded yet; at run time also starts it. */
    method Discover(paths: seq<string>, b: string -> Behaviour, startNew: bool, works: string -> bool)
      returns (loaded: nat)
      requires Valid()
      modifies this, host
      ensures Valid() && old(log) <= log && Writers() == old(Writers()) && |plugins| == |old(plugins)| + loaded
      ensures Discovered(old(plugins), plugins, paths, b, startNew, works)
    {
      loaded := 0;
      var i := 0;
      while i < |paths|
        invariant Writers() == old(Writers()) && i <= |paths| && Valid() && old(log) <= log && |plugins| == |old(plugins)| + loaded
        invariant Discovered(old(plugins), plugins, paths[..i], b, startNew, works)
      {
        var path := paths[i];
        ghost var before := plugins;
        var ok := LoadIfNew(path, b(path), startNew, works(path));
        if ok {
          loaded := loaded + 1;
        }
        assert paths[..i + 1] == paths[..i] + [path];
        DiscoveredMore(old(plugins), before, plugins, paths[..i], path, b, startNew, works);
        i := i + 1;
      }
      assert paths[..i] == paths;
    }

    /** Already loaded paths are skipped. */
    method LoadIfNew(path: string, b: Behaviour, startNew: bool, works: bool) returns (ok: bool)
      requires Valid()
      modifies this, host
      ensures Valid() && old(log) <= log && Writers() == old(Writers()) && (ok <==> !PathIn(old(plugins), path) && Accepted(b))
      ensures if !ok then plugins == old(plugins)
              else |plugins| == |old(plugins)| + 1 && old(plugins) <= plugins
                   && plugins[|old(plugins)|].path == path && (plugins[|old(plugins)|].started <==> startNew && works)
    {
      var known := IsLoadedPath(path);
      if known {
        return false;
      }
      ok := LoadAndStart(path, b, startNew, works);
    }

    method IsLoadedPath(path: string) returns (known: bool)
      ensures known <==> PathIn(plugins, path)
    {
      var i := 0;
      while i < |plugins|
        invariant i <= |plugins| && forall k :: 0 <= k < i ==> plugins[k].path != path
      {
        if plugins[i].path == path {
          return true;
        }
        i := i + 1;
      }
      return false;
    }

    method LoadAndStart(path: string, b: Behaviour, startNew: bool, works: bool) returns (ok: bool)
      requires Valid()
      modifies this, host
      ensures Valid() && old(log) <= log && Writers() == old(Writers()) && (ok <==> Accepted(b))
      ensures plugins == if !ok then old(plugins) else
                old(plugins) + [Row(old(handles) + 1, old(host.nextOwner), startNew && works, b.info.value.id, path)]
    {
      ok := Load(path, b);
      if ok && startNew {
        var _ := StartAt(|plugins| - 1, works);
      }
    }
  }

  lemma AllClosed(log: seq<Event>, m: Manager)
    requires Exec(IDLE, log) == Some(m) && m.control.Ready? && m.table == []
    ensures m.owners == {0} && forall lib: nat :: 1 <= lib <= m.handles ==> multiset(m.closed)[lib] == 1
  {
    NothingLeaks(log);
  }

  /** Stopping a plugin, for good or on the way out. */
  lemma StopIsNext(m: Manager)
    requires HasRow(m) && m.control.lib in m.calls && (m.At(Stopping) || m.At(Ending))
    ensures Next(m, StopReturns).Some?
    ensures var n, i := Next(m, StopReturns).value, m.control.at.value;
      && n.control == (if m.At(Stopping) then Ready else m.control.(stage := Quiet))
      && n.table == m.table[i := m.table[i].(started := false)] && n.closed == m.closed && n.handles == m.handles
      && n.owners == m.owners && n.active == m.active && n.nextOwner == m.nextOwner
  {}

  /** The new rows are acceptable libraries of the listing with paths not seen before, started if asked;
      every acceptable path is loaded in the end. */
  ghost predicate Discovered(before: seq<Row>, after: seq<Row>, paths: seq<string>, b: string -> Behaviour,
                             startNew: bool, works: string -> bool)
  {
    && before <= after
    && (forall path <- paths :: Accepted(b(path)) ==> PathIn(after, path))
    && forall k :: |before| <= k < |after| ==>
         && after[k].path in paths && Accepted(b(after[k].path))
         && (after[k].started <==> startNew && works(after[k].path)) && !PathIn(after[..k], after[k].path)
  }

  predicate PathIn(rows: seq<Row>, path: string) {
    exists p <- rows :: p.path == path
  }

  lemma DiscoveredMore(before: seq<Row>, mid: seq<Row>, after: seq<Row>, paths: seq<string>, path: string,
                       b: string -> Behaviour, startNew: bool, works: string -> bool)
    requires Discovered(before, mid, paths, b, startNew, works)
    requires if PathIn(mid, path) || !Accepted(b(path)) then after == mid
             else |after| == |mid| + 1 && mid <= after
                  && after[|mid|].path == path && (after[|mid|].started <==> startNew && works(path))
    ensures Discovered(before, after, paths + [path], b, startNew, works)
  {
    assert after[..|mid|] == mid;
    forall p | p in mid ensures p in after {
      var k :| 0 <= k < |mid| && mid[k] == p;
      assert after[k] == p;
    }
    forall q | q in paths + [path] && Accepted(b(q))
      ensures PathIn(after, q)
    {
      if q in paths {
        assert PathIn(mid, q);
      } else if after != mid {
        assert after[|mid|] in after;
      }
    }
    forall k | |before| <= k < |after|
      ensures after[k].path in paths + [path] && Accepted(b(after[k].path))
      ensures (after[k].started <==> startNew && works(after[k].path)) && !PathIn(after[..k], after[k].path)
    {
      if k < |mid| {
        assert after[..k] == mid[..k] && after[k] == mid[k];
      }
    }
  }

  /** The rows after row `i` has been replaced by a new instance of its plugin at the end, or lost. */
  function Reloaded(rows: seq<Row>, i: nat, b: Behaviour, works: bool, lib: nat, owner: nat): seq<Row>
    requires i < |rows|
  {
    var rest := rows[..i] + rows[i + 1..];
    if Accepted(b) then rest + [Row(lib, owner, rows[i].started && works, b.info.value.id, rows[i].path)] else rest
  }

  /** The first row with a given plugin id. */
  function FirstWith(rows: seq<Row>, id: string): (r: Option<nat>)
    ensures r.Some? ==> r.value < |rows|
  {
    if rows == [] then None
    else if rows[0].id == Some(id) then Some(0)
    else var r := FirstWith(rows[1..], id); if r.Some? then Some(r.value + 1) else None
  }

  lemma {:induction false} FirstWithIs(rows: seq<Row>, id: string, idx: Option<nat>)
    requires idx.Some? ==> idx.value < |rows| && rows[idx.value].id == Some(id)
    requires forall k :: 0 <= k < (if idx.Some? then idx.value else |rows|) ==> rows[k].id != Some(id)
    ensures FirstWith(rows, id) == idx
  {
    if rows != [] && rows[0].id != Some(id) {
      FirstWithIs(rows[1..], id, if idx.Some? then Some(idx.value - 1) else None);
    }
  }

  /** Libraries of the rows, last first. */
  function Backwards(rows: seq<Row>): seq<nat> {
    if rows == [] then [] else [rows[|rows| - 1].lib] + Backwards(rows[..|rows| - 1])
  }

  lemma BackwardsStep(closed: seq<nat>, rows: seq<Row>)
    requires rows != []
    ensures closed + Backwards(rows) == closed + [rows[|rows| - 1].lib] + Backwards(rows[..|rows| - 1])
  {
    Regroup(closed, [rows[|rows| - 1].lib], Backwards(rows[..|rows| - 1]));
  }

  /** The steps that only move the operation in progress on. */
  ghost predicate Moves(row: bool, from: Stage, e: Event, to: Stage) {
    if row then
      || (from.Starting? && e.StartReturns? && to == StartDone(e.ok))
      || (from.Draining? && e.Quiesce? && to.Quiet?)
      || (from.Destroying? && e.DestroyReturns? && to.Dropping?)
    else
      || (from.Creating? && e.CreateReturns? && to == if e.ok then Initing else Refused)
      || (from.Initing? && e.InitReturns? && to == if e.ok then Initialized else Discarding)
      || (from.Discarding? && e.DestroyReturns? && to.Discarded?)
      || (from.Retiring? && e.Retire? && to.Draining?)
      || (from.Draining? && e.Quiesce? && to.Dropping?)
  }

  lemma MovesIsNext(m: Manager, e: Event, to: Stage)
    requires m.control.Busy? && m.control.lib in m.calls && (m.control.at.None? || HasRow(m))
    requires Moves(m.control.at.Some?, m.control.stage, e, to)
    ensures Next(m, e).Some?
    ensures var n := Next(m, e).value;
      && n.control == m.control.(stage := to) && n.table == m.table && n.handles == m.handles
      && n.closed == m.closed
      && n.owners == m.owners && n.active == m.active && n.nextOwner == m.nextOwner
  {}

  /** No write to this name is handed to that owner. */
  ghost predicate NotRouted(ws: seq<Reg>, owner: nat, name: string) {
    forall reg :: Longest(ws, name, reg) ==> reg.owner != owner
  }

  lemma WithoutNotRouted(ws: seq<Reg>, owner: nat)
    ensures forall name :: NotRouted(Without(ws, owner), owner, name)
  {
    WithoutIsFilter(ws, owner);
  }

  /** The registration is one of these rows' plugins'. */
  predicate OwnedBy(rows: seq<Row>, reg: Reg) {
    exists p <- rows :: p.owner == reg.owner
  }

  lemma OwnedByMore(rows: seq<Row>, i: nat)
    requires i < |rows|
    ensures forall reg :: OwnedBy(rows[i..], reg) <==> reg.owner == rows[i].owner || OwnedBy(rows[i + 1..], reg)
  {
    assert rows[i..] == [rows[i]] + rows[i + 1..];
  }

  lemma WithoutFresh(host: PluginHost, owner: nat)
    requires host.Valid() && forall reg <- host.writers :: reg.owner.id < owner
    ensures Without(View(host.writers), owner) == View(host.writers)
  {
    WithoutNone(View(host.writers), owner);
  }

  /** The host knows the owner of every row, and of a plugin being given up, and none is 0. */
  lemma OwnerKnown(log: seq<Event>, m: Manager, owner: nat)
    requires Exec(IDLE, log) == Some(m) && m.At(Retiring) && m.control.owner == owner
    ensures owner in m.owners && owner != 0
  {
    ManagerRunInv(log);
  }

  lemma RowOwnerKnown(log: seq<Event>, m: Manager, i: nat)
    requires Exec(IDLE, log) == Some(m) && m.control.Ready? && i < |m.table|
    ensures m.table[i].owner in m.owners && m.table[i].owner != 0
  {
    ManagerRunInv(log);
    assert m.table[i] in m.table;
  }

  lemma BusyKnown(log: seq<Event>, m: Manager)
    requires Exec(IDLE, log) == Some(m) && m.control.Busy?
    ensures m.control.lib in m.calls && (m.control.stage.Opened? || m.control.owner != 0)
  {
    ManagerRunInv(log);
    assert m.control.lib in Held(m);
  }
}
