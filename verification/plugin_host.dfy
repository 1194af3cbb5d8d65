/** Write routing of the plugin host: writers registered by tag-name prefix, each attributed to an
    owner whose running calls are counted. */
module PluginHosts {
  import opened Options

  /** One registration: the handler's code lives in library `lib`. */
  datatype Reg = Reg(prefix: string, lib: nat, owner: nat)

  /** No two registrations have the same prefix. */
  ghost predicate Distinct(ws: seq<Reg>) {
    forall i, j :: 0 <= i < j < |ws| ==> ws[i].prefix != ws[j].prefix
  }

  ghost predicate Taken(ws: seq<Reg>, prefix: string) {
    exists reg <- ws :: reg.prefix == prefix
  }

  /** First come, first served: a prefix already taken is refused. */
  ghost function Registered(ws: seq<Reg>, reg: Reg): seq<Reg> {
    if Taken(ws, reg.prefix) then ws else ws + [reg]
  }

  function Without(ws: seq<Reg>, owner: nat): seq<Reg> {
    if ws == [] then []
    else if ws[0].owner == owner then Without(ws[1..], owner)
    else [ws[0]] + Without(ws[1..], owner)
  }

  /** Owner 0 belongs to nobody and cannot be retired. */
  function Retired(ws: seq<Reg>, owner: nat): seq<Reg> {
    if owner == 0 then ws else Without(ws, owner)
  }

  lemma {:induction false} WithoutIsFilter(ws: seq<Reg>, owner: nat)
    ensures forall reg :: reg in Without(ws, owner) <==> reg in ws && reg.owner != owner
    ensures Distinct(ws) ==> Distinct(Without(ws, owner))
  {
    if ws != [] {
      WithoutIsFilter(ws[1..], owner);
      assert ws == [ws[0]] + ws[1..];
      DistinctCons(ws[0], ws[1..]);
      DistinctCons(ws[0], Without(ws[1..], owner));
    }
  }

  /** Filtering keeps what is left in order. */
  lemma {:induction false} WithoutConcat(a: seq<Reg>, b: seq<Reg>, owner: nat)
    ensures Without(a + b, owner) == Without(a, owner) + Without(b, owner)
  {
    if a == [] {
      assert a + b == b;
    } else {
      assert (a + b)[0] == a[0] && (a + b)[1..] == a[1..] + b;
      WithoutConcat(a[1..], b, owner);
    }
  }

  lemma {:induction false} WithoutNone(ws: seq<Reg>, owner: nat)
    requires forall reg <- ws :: reg.owner != owner
    ensures Without(ws, owner) == ws
  {
    if ws != [] {
      assert ws[0] in ws;
      WithoutNone(ws[1..], owner);
    }
  }

  lemma DistinctCons(reg: Reg, ws: seq<Reg>)
    ensures Distinct([reg] + ws) <==> Distinct(ws) && forall other <- ws :: other.prefix != reg.prefix
  {
    var all := [reg] + ws;
    if Distinct(all) {
      forall j | 0 <= j < |ws|
        ensures ws[j] == all[j + 1] && ws[j].prefix != reg.prefix
      {
        assert all[0].prefix != all[j + 1].prefix;
      }
    }
  }

  lemma RegisteredDistinct(ws: seq<Reg>, reg: Reg)
    requires Distinct(ws)
    ensures Distinct(Registered(ws, reg))
    ensures Taken(Registered(ws, reg), reg.prefix)
    ensures forall r :: r in Registered(ws, reg) <==> r in ws || (r == reg && !Taken(ws, reg.prefix))
  {
    var after := Registered(ws, reg);
    if !Taken(ws, reg.prefix) {
      assert after[|ws|] == reg;
      forall i | 0 <= i < |ws| ensures ws[i].prefix != reg.prefix {
        assert ws[i] in ws;
      }
    }
  }

  /** The registration whose prefix is the longest one the name starts with. */
  ghost predicate Longest(ws: seq<Reg>, name: string, reg: Reg) {
    && reg in ws && reg.prefix <= name
    && forall other <- ws :: other.prefix <= name && other != reg ==> |other.prefix| < |reg.prefix|
  }

  ghost function Route(ws: seq<Reg>, name: string): (r: Option<Reg>)
    ensures r.Some? ==> Longest(ws, name, r.value)
  {
    if reg :| Longest(ws, name, reg) then Some(reg) else None
  }

  lemma LongestUnique(ws: seq<Reg>, name: string, a: Reg, b: Reg)
    requires Longest(ws, name, a) && Longest(ws, name, b)
    ensures a == b
  {}

  /** Two prefixes of one name that are equally long are the same prefix. */
  lemma SameLengthPrefix(a: string, b: string, name: string)
    requires a <= name && b <= name && |a| == |b|
    ensures a == b
  {
    assert a == name[..|a|] && b == name[..|b|];
  }

  lemma DistinctByPrefix(ws: seq<Reg>, a: Reg, b: Reg)
    requires Distinct(ws) && a in ws && b in ws && a.prefix == b.prefix
    ensures a == b
  {
    var i :| 0 <= i < |ws| && ws[i] == a;
    var j :| 0 <= j < |ws| && ws[j] == b;
  }

  /** A best registration among the first `k` is the longest one in the end. */
  lemma BestIsLongest(ws: seq<Reg>, name: string, best: Reg)
    requires Distinct(ws) && best in ws && best.prefix <= name
    requires forall other <- ws :: other.prefix <= name ==> |other.prefix| <= |best.prefix|
    ensures Longest(ws, name, best) && Route(ws, name) == Some(best)
  {
    forall other | other in ws && other.prefix <= name && other != best
      ensures |other.prefix| < |best.prefix|
    {
      if |other.prefix| == |best.prefix| {
        SameLengthPrefix(other.prefix, best.prefix, name);
        DistinctByPrefix(ws, other, best);
      }
    }
    assert Longest(ws, name, best);
    LongestUnique(ws, name, best, Route(ws, name).value);
  }

  /** A name is routed exactly when some registered prefix applies to it. */
  lemma {:induction false} RouteIff(ws: seq<Reg>, name: string)
    requires Distinct(ws)
    ensures Route(ws, name).Some? <==> exists reg :: reg in ws && reg.prefix <= name
  {
    if exists reg :: reg in ws && reg.prefix <= name {
      var best := MaxApplying(ws, name);
      BestIsLongest(ws, name, best);
    }
  }

  lemma {:induction false} MaxApplying(ws: seq<Reg>, name: string) returns (best: Reg)
    requires exists reg :: reg in ws && reg.prefix <= name
    ensures best in ws && best.prefix <= name
    ensures forall other <- ws :: other.prefix <= name ==> |other.prefix| <= |best.prefix|
  {
    var rest := ws[1..];
    assert ws == [ws[0]] + rest;
    if exists reg :: reg in rest && reg.prefix <= name {
      best := MaxApplying(rest, name);
      if ws[0].prefix <= name && |ws[0].prefix| > |best.prefix| {
        best := ws[0];
      }
    } else {
      best := ws[0];
    }
  }

  /** The choice does not depend on the order of registration. */
  lemma RoutePermutation(a: seq<Reg>, b: seq<Reg>, name: string)
    requires Distinct(a) && multiset(a) == multiset(b)
    ensures Distinct(b) && Route(a, name) == Route(b, name)
  {
    forall reg ensures reg in a <==> reg in b {
      assert reg in a <==> reg in multiset(a);
      assert reg in b <==> reg in multiset(b);
    }
    forall i, j | 0 <= i < j < |b|
      ensures b[i].prefix != b[j].prefix
    {
      if b[i].prefix == b[j].prefix {
        DistinctByPrefix(a, b[i], b[j]);
        assert b == b[..j] + b[j..] && b[..j][i] == b[i] && b[j..][0] == b[j];
        assert multiset(b)[b[i]] == multiset(b[..j])[b[i]] + multiset(b[j..])[b[i]] >= 2;
        DistinctOnce(a, b[i]);
      }
    }
    RouteIff(a, name);
    RouteIff(b, name);
    if Route(a, name).Some? {
      assert Longest(b, name, Route(a, name).value);
      LongestUnique(b, name, Route(a, name).value, Route(b, name).value);
    }
  }

  lemma {:induction false} DistinctOnce(ws: seq<Reg>, reg: Reg)
    requires Distinct(ws)
    ensures multiset(ws)[reg] <= 1
  {
    if ws != [] {
      assert ws == [ws[0]] + ws[1..];
      DistinctOnce(ws[1..], reg);
      forall j | 0 <= j < |ws[1..]|
        ensures ws[1..][j] != ws[0]
      {
        assert ws[j + 1].prefix != ws[0].prefix;
      }
    }
  }

  /** Once an owner is retired no name is routed to it. */
  lemma RetiredNotRouted(ws: seq<Reg>, owner: nat, name: string)
    requires owner != 0
    ensures var r := Route(Retired(ws, owner), name); r.Some? ==> r.value.owner != owner && r.value in ws
  {
    WithoutIsFilter(ws, owner);
  }

  /** Retiring an owner leaves every name routed to somebody else where it was. */
  lemma RetireKeepsOthers(ws: seq<Reg>, owner: nat, name: string)
    requires Distinct(ws)
    requires Route(ws, name).Some? && Route(ws, name).value.owner != owner
    ensures Route(Retired(ws, owner), name) == Route(ws, name)
  {
    WithoutIsFilter(ws, owner);
    BestIsLongest(Retired(ws, owner), name, Route(ws, name).value);
  }

  datatype RegOp = Added(reg: Reg) | Revoked(owner: nat)

  ghost function ApplyRegOp(ws: seq<Reg>, op: RegOp): seq<Reg> {
    match op
    case Added(reg) => Registered(ws, reg)
    case Revoked(owner) => Retired(ws, owner)
  }

  ghost function ApplyRegOps(ws: seq<Reg>, ops: seq<RegOp>): seq<Reg>
    decreases |ops|
  {
    if ops == [] then ws else ApplyRegOp(ApplyRegOps(ws, ops[..|ops| - 1]), ops[|ops| - 1])
  }

  /** After any registrations and retirements: prefixes are distinct, and a name is routed to the
      one registration with the longest applying prefix, or to none when none applies. */
  lemma {:induction false} RoutingAfterAnyRun(ops: seq<RegOp>, name: string)
    ensures var ws := ApplyRegOps([], ops);
      && Distinct(ws)
      && (Route(ws, name).None? <==> forall reg <- ws :: !(reg.prefix <= name))
      && forall reg :: Longest(ws, name, reg) <==> Route(ws, name) == Some(reg)
    decreases |ops|
  {
    var ws := ApplyRegOps([], ops);
    if ops != [] {
      var before := ApplyRegOps([], ops[..|ops| - 1]);
      RoutingAfterAnyRun(ops[..|ops| - 1], name);
      match ops[|ops| - 1]
      case Added(reg) => RegisteredDistinct(before, reg);
      case Revoked(owner) => WithoutIsFilter(before, owner);
    }
    RouteIff(ws, name);
    forall reg | Longest(ws, name, reg) ensures Route(ws, name) == Some(reg) {
      LongestUnique(ws, name, reg, Route(ws, name).value);
    }
  }

  /** The number of handler calls of one owner that are in progress. */
  class OwnerState {
    ghost const id: nat
    var inflight: int

    constructor (ghost id: nat)
      ensures this.id == id && inflight == 0
    {
      this.id := id;
      inflight := 0;
    }
  }

  datatype WriteReg = WriteReg(prefix: string, lib: nat, owner: OwnerState)

  ghost function View(ws: seq<WriteReg>): seq<Reg> {
    seq(|ws|, i requires 0 <= i < |ws| => ViewReg(ws[i]))
  }

  ghost function ViewReg(reg: WriteReg): Reg {
    Reg(reg.prefix, reg.lib, reg.owner.id)
  }

  lemma ViewStep(ws: seq<WriteReg>, i: nat)
    requires i < |ws|
    ensures View(ws[i..]) == [ViewReg(ws[i])] + View(ws[i + 1..])
  {}

  lemma ViewAppend(ws: seq<WriteReg>, reg: WriteReg)
    ensures View(ws + [reg]) == View(ws) + [ViewReg(reg)]
  {}

  lemma WithoutStep(kept: seq<Reg>, rest: seq<Reg>, owner: nat)
    requires rest != []
    ensures kept + Without(rest, owner) ==
      (if rest[0].owner == owner then kept else kept + [rest[0]]) + Without(rest[1..], owner)
  {}

  class PluginHost {
    var writers: seq<WriteReg>
    var owners: map<nat, OwnerState>
    var activeOwner: nat
    var nextOwner: nat

    ghost predicate Valid()
      reads this
    {
      && 0 in owners && nextOwner >= 1 && Distinct(View(writers))
      && (forall o <- owners :: owners[o].id == o < nextOwner)
      && (forall reg <- writers :: reg.owner.id in owners ==> reg.owner == owners[reg.owner.id])
      && (forall reg <- writers :: reg.owner.id < nextOwner)
    }

    constructor ()
      ensures Valid() && writers == [] && owners.Keys == {0} && activeOwner == 0 && nextOwner == 1
    {
      var host := new OwnerState(0);
      writers, owners, activeOwner, nextOwner := [], map[0 := host], 0, 1;
    }

    method CreateOwner() returns (id: nat)
      requires Valid()
      modifies this`owners, this`nextOwner
      ensures Valid() && id == old(nextOwner) != 0 && nextOwner == id + 1
      ensures owners.Keys == old(owners.Keys) + {id} && owners[id].inflight == 0
      ensures forall o <- old(owners) :: owners[o] == old(owners)[o]
    {
      id := nextOwner;
      nextOwner := nextOwner + 1;
      var state := new OwnerState(id);
      owners := owners[id := state];
    }

    method SetActiveOwner(owner: nat)
      requires Valid()
      modifies this`activeOwner
      ensures Valid() && activeOwner == owner
    {
      activeOwner := owner;
    }

    /** Drops every registration attributed to a known owner. */
    method RetireOwner(owner: nat)
      requires Valid()
      modifies this`writers
      ensures Valid()
      ensures View(writers) == if owner in owners then Retired(old(View(writers)), owner) else old(View(writers))
    {
      if owner == 0 || owner !in owners {
        return;
      }
      var state := owners[owner];
      var kept: seq<WriteReg> := [];
      var i := 0;
      while i < |writers|
        invariant i <= |writers| && writers == old(writers)
        invariant View(kept) + Without(View(writers[i..]), owner) == Without(View(writers), owner)
        invariant forall reg <- kept :: reg in writers
      {
        ViewStep(writers, i);
        ViewAppend(kept, writers[i]);
        WithoutStep(View(kept), View(writers[i..]), owner);
        assert writers[i] in writers;
        if writers[i].owner != state {
          kept := kept + [writers[i]];
        }
        i := i + 1;
      }
      WithoutIsFilter(View(writers), owner);
      assert View(writers[|writers|..]) == [];
      assert View(kept) == Without(View(writers), owner);
      writers := kept;
    }

    method RemoveOwner(owner: nat)
      requires Valid()
      modifies this`owners
      ensures Valid() && owners == if owner == 0 then old(owners) else old(owners) - {owner}
    {
      if owner != 0 {
        owners := owners - {owner};
      }
    }

    /** Registers for the active owner, or for nobody when that one is not known. */
    method RegisterWriter(prefix: Option<string>, handler: Option<nat>)
      requires Valid()
      modifies this`writers
      ensures Valid()
      ensures View(writers) ==
        if prefix.Some? && handler.Some? then
          Registered(old(View(writers)), Reg(prefix.value, handler.value, if activeOwner in owners then activeOwner else 0))
        else old(View(writers))
    {
      if prefix.None? || handler.None? {
        return;
      }
      var i := 0;
      while i < |writers|
        invariant i <= |writers| && forall j :: 0 <= j < i ==> writers[j].prefix != prefix.value
      {
        if writers[i].prefix == prefix.value {
          assert View(writers)[i] in View(writers);
          return;
        }
        i := i + 1;
      }
      var owner := if activeOwner in owners then owners[activeOwner] else owners[0];
      ghost var reg := Reg(prefix.value, handler.value, owner.id);
      RegisteredDistinct(View(writers), reg);
      ghost var before := writers;
      writers := writers + [WriteReg(prefix.value, handler.value, owner)];
      assert View(writers) == View(before) + [reg];
    }

    /** The locked part of a write: choose the handler and count the call in. */
    method BeginWrite(name: string) returns (chosen: Option<WriteReg>)
      requires Valid()
      modifies set reg <- writers :: reg.owner
      ensures Valid()
      ensures chosen.Some? <==> Route(View(writers), name).Some?
      ensures chosen.Some? ==>
        && chosen.value in writers
        && Route(View(writers), name) == Some(Reg(chosen.value.prefix, chosen.value.lib, chosen.value.owner.id))
        && chosen.value.owner.inflight == old(chosen.value.owner.inflight) + 1
      ensures forall reg <- writers :: chosen.None? || reg.owner != chosen.value.owner ==>
                reg.owner.inflight == old(reg.owner.inflight)
    {
      chosen := None;
      var i := 0;
      while i < |writers|
        invariant i <= |writers|
        invariant chosen.None? ==> forall j :: 0 <= j < i ==> !(writers[j].prefix <= name)
        invariant chosen.Some? ==>
          && chosen.value in writers[..i] && chosen.value.prefix <= name
          && forall j :: 0 <= j < i && writers[j].prefix <= name ==> |writers[j].prefix| <= |chosen.value.prefix|
      {
        var reg := writers[i];
        if reg.prefix <= name && (chosen.None? || |reg.prefix| > |chosen.value.prefix|) {
          chosen := Some(reg);
        }
        i := i + 1;
      }
      RouteIff(View(writers), name);
      if chosen.Some? {
        var k :| 0 <= k < |writers| && writers[k] == chosen.value;
        BestIsLongest(View(writers), name, View(writers)[k]);
        chosen.value.owner.inflight := chosen.value.owner.inflight + 1;
      }
    }

    /** Counts the call out after the handler returned. */
    method EndWrite(owner: OwnerState)
      modifies owner
      ensures owner.inflight == old(owner.inflight) - 1
    {
      owner.inflight := owner.inflight - 1;
    }
  }
}
