/** The subscription registry as a value: who is reachable through the trie (`entries`) and what
    the reverse index remembers (`patterns`), with the three operations and all their runs. */
module SubscriptionIndex {
  import opened Topics

  datatype Index = Index(entries: set<(string, nat)>, patterns: map<nat, set<string>>)

  const EMPTY := Index({}, map[])

  function Pats(ix: Index, id: nat): set<string> {
    if id in ix.patterns then ix.patterns[id] else {}
  }

  /** The reverse index keeps no empty sets. */
  function WithPats(patterns: map<nat, set<string>>, id: nat, pats: set<string>): map<nat, set<string>> {
    if pats == {} then patterns - {id} else patterns[id := pats]
  }

  function Subscribe(ix: Index, pattern: string, id: nat): Index {
    if !IsValidPattern(pattern) then ix
    else Index(ix.entries + {(pattern, id)}, WithPats(ix.patterns, id, Pats(ix, id) + {pattern}))
  }

  /** The pattern of the node an unvalidated walk ends at. */
  function WalkedPattern(pattern: string): string {
    Join(Walk(Split(pattern)))
  }

  /** Removal drops the entry the walk finds but forgets the pattern as it was spelled. */
  function Unsubscribe(ix: Index, pattern: string, id: nat): Index {
    var e := (WalkedPattern(pattern), id);
    if e !in ix.entries then ix
    else Index(ix.entries - {e}, if id in ix.patterns then WithPats(ix.patterns, id, Pats(ix, id) - {pattern}) else ix.patterns)
  }

  /** Every remembered pattern is unsubscribed; one with no entry stays remembered. */
  function UnsubscribeAll(ix: Index, id: nat): Index {
    if id !in ix.patterns then ix
    else
      var pats := Pats(ix, id);
      var kept := set e | e in ix.entries && !(e.1 == id && e.0 in pats);
      var orphans := set p | p in pats && (p, id) !in ix.entries;
      Index(kept, WithPats(ix.patterns, id, orphans))
  }

  /** Who is told about a topic. */
  function MatchSet(ix: Index, topic: string): set<nat> {
    set e | e in ix.entries && Matches(e.0, topic) :: e.1
  }

  datatype Op = Sub(pattern: string, id: nat) | Unsub(pattern: string, id: nat) | UnsubAll(id: nat)

  function Apply(ix: Index, op: Op): Index {
    match op
    case Sub(pattern, id) => Subscribe(ix, pattern, id)
    case Unsub(pattern, id) => Unsubscribe(ix, pattern, id)
    case UnsubAll(id) => UnsubscribeAll(ix, id)
  }

  function Run(ops: seq<Op>): Index {
    if ops == [] then EMPTY else Apply(Run(ops[..|ops| - 1]), ops[|ops| - 1])
  }

  /** Trie entries are remembered, and only valid patterns are. */
  ghost predicate Sound(ix: Index) {
    && (forall e <- ix.entries :: e.0 in Pats(ix, e.1))
    && (forall id <- ix.patterns :: ix.patterns[id] != {})
    && (forall id <- ix.patterns, p <- ix.patterns[id] :: IsValidPattern(p))
  }

  /** Nothing is remembered without an entry. */
  ghost predicate Exact(ix: Index) {
    Sound(ix) && forall id <- ix.patterns, p <- ix.patterns[id] :: (p, id) in ix.entries
  }

  /** The pairs the reverse index remembers for some of the subscribers. */
  ghost function Remembered(patterns: map<nat, set<string>>, ids: set<nat>): set<(string, nat)> {
    set id, p | id in ids && id in patterns && p in patterns[id] :: (p, id)
  }

  /** The two indexes agree exactly when they hold the same pairs. */
  lemma ExactIff(ix: Index)
    requires Sound(ix)
    ensures Exact(ix) <==> ix.entries == Remembered(ix.patterns, ix.patterns.Keys)
  {
    var all := Remembered(ix.patterns, ix.patterns.Keys);
    forall e | e in ix.entries
      ensures e in all
    {
      assert e.0 in Pats(ix, e.1) && e == (e.0, e.1);
    }
    if ix.entries == all {
      forall id, p | id in ix.patterns && p in ix.patterns[id]
        ensures (p, id) in ix.entries
      {
        assert (p, id) in all;
      }
    }
  }

  lemma {:induction false} PairsSize(ps: set<string>, id: nat)
    ensures |set p | p in ps :: (p, id)| == |ps|
  {
    var pairs := set p | p in ps :: (p, id);
    if ps != {} {
      var p :| p in ps;
      PairsSize(ps - {p}, id);
      assert pairs == (set q | q in ps - {p} :: (q, id)) + {(p, id)};
    }
  }

  lemma RememberedMore(patterns: map<nat, set<string>>, ids: set<nat>, id: nat)
    requires id in patterns && id !in ids
    ensures |Remembered(patterns, ids + {id})| == |Remembered(patterns, ids)| + |patterns[id]|
  {
    var before, own := Remembered(patterns, ids), set p | p in patterns[id] :: (p, id);
    PairsSize(patterns[id], id);
    assert Remembered(patterns, ids + {id}) == before + own;
    assert before !! own;
  }

  lemma WalkedValid(pattern: string)
    requires IsValidPattern(pattern)
    ensures WalkedPattern(pattern) == pattern
  {
    WalkOfValid(Split(pattern));
    JoinLevels(pattern);
  }

  lemma ApplySound(ix: Index, op: Op)
    requires Sound(ix)
    ensures Sound(Apply(ix, op))
  {
    if op.Unsub? {
      UnsubscribeSound(ix, op.pattern, op.id);
    }
  }

  lemma UnsubscribeSound(ix: Index, pattern: string, id: nat)
    requires Sound(ix)
    ensures Sound(Unsubscribe(ix, pattern, id))
  {
    var r := Unsubscribe(ix, pattern, id);
    if IsValidPattern(pattern) {
      WalkedValid(pattern);
    }
    forall e <- r.entries
      ensures e.0 in Pats(r, e.1)
    {
      assert e.0 in Pats(ix, e.1);
      assert e.1 == id && e.0 == pattern ==> IsValidPattern(pattern);
    }
  }

  /** Whatever the arguments, the trie never holds more than the reverse index remembers. */
  lemma {:induction false} RunSound(ops: seq<Op>)
    ensures Sound(Run(ops))
  {
    if ops != [] {
      RunSound(ops[..|ops| - 1]);
      ApplySound(Run(ops[..|ops| - 1]), ops[|ops| - 1]);
    }
  }

  /** The two indexes stay equal under an unsubscribe exactly when its pattern is valid or its
      walk finds no entry of that subscriber. */
  lemma UnsubscribeKeepsExact(ix: Index, pattern: string, id: nat)
    requires Exact(ix)
    ensures Exact(Unsubscribe(ix, pattern, id))
       <==> IsValidPattern(pattern) || (WalkedPattern(pattern), id) !in ix.entries
  {
    var q := WalkedPattern(pattern);
    var r := Unsubscribe(ix, pattern, id);
    ApplySound(ix, Unsub(pattern, id));
    if (q, id) in ix.entries {
      assert q in ix.patterns[id];
      if IsValidPattern(pattern) {
        WalkedValid(pattern);
      } else {
        assert pattern !in Pats(ix, id) && q in Pats(r, id) && (q, id) !in r.entries;
      }
    }
  }

  lemma ApplyExact(ix: Index, op: Op)
    requires Exact(ix) && (op.Unsub? ==> IsValidPattern(op.pattern))
    ensures Exact(Apply(ix, op))
  {
    ApplySound(ix, op);
    match op
    case Sub(pattern, id) =>
    case Unsub(pattern, id) => UnsubscribeKeepsExact(ix, pattern, id);
    case UnsubAll(id) =>
      if id in ix.patterns {
        assert forall p <- ix.patterns[id] :: (p, id) in ix.entries;
      }
  }

  /** With valid unsubscribe arguments the two indexes agree after any run. */
  lemma {:induction false} RunExact(ops: seq<Op>)
    requires forall op <- ops :: op.Unsub? ==> IsValidPattern(op.pattern)
    ensures Exact(Run(ops))
  {
    if ops != [] {
      RunExact(ops[..|ops| - 1]);
      ApplyExact(Run(ops[..|ops| - 1]), ops[|ops| - 1]);
    }
  }

  /** After any run with valid unsubscribe arguments a subscriber is told about a topic exactly
      when one of the patterns it registered matches. */
  lemma MatchIsExact(ops: seq<Op>, topic: string, id: nat)
    requires forall op <- ops :: op.Unsub? ==> IsValidPattern(op.pattern)
    ensures id in MatchSet(Run(ops), topic) <==> exists p <- Pats(Run(ops), id) :: Matches(p, topic)
  {
    RunExact(ops);
    MatchNeverOverReports(ops, topic, id);
    var ix := Run(ops);
    if exists p <- Pats(ix, id) :: Matches(p, topic) {
      var p :| p in Pats(ix, id) && Matches(p, topic);
      assert (p, id) in ix.entries;
    }
  }

  /** After any run at all nobody is told about a topic none of whose patterns match. */
  lemma MatchNeverOverReports(ops: seq<Op>, topic: string, id: nat)
    ensures id in MatchSet(Run(ops), topic) ==> exists p <- Pats(Run(ops), id) :: Matches(p, topic)
  {
    RunSound(ops);
    var ix := Run(ops);
    if id in MatchSet(ix, topic) {
      var e :| e in ix.entries && Matches(e.0, topic) && e.1 == id;
      assert e.0 in Pats(ix, id);
    }
  }

  /** Unsubscribing everything silences one subscriber, even after malformed unsubscribes, and
      leaves everybody else's matches alone. */
  lemma UnsubscribeAllSilences(ix: Index, id: nat, other: nat, topic: string)
    requires Sound(ix)
    ensures id !in MatchSet(UnsubscribeAll(ix, id), topic)
    ensures other != id ==> (other in MatchSet(UnsubscribeAll(ix, id), topic) <==> other in MatchSet(ix, topic))
    ensures other != id ==> Pats(UnsubscribeAll(ix, id), other) == Pats(ix, other)
  {
    var r := UnsubscribeAll(ix, id);
    forall e <- r.entries
      ensures e.1 != id
    {
      assert e.0 in Pats(ix, e.1);
    }
    if other != id && other in MatchSet(ix, topic) {
      var e :| e in ix.entries && Matches(e.0, topic) && e.1 == other;
      assert e in r.entries;
    }
  }

  /** "Unsubscribe all" with the patterns in `todo` still to be visited. */
  function AllBut(ix: Index, id: nat, todo: set<string>): Index {
    var pats := Pats(ix, id);
    var kept := set e | e in ix.entries && !(e.1 == id && e.0 in pats - todo);
    var left := set p | p in pats && (p in todo || (p, id) !in ix.entries);
    Index(kept, WithPats(ix.patterns, id, left))
  }

  lemma AllButEnds(ix: Index, id: nat)
    requires Sound(ix) && id in ix.patterns
    ensures AllBut(ix, id, Pats(ix, id)) == ix
    ensures AllBut(ix, id, {}) == UnsubscribeAll(ix, id)
  {
    var pats := Pats(ix, id);
    var a := AllBut(ix, id, pats);
    assert (set p | p in pats && (p in pats || (p, id) !in ix.entries)) == pats;
    assert a.patterns == ix.patterns;
    var b, c := AllBut(ix, id, {}), UnsubscribeAll(ix, id);
    var none: set<string> := {};
    assert (set p | p in pats && (p in none || (p, id) !in ix.entries)) == (set p | p in pats && (p, id) !in ix.entries);
    assert b.patterns == c.patterns;
    assert pats - none == pats && b.entries == c.entries;
  }

  lemma AllButStep(ix: Index, id: nat, todo: set<string>, p: string)
    requires Sound(ix) && id in ix.patterns && p in todo && todo <= Pats(ix, id)
    ensures Unsubscribe(AllBut(ix, id, todo), p, id) == AllBut(ix, id, todo - {p})
  {
    WalkedValid(p);
    var pats := Pats(ix, id);
    var a, b := AllBut(ix, id, todo), AllBut(ix, id, todo - {p});
    var left := set q | q in pats && (q in todo || (q, id) !in ix.entries);
    var next := set q | q in pats && (q in todo - {p} || (q, id) !in ix.entries);
    assert p in left && Pats(a, id) == left;
    if (p, id) in ix.entries {
      assert (p, id) in a.entries && next == left - {p};
      assert b.entries == a.entries - {(p, id)};
    } else {
      assert (p, id) !in a.entries && next == left;
      assert b.entries == a.entries;
    }
  }

  /** What survives "unsubscribe all" in the reverse index is exactly what malformed
      unsubscribes had already orphaned, so the reported count is then not zero. */
  lemma LeftoverCount(ix: Index, id: nat)
    requires Sound(ix)
    ensures Pats(UnsubscribeAll(ix, id), id) == {} <==> forall p <- Pats(ix, id) :: (p, id) in ix.entries
  {
    var stale := set p | p in Pats(ix, id) && (p, id) !in ix.entries;
    if stale == {} {
      forall p <- Pats(ix, id) ensures (p, id) in ix.entries {
        assert p !in stale;
      }
    }
  }

  /** One subscriber's operations never change what another is told. */
  lemma OperationsAreIsolated(ix: Index, op: Op, other: nat, topic: string)
    requires Sound(ix) && op.id != other
    ensures other in MatchSet(Apply(ix, op), topic) <==> other in MatchSet(ix, topic)
  {
    if op.UnsubAll? {
      UnsubscribeAllSilences(ix, op.id, other, topic);
    } else {
      var r := Apply(ix, op);
      assert forall p: string :: (p, other) in r.entries <==> (p, other) in ix.entries;
      if other in MatchSet(ix, topic) {
        var e :| e in ix.entries && Matches(e.0, topic) && e.1 == other;
        assert e == (e.0, other) && e in r.entries;
      }
      if other in MatchSet(r, topic) {
        var e :| e in r.entries && Matches(e.0, topic) && e.1 == other;
        assert e == (e.0, other) && e in ix.entries;
      }
    }
  }

  /** A malformed unsubscribe whose walk ends at a registered pattern drops the entry and leaves
      the pattern remembered, even after "unsubscribe all". */
  lemma MalformedUnsubscribeLeaks(pattern: string, malformed: string, id: nat)
    requires IsValidPattern(pattern) && !IsValidPattern(malformed) && WalkedPattern(malformed) == pattern
    ensures var ix := Run([Sub(pattern, id), Unsub(malformed, id), UnsubAll(id)]);
            ix.entries == {} && Pats(ix, id) == {pattern}
  {
    var ops := [Sub(pattern, id), Unsub(malformed, id), UnsubAll(id)];
    var i1 := Subscribe(EMPTY, pattern, id);
    assert Pats(EMPTY, id) + {pattern} == {pattern};
    assert i1.entries == {(pattern, id)} && i1.patterns == map[id := {pattern}];
    var i2 := Unsubscribe(i1, malformed, id);
    assert {pattern} - {malformed} == {pattern};
    assert Pats(i1, id) - {malformed} == {pattern};
    assert map[id := {pattern}][id := {pattern}] == map[id := {pattern}];
    assert i1.entries - {(pattern, id)} == {};
    assert i2.entries == {} && i2.patterns == map[id := {pattern}];
    assert ops[..2] == [ops[0], ops[1]] && ops[..2][..1] == [ops[0]] && [ops[0]][..0] == [];
    RunLast([], ops[0]);
    RunLast([ops[0]], ops[1]);
    RunLast([ops[0], ops[1]], ops[2]);
  }

  lemma RunLast(ops: seq<Op>, op: Op)
    ensures Run(ops + [op]) == Apply(Run(ops), op)
  {
    assert (ops + [op])[..|ops|] == ops;
  }

  /** `UNSUBSCRIBE a/#/b` is such a request against `a/#`. */
  lemma MalformedExample()
    ensures IsValidPattern("a/#") && !IsValidPattern("a/#/b") && WalkedPattern("a/#/b") == "a/#"
  {
    SplitOfShort();
    SplitOfLong();
    assert Walk(["#", "b"]) == ["#"] && ["a", "#", "b"][1..] == ["#", "b"];
    assert Walk(["a", "#", "b"]) == ["a", "#"];
  }

  lemma SplitOfShort()
    ensures Split("a/#") == ["a", "#"] && Join(["a", "#"]) == "a/#"
  {
    JoinCons("a", ["#"]);
    assert ["a"] + ["#"] == ["a", "#"];
    assert "a" + "/" + Join(["#"]) == "a/#";
    LevelsJoin(["a", "#"]);
  }

  lemma SplitOfLong()
    ensures Split("a/#/b") == ["a", "#", "b"]
  {
    JoinCons("#", ["b"]);
    JoinCons("a", ["#"] + ["b"]);
    assert ["a"] + (["#"] + ["b"]) == ["a", "#", "b"];
    assert "#" + "/" + Join(["b"]) == "#/b" && "a" + "/" + "#/b" == "a/#/b";
    LevelsJoin(["a", "#", "b"]);
  }
}
