/** The subscription trie: linked nodes grown and walked level by level, proved to implement the
    operations of `SubscriptionIndex`. */
module TopicTries {
  import opened Topics
  import opened SubscriptionIndex

  class Node {
    var children: map<string, Node>  // literal levels and "+"
    var hashChild: Node?             // "#"
    var subscribers: set<nat>        // whose patterns end here

    constructor ()
      ensures Val() == NodeVal(map[], null, {})
    {
      children, hashChild, subscribers := map[], null, {};
    }

    function Val(): NodeVal
      reads this
    {
      NodeVal(children, hashChild, subscribers)
    }
  }

  /** What one node holds. */
  datatype NodeVal = NodeVal(children: map<string, Node>, hashChild: Node?, subscribers: set<nat>) {
    /** The child for a level, if there is one. */
    function Child(seg: string): Node? {
      if seg == "#" then hashChild else if seg in children then children[seg] else null
    }

    function WithChild(seg: string, child: Node): NodeVal {
      if seg == "#" then this.(hashChild := child) else this.(children := children[seg := child])
    }
  }

  type Nodes = map<seq<string>, Node>
  type Shape = map<seq<string>, NodeVal>

  /** The path one level below `p` is known exactly when that child exists, and leads to it. */
  ghost predicate ChildOk(nodeAt: Nodes, shape: Shape, p: seq<string>, seg: string)
    requires p in shape
  {
    shape[p].Child(seg) == if p + [seg] in nodeAt then nodeAt[p + [seg]] else null
  }

  /** The nodes form one tree, each known by the only path that leads to it. */
  ghost predicate ShapeOk(nodeAt: Nodes, shape: Shape) {
    && nodeAt.Keys == shape.Keys && [] in nodeAt
    && (forall p <- nodeAt, q <- nodeAt :: nodeAt[p] == nodeAt[q] ==> p == q)
    && (forall p {:trigger PathOk(nodeAt, p)} :: p in nodeAt ==> PathOk(nodeAt, p))
    && (forall p, seg {:trigger ChildOk(nodeAt, shape, p, seg)} :: p in shape ==> ChildOk(nodeAt, shape, p, seg))
  }

  ghost predicate PathOk(nodeAt: Nodes, p: seq<string>) {
    PathLevels(p) && (p != [] ==> p[..|p| - 1] in nodeAt)
  }

  const LEAF := NodeVal(map[], null, {})

  /** Hanging one new leaf below a node that has no such child keeps the tree. */
  lemma ShapeAdd(nodeAt: Nodes, shape: Shape, p: seq<string>, seg: string, child: Node)
    requires ShapeOk(nodeAt, shape) && p in nodeAt && NoSlash(seg) && seg != []
    requires p + [seg] !in nodeAt && child !in nodeAt.Values
    ensures var grown := shape[p := shape[p].WithChild(seg, child)][p + [seg] := LEAF];
            ShapeOk(nodeAt[p + [seg] := child], grown) && Subs(grown) == Subs(shape)[p + [seg] := {}]
  {
    var full := p + [seg];
    var nodes, shapes := nodeAt[full := child], shape[p := shape[p].WithChild(seg, child)][full := LEAF];
    assert full[..|full| - 1] == p && PathOk(nodeAt, p);
    forall q <- nodes ensures PathOk(nodes, q) {
      assert q != full ==> PathOk(nodeAt, q);
    }
    forall q <- shapes, s: string
      ensures ChildOk(nodes, shapes, q, s)
    {
      LastLevel(q, s, p, seg);
      if q == full {
        var below := full + [s];
        assert below[..|below| - 1] == full && (below in nodeAt ==> PathOk(nodeAt, below));
      } else {
        assert ChildOk(nodeAt, shape, q, s);
      }
    }
  }

  ghost function Subs(shape: Shape): map<seq<string>, set<nat>> {
    map p | p in shape :: shape[p].subscribers
  }

  ghost predicate PathLevels(p: seq<string>) {
    forall seg <- p :: NoSlash(seg) && seg != []
  }

  lemma JoinInjective(p: seq<string>, q: seq<string>)
    requires p != [] && (forall seg <- p :: NoSlash(seg))
    requires q != [] && (forall seg <- q :: NoSlash(seg))
    requires Join(p) == Join(q)
    ensures p == q
  {
    LevelsJoin(p);
    LevelsJoin(q);
  }

  lemma LastLevel(q: seq<string>, s: string, p: seq<string>, seg: string)
    ensures q + [s] == p + [seg] <==> q == p && s == seg
  {
    var a, b := q + [s], p + [seg];
    assert a[..|a| - 1] == q && a[|a| - 1] == s;
    assert b[..|b| - 1] == p && b[|b| - 1] == seg;
  }

  lemma NonemptyJoin(p: seq<string>)
    requires p != [] && PathLevels(p)
    ensures Join(p) != []
  {
    assert p[0] in p;
  }

  predicate Ascending(v: seq<nat>) {
    forall i, j :: 0 <= i < j < |v| ==> v[i] < v[j]
  }

  method Least(s: set<nat>) returns (least: nat)
    requires s != {}
    ensures least in s && forall y: nat :: y in s ==> least <= y
  {
    least :| least in s;
    var rest := s - {least};
    while rest != {}
      invariant rest <= s && least in s && forall y: nat :: y in s && y !in rest ==> least <= y
      decreases rest
    {
      var y :| y in rest;
      rest := rest - {y};
      if y < least { least := y; }
    }
  }

  /** Listing a set the way an ordered set is traversed. */
  method ToAscending(s: set<nat>) returns (v: seq<nat>)
    ensures Ascending(v) && forall x: nat :: x in v <==> x in s
  {
    var rest := s;
    v := [];
    while rest != {}
      invariant rest <= s && forall x: nat :: x in v <==> x in s && x !in rest
      invariant Ascending(v) && forall i, y :: 0 <= i < |v| && y in rest ==> v[i] < y
      decreases rest
    {
      var least := Least(rest);
      ghost var before, left := v, rest;
      rest := rest - {least};
      v := v + [least];
      forall x: nat
        ensures x in v <==> x in s && x !in rest
      {
        assert x in v <==> x in before || x == least;
        assert x in before <==> x in s && x !in left;
      }
    }
  }

  /** Subscribers by path, as the entries of the index. */
  ghost function EntriesOf(subs: map<seq<string>, set<nat>>): set<(string, nat)> {
    set p, id | p in subs && id in subs[p] :: (Join(p), id)
  }

  /** Only valid patterns have subscribers. */
  ghost predicate OnlyValidPaths(subs: map<seq<string>, set<nat>>) {
    forall p <- subs :: PathLevels(p) && (subs[p] != {} ==> ValidLevels(p))
  }

  /** One more path with nobody at it changes no entry. */
  lemma EmptyPath(nodeAt: Nodes, shape: Shape, before: map<seq<string>, set<nat>>, p: seq<string>)
    requires OnlyValidPaths(before) && ShapeOk(nodeAt, shape) && p !in before
    requires Subs(shape) == before[p := {}]
    ensures OnlyValidPaths(Subs(shape)) && EntriesOf(Subs(shape)) == EntriesOf(before)
  {
    var after := before[p := {}];
    assert p in Subs(shape) && PathOk(nodeAt, p);
    forall e | e in EntriesOf(after)
      ensures e in EntriesOf(before)
    {
      var q, i :| q in after && i in after[q] && e == (Join(q), i);
      assert q in before && i in before[q];
    }
    forall e | e in EntriesOf(before)
      ensures e in EntriesOf(after)
    {
      var q, i :| q in before && i in before[q] && e == (Join(q), i);
      assert q in after && i in after[q];
    }
  }

  /** An entry sits at the node its levels lead to, and nowhere else. */
  lemma EntryAt(subs: map<seq<string>, set<nat>>, q: seq<string>, id: nat)
    requires OnlyValidPaths(subs)
    requires (q == [] || Join(q) != []) && forall seg <- q :: NoSlash(seg)
    ensures (Join(q), id) in EntriesOf(subs) <==> q in subs && id in subs[q]
  {
    if (Join(q), id) in EntriesOf(subs) {
      var p :| p in subs && id in subs[p] && Join(p) == Join(q);
      NonemptyJoin(p);
      JoinInjective(p, q);
    }
  }

  /** One subscriber more, or fewer, at one path is one entry more, or fewer. */
  lemma ChangedEntry(subs: map<seq<string>, set<nat>>, q: seq<string>, id: nat)
    requires OnlyValidPaths(subs) && q in subs && ValidLevels(q)
    ensures EntriesOf(subs[q := subs[q] + {id}]) == EntriesOf(subs) + {(Join(q), id)}
    ensures EntriesOf(subs[q := subs[q] - {id}]) == EntriesOf(subs) - {(Join(q), id)}
    ensures OnlyValidPaths(subs[q := subs[q] + {id}]) && OnlyValidPaths(subs[q := subs[q] - {id}])
  {
    NonemptyJoin(q);
    AddedEntry(subs, subs[q := subs[q] - {id}], q, id);
    AddedEntry(subs[q := subs[q] + {id}], subs, q, id);
    var rest := subs[q := subs[q] - {id}];
    EntryAt(rest, q, id);
  }

  ghost function WithSubscriber(shape: Shape, p: seq<string>, id: nat, present: bool): Shape
    requires p in shape
  {
    var ids := shape[p].subscribers;
    shape[p := shape[p].(subscribers := if present then ids + {id} else ids - {id})]
  }

  lemma ShapeWithSubscriber(nodeAt: Nodes, shape: Shape, p: seq<string>, id: nat, present: bool)
    requires ShapeOk(nodeAt, shape) && p in shape
    ensures ShapeOk(nodeAt, WithSubscriber(shape, p, id, present))
  {
    var after := WithSubscriber(shape, p, id, present);
    forall q, seg | q in after ensures ChildOk(nodeAt, after, q, seg) {
      assert ChildOk(nodeAt, shape, q, seg);
    }
  }

  lemma EntriesWithSubscriber(shape: Shape, p: seq<string>, id: nat, present: bool)
    requires OnlyValidPaths(Subs(shape)) && p in shape && ValidLevels(p)
    ensures var after := Subs(WithSubscriber(shape, p, id, present));
            && OnlyValidPaths(after)
            && EntriesOf(after) == if present then EntriesOf(Subs(shape)) + {(Join(p), id)}
                                   else EntriesOf(Subs(shape)) - {(Join(p), id)}
  {
    var subs, after := Subs(shape), Subs(WithSubscriber(shape, p, id, present));
    ChangedEntry(subs, p, id);
    assert after == subs[p := if present then subs[p] + {id} else subs[p] - {id}];
  }

  /** Who is reached below `p` by a topic with levels `rest` still to go. */
  ghost function Reach(subs: map<seq<string>, set<nat>>, p: seq<string>, rest: seq<string>): set<nat> {
    set q, id | q in subs && p <= q && id in subs[q] && Covers(q[|p|..], rest) :: id
  }

  ghost function At(subs: map<seq<string>, set<nat>>, p: seq<string>): set<nat> {
    if p in subs then subs[p] else {}
  }

  /** One level of the search: the `#` child, the node itself at the end, and the two children
      that can match the next level. */
  ghost function ReachVia(subs: map<seq<string>, set<nat>>, p: seq<string>, rest: seq<string>): set<nat> {
    At(subs, p + ["#"]) + (if rest == [] then At(subs, p)
                           else Reach(subs, p + [rest[0]], rest[1..]) + Reach(subs, p + ["+"], rest[1..]))
  }

  lemma ReachSound(subs: map<seq<string>, set<nat>>, p: seq<string>, rest: seq<string>, q: seq<string>, id: nat)
    requires OnlyValidPaths(subs) && q in subs && id in subs[q]
    ensures p <= q && Covers(q[|p|..], rest) ==> id in ReachVia(subs, p, rest)
  {
    if p <= q && Covers(q[|p|..], rest) {
      var s := q[|p|..];
      forall i | 0 <= i < |s| - 1
        ensures s[i] != "#"
      {
        assert ValidLevel(q[|p| + i], |p| + i == |q| - 1);
      }
      CoversStep(s, rest);
      assert q == p + s;
      if s == [] {
        assert q == p && rest == [];
      } else if s == ["#"] {
        assert id in At(subs, p + ["#"]);
      } else {
        var below := p + [s[0]];
        assert q == below + s[1..] && below <= q && q[|below|..] == s[1..];
        assert id in Reach(subs, below, rest[1..]);
        assert s[0] == rest[0] || s[0] == "+";
      }
    }
  }

  lemma ReachComplete(subs: map<seq<string>, set<nat>>, p: seq<string>, rest: seq<string>, seg: string, q: seq<string>, id: nat)
    requires OnlyValidPaths(subs) && q in subs && id in subs[q] && rest != [] && Literal(rest[0])
    requires seg == rest[0] || seg == "+"
    requires p + [seg] <= q && Covers(q[|p + [seg]|..], rest[1..])
    ensures id in Reach(subs, p, rest)
  {
    var s := q[|p|..];
    assert s[0] == q[|p|] == seg && s[1..] == q[|p + [seg]|..];
    CoversStep(s, rest);
  }

  lemma ReachStep(nodeAt: Nodes, shape: Shape, p: seq<string>, rest: seq<string>)
    requires ShapeOk(nodeAt, shape) && OnlyValidPaths(Subs(shape)) && p in nodeAt && forall seg <- rest :: Literal(seg)
    ensures Reach(Subs(shape), p, rest) == ReachVia(Subs(shape), p, rest)
  {
    var subs := Subs(shape);
    forall id | id in Reach(subs, p, rest)
      ensures id in ReachVia(subs, p, rest)
    {
      var q :| q in subs && p <= q && id in subs[q] && Covers(q[|p|..], rest);
      ReachSound(subs, p, rest, q, id);
    }
    forall id | id in ReachVia(subs, p, rest)
      ensures id in Reach(subs, p, rest)
    {
      ReachBack(subs, p, rest, id);
    }
  }

  /** Nothing is reached through a level that has no node. */
  lemma ReachNowhere(nodeAt: Nodes, shape: Shape, p: seq<string>, rest: seq<string>)
    requires ShapeOk(nodeAt, shape) && p !in nodeAt
    ensures Reach(Subs(shape), p, rest) == {} && At(Subs(shape), p) == {}
  {
    forall q | q in nodeAt
      ensures !(p <= q)
    {
      AboveKnown(nodeAt, shape, q, p);
    }
  }

  lemma AboveKnown(nodeAt: Nodes, shape: Shape, q: seq<string>, p: seq<string>)
    requires ShapeOk(nodeAt, shape)
    ensures p <= q && q in nodeAt ==> p in nodeAt
  {
    if p <= q {
      PrefixKnown(nodeAt, shape, q, |p|);
      assert q[..|p|] == p;
    }
  }

  lemma ReachBack(subs: map<seq<string>, set<nat>>, p: seq<string>, rest: seq<string>, id: nat)
    requires OnlyValidPaths(subs) && id in ReachVia(subs, p, rest) && forall seg <- rest :: Literal(seg)
    ensures id in Reach(subs, p, rest)
  {
    if id in At(subs, p + ["#"]) {
      var q := p + ["#"];
      assert p <= q && q[|p|..] == ["#"] && Covers(["#"], rest);
    } else if rest == [] {
      assert p <= p && p[|p|..] == [] && Covers([], rest);
    } else {
      assert rest[0] in rest;
      var seg := if id in Reach(subs, p + [rest[0]], rest[1..]) then rest[0] else "+";
      var q :| q in subs && p + [seg] <= q && id in subs[q] && Covers(q[|p + [seg]|..], rest[1..]);
      ReachComplete(subs, p, rest, seg, q, id);
    }
  }

  /** From the root the search finds exactly the entries whose pattern matches. */
  lemma ReachIsMatch(subs: map<seq<string>, set<nat>>, ix: Index, topic: string)
    requires OnlyValidPaths(subs) && ix.entries == EntriesOf(subs) && IsConcrete(topic)
    ensures Reach(subs, [], Split(topic)) == MatchSet(ix, topic)
  {
    var segs := Split(topic);
    forall id | id in Reach(subs, [], segs)
      ensures id in MatchSet(ix, topic)
    {
      var q :| q in subs && id in subs[q] && Covers(q[0..], segs);
      assert q[0..] == q;
      PathPattern(q);
      assert (Join(q), id) in ix.entries && Matches(Join(q), topic);
    }
    forall id | id in MatchSet(ix, topic)
      ensures id in Reach(subs, [], segs)
    {
      var e :| e in ix.entries && Matches(e.0, topic) && e.1 == id;
      var q, i :| q in subs && i in subs[q] && e == (Join(q), i);
      PathPattern(q);
      assert q[0..] == q && [] <= q;
    }
  }

  lemma PathPattern(q: seq<string>)
    requires ValidLevels(q) && PathLevels(q)
    ensures Split(Join(q)) == q && IsValidPattern(Join(q))
  {
    LevelsJoin(q);
    NonemptyJoin(q);
  }

  lemma AddedEntry(more: map<seq<string>, set<nat>>, less: map<seq<string>, set<nat>>, q: seq<string>, id: nat)
    requires more.Keys == less.Keys && q in more && more[q] - {id} == less[q] - {id}
    requires forall p <- more :: p != q ==> more[p] == less[p]
    ensures EntriesOf(more) + {(Join(q), id)} == EntriesOf(less) + {(Join(q), id)}
  {
    HalfEntry(more, less, q, id);
    HalfEntry(less, more, q, id);
  }

  lemma HalfEntry(a: map<seq<string>, set<nat>>, b: map<seq<string>, set<nat>>, q: seq<string>, id: nat)
    requires a.Keys == b.Keys && q in a && a[q] - {id} == b[q] - {id}
    requires forall p <- a :: p != q ==> a[p] == b[p]
    ensures EntriesOf(a) <= EntriesOf(b) + {(Join(q), id)}
  {
    forall e | e in EntriesOf(a)
      ensures e in EntriesOf(b) + {(Join(q), id)}
    {
      var p, i :| p in a && i in a[p] && e == (Join(p), i);
      if p == q && i != id {
        assert i in a[q] - {id};
      }
      if p != q || i != id {
        assert p in b && i in b[p];
      }
    }
  }

  class TopicTrie {
    const root: Node
    var idPatterns: map<nat, set<string>>
    ghost var nodeAt: Nodes  // every node, by the levels leading to it
    ghost var shape: Shape   // what each of them holds

    ghost predicate Tree()
      reads this, nodeAt.Values
    {
      && ShapeOk(nodeAt, shape) && nodeAt[[]] == root
      && forall p <- nodeAt :: nodeAt[p].Val() == shape[p]
    }

    /** A tree in which only valid patterns have subscribers. */
    ghost predicate Good()
      reads this, nodeAt.Values
    {
      Tree() && OnlyValidPaths(Subs(shape))
    }

    ghost function Entries(): set<(string, nat)>
      reads this
    {
      EntriesOf(Subs(shape))
    }

    ghost function View(): Index
      reads this
    {
      Index(Entries(), idPatterns)
    }

    ghost predicate Valid()
      reads this, nodeAt.Values
    {
      Good() && Sound(View())
    }

    constructor ()
      ensures Valid() && View() == EMPTY && fresh(nodeAt.Values)
    {
      root := new Node();
      idPatterns := map[];
      new;
      nodeAt, shape := map[[] := root], map[[] := LEAF];
    }

    method AddChild(cur: Node, ghost p: seq<string>, seg: string) returns (child: Node)
      requires Tree() && p in nodeAt && cur == nodeAt[p] && NoSlash(seg) && seg != []
      requires p + [seg] !in nodeAt
      modifies this`nodeAt, this`shape, cur
      ensures Tree() && nodeAt == old(nodeAt)[p + [seg] := child] && fresh(child)
      ensures Subs(shape) == Subs(old(shape))[p + [seg] := {}]
    {
      ghost var full := p + [seg];
      child := new Node();
      ShapeAdd(nodeAt, shape, p, seg, child);
      if seg == "#" {
        cur.hashChild := child;
      } else {
        cur.children := cur.children[seg := child];
      }
      ghost var nodes := nodeAt[full := child];
      ghost var shapes := shape[p := shape[p].WithChild(seg, child)][full := LEAF];
      forall q <- nodes
        ensures nodes[q].Val() == shapes[q]
      {
        if q != full && q != p {
          assert nodes[q] == nodeAt[q] && nodeAt[q] != cur;
        }
      }
      nodeAt, shape := nodes, shapes;
    }

    /** The child for a level, created when missing. */
    method Descend(cur: Node, ghost p: seq<string>, seg: string) returns (child: Node)
      requires Good() && p in nodeAt && cur == nodeAt[p] && NoSlash(seg) && seg != []
      modifies this`nodeAt, this`shape, cur
      ensures Good() && Entries() == old(Entries()) && fresh(nodeAt.Values - old(nodeAt.Values))
      ensures p + [seg] in nodeAt && child == nodeAt[p + [seg]]
    {
      assert ChildOk(nodeAt, shape, p, seg);
      if seg == "#" && cur.hashChild != null {
        child := cur.hashChild;
      } else if seg != "#" && seg in cur.children {
        child := cur.children[seg];
      } else {
        ghost var before := Subs(shape);
        child := AddChild(cur, p, seg);
        EmptyPath(nodeAt, shape, before, p + [seg]);
      }
    }

    /** Walks a valid pattern's levels from the root, growing what is missing. */
    method Grow(segs: seq<string>) returns (cur: Node)
      requires Good() && ValidLevels(segs) && forall seg <- segs :: NoSlash(seg)
      modifies this`nodeAt, this`shape, nodeAt.Values
      ensures Good() && Entries() == old(Entries()) && fresh(nodeAt.Values - old(nodeAt.Values))
      ensures segs in nodeAt && cur == nodeAt[segs]
    {
      cur := root;
      var i := 0;
      assert segs[..0] == [];
      while i < |segs|
        invariant i <= |segs|
        invariant Good() && Entries() == old(Entries()) && fresh(nodeAt.Values - old(nodeAt.Values))
        invariant segs[..i] in nodeAt && cur == nodeAt[segs[..i]]
      {
        var seg := segs[i];
        assert seg in segs && ValidLevel(seg, i == |segs| - 1);
        assert segs[..i] + [seg] == segs[..i + 1];
        cur := Descend(cur, segs[..i], seg);
        i := i + 1;
        if seg == "#" {
          break;  // '#' is the last level
        }
      }
      assert segs[..|segs|] == segs;
    }

    /** Adds or drops one subscriber at one node: one entry more or fewer. */
    method SetSubscriber(cur: Node, ghost p: seq<string>, id: nat, present: bool)
      requires Good() && p in nodeAt && cur == nodeAt[p] && ValidLevels(p)
      modifies this`shape, cur
      ensures Good()
      ensures Entries() == if present then old(Entries()) + {(Join(p), id)} else old(Entries()) - {(Join(p), id)}
    {
      ShapeWithSubscriber(nodeAt, shape, p, id, present);
      EntriesWithSubscriber(shape, p, id, present);
      ghost var before, after := shape, WithSubscriber(shape, p, id, present);
      cur.subscribers := if present then cur.subscribers + {id} else cur.subscribers - {id};
      shape := after;
      forall q <- nodeAt
        ensures nodeAt[q].Val() == shape[q]
      {
        if q != p {
          assert nodeAt[q] != cur && shape[q] == before[q];
        }
      }
    }

    method Enter(segs: seq<string>, id: nat)
      requires Good() && ValidLevels(segs) && forall seg <- segs :: NoSlash(seg)
      modifies this`nodeAt, this`shape, nodeAt.Values
      ensures Good() && fresh(nodeAt.Values - old(nodeAt.Values))
      ensures Entries() == old(Entries()) + {(Join(segs), id)}
    {
      var cur := Grow(segs);
      SetSubscriber(cur, segs, id, true);
    }

    method Remember(pattern: string, id: nat)
      modifies this`idPatterns
      ensures idPatterns == WithPats(old(idPatterns), id, Pats(old(View()), id) + {pattern})
    {
      var pats := if id in idPatterns then idPatterns[id] else {};
      idPatterns := idPatterns[id := pats + {pattern}];
    }

    method Forget(pattern: string, id: nat)
      modifies this`idPatterns
      ensures idPatterns == if id in old(idPatterns) then WithPats(old(idPatterns), id, Pats(old(View()), id) - {pattern})
                            else old(idPatterns)
    {
      if id in idPatterns {
        var pats := idPatterns[id] - {pattern};
        idPatterns := if pats == {} then idPatterns - {id} else idPatterns[id := pats];
      }
    }

    method Subscribe(pattern: string, id: nat) returns (ok: bool)
      requires Valid()
      modifies this, nodeAt.Values
      ensures Valid() && fresh(nodeAt.Values - old(nodeAt.Values))
      ensures ok <==> IsValidPattern(pattern)
      ensures View() == SubscriptionIndex.Subscribe(old(View()), pattern, id)
    {
      ghost var ix := View();
      ok := CheckPattern(pattern);
      if ok {
        var segs := SplitTopic(pattern);
        Enter(segs, id);
        JoinLevels(pattern);
        Remember(pattern, id);
      }
      ApplySound(ix, Sub(pattern, id));
    }

    /** Follows raw levels as far as they go; `last` is where the walk would end. */
    method Follow(segs: seq<string>, ghost last: seq<string>) returns (cur: Node?)
      requires Good() && last == Walk(segs)
      ensures cur == if last in nodeAt then nodeAt[last] else null
    {
      var node := root;
      var i := 0;
      assert segs[..0] == [] && segs[0..] == segs;
      while i < |segs|
        invariant i <= |segs| && segs[..i] in nodeAt && node == nodeAt[segs[..i]]
        invariant last == segs[..i] + Walk(segs[i..])
      {
        var seg := segs[i];
        assert segs[i..][0] == seg && segs[i..][1..] == segs[i + 1..];
        assert segs[..i] + [seg] == segs[..i + 1];
        assert ChildOk(nodeAt, shape, segs[..i], seg);
        if seg == "#" {
          assert last == segs[..i] + ["#"];
          return node.hashChild;
        }
        assert last == segs[..i + 1] + Walk(segs[i + 1..]);
        if seg !in node.children {
          PrefixKnown(nodeAt, shape, last, i + 1);
          assert last[..i + 1] == segs[..i + 1];
          return null;
        }
        node := node.children[seg];
        i := i + 1;
      }
      assert segs[..|segs|] == segs && Walk(segs[|segs|..]) == [];
      assert last == segs;
      return node;
    }

    /** Drops one subscriber at the end of a raw walk, if both are there. */
    method Drop(pattern: string, id: nat) returns (removed: bool)
      requires Good()
      modifies this`shape, nodeAt.Values
      ensures Good() && (removed <==> (WalkedPattern(pattern), id) in old(Entries()))
      ensures Entries() == if removed then old(Entries()) - {(WalkedPattern(pattern), id)} else old(Entries())
    {
      var segs := SplitTopic(pattern);
      ghost var last := Walk(segs);
      WalkOfText(pattern);
      EntryAt(Subs(shape), last, id);
      var cur := Follow(segs, last);
      removed := cur != null && id in cur.subscribers;
      if removed {
        SetSubscriber(cur, last, id, false);
      }
    }

    method Unsubscribe(pattern: string, id: nat) returns (removed: bool)
      requires Valid()
      modifies this, nodeAt.Values
      ensures Valid() && nodeAt == old(nodeAt)
      ensures removed <==> (WalkedPattern(pattern), id) in old(View()).entries
      ensures View() == SubscriptionIndex.Unsubscribe(old(View()), pattern, id)
    {
      ghost var ix := View();
      removed := Drop(pattern, id);
      if removed {
        Forget(pattern, id);
      }
      ApplySound(ix, Unsub(pattern, id));
    }

    method UnsubscribeAll(id: nat)
      requires Valid()
      modifies this, nodeAt.Values
      ensures Valid() && nodeAt == old(nodeAt)
      ensures View() == SubscriptionIndex.UnsubscribeAll(old(View()), id)
    {
      if id !in idPatterns {
        return;
      }
      ghost var ix := View();
      var todo := idPatterns[id];  // a copy: the loop edits the index itself
      AllButEnds(ix, id);
      while todo != {}
        invariant Valid() && nodeAt == old(nodeAt) && todo <= Pats(ix, id)
        invariant View() == AllBut(ix, id, todo)
        decreases todo
      {
        var pattern :| pattern in todo;
        AllButStep(ix, id, todo, pattern);
        var _ := Unsubscribe(pattern, id);
        todo := todo - {pattern};
      }
    }

    /** Depth-first search below one node; `p` is the path to it. */
    method Collect(node: Node, ghost p: seq<string>, segs: seq<string>, idx: nat, out: set<nat>) returns (found: set<nat>)
      requires Good() && p in nodeAt && node == nodeAt[p]
      requires idx <= |segs| && forall seg <- segs :: Literal(seg)
      ensures found == out + Reach(Subs(shape), p, segs[idx..])
      decreases |segs| - idx, 1
    {
      ghost var subs, rest := Subs(shape), segs[idx..];
      ReachStep(nodeAt, shape, p, rest);
      found := out;
      var hash := HashSubscribers(node, p);
      found := found + hash;  // '#' also matches nothing more
      if idx == |segs| {
        assert rest == [];
        found := found + node.subscribers;
        return;
      }
      var seg := segs[idx];
      assert seg in segs && rest[0] == seg && rest[1..] == segs[idx + 1..];
      found := CollectChild(node, p, seg, segs, idx, found);
      found := CollectChild(node, p, "+", segs, idx, found);
    }

    method HashSubscribers(node: Node, ghost p: seq<string>) returns (ids: set<nat>)
      requires Good() && p in nodeAt && node == nodeAt[p]
      ensures ids == At(Subs(shape), p + ["#"])
    {
      assert ChildOk(nodeAt, shape, p, "#");
      ids := if node.hashChild != null then node.hashChild.subscribers else {};
    }

    method CollectChild(node: Node, ghost p: seq<string>, seg: string, segs: seq<string>, idx: nat, out: set<nat>)
      returns (found: set<nat>)
      requires Good() && p in nodeAt && node == nodeAt[p] && seg != "#"
      requires idx < |segs| && forall seg <- segs :: Literal(seg)
      ensures found == out + Reach(Subs(shape), p + [seg], segs[idx + 1..])
      decreases |segs| - idx, 0
    {
      assert ChildOk(nodeAt, shape, p, seg);
      if seg in node.children {
        found := Collect(node.children[seg], p + [seg], segs, idx + 1, out);
      } else {
        ReachNowhere(nodeAt, shape, p + [seg], segs[idx + 1..]);
        found := out;
      }
    }

    /** The subscribers of a topic, each once, in ascending order. */
    method Match(topic: string) returns (ids: seq<nat>)
      requires Valid()
      ensures Ascending(ids) && forall id: nat :: id in ids <==> id in MatchSet(View(), topic)
    {
      var found: set<nat> := {};
      var concrete := CheckConcrete(topic);
      if concrete {
        var segs := SplitTopic(topic);
        assert segs[0..] == segs;
        found := Collect(root, [], segs, 0, {});
        ReachIsMatch(Subs(shape), View(), topic);
      }
      ids := ToAscending(found);
    }

    /** How many patterns are remembered, over all subscribers. */
    method Size() returns (total: nat)
      ensures total == |Remembered(idPatterns, idPatterns.Keys)|
    {
      total := 0;
      var rest := idPatterns.Keys;
      assert Remembered(idPatterns, {}) == {};
      while rest != {}
        invariant rest <= idPatterns.Keys && total == |Remembered(idPatterns, idPatterns.Keys - rest)|
        decreases rest
      {
        var id :| id in rest;
        RememberedMore(idPatterns, idPatterns.Keys - rest, id);
        assert idPatterns.Keys - (rest - {id}) == idPatterns.Keys - rest + {id};
        rest := rest - {id};
        total := total + |idPatterns[id]|;
      }
      assert idPatterns.Keys - rest == idPatterns.Keys;
    }

    method CountFor(id: nat) returns (n: nat)
      ensures n == |Pats(View(), id)|
    {
      n := if id in idPatterns then |idPatterns[id]| else 0;
    }
  }

  /** A raw walk ends at a path that is spelled like a pattern. */
  lemma {:induction false} WalkSpelling(segs: seq<string>)
    requires forall seg <- segs :: NoSlash(seg)
    ensures forall seg <- Walk(segs) :: NoSlash(seg)
    ensures Walk(segs) != [] && (|segs| > 1 || segs != [""]) ==> Join(Walk(segs)) != []
  {
    if segs != [] && segs[0] != "#" {
      WalkSpelling(segs[1..]);
    }
  }

  lemma WalkOfText(pattern: string)
    ensures var last := Walk(Split(pattern));
            (last == [] || Join(last) != []) && forall seg <- last :: NoSlash(seg)
  {
    WalkSpelling(Split(pattern));
    JoinLevels(pattern);
  }

  /** Every prefix of a known path is known. */
  lemma {:induction false} PrefixKnown(nodeAt: Nodes, shape: Shape, p: seq<string>, k: nat)
    requires ShapeOk(nodeAt, shape) && k <= |p|
    ensures p in nodeAt ==> p[..k] in nodeAt
    decreases |p|
  {
    if k == |p| {
      assert p[..k] == p;
    } else {
      assert p in nodeAt ==> PathOk(nodeAt, p);
      PrefixKnown(nodeAt, shape, p[..|p| - 1], k);
      assert p[..|p| - 1][..k] == p[..k];
    }
  }
}
