/** Topic names and subscription patterns: levels separated by '/', `+` for one level, a final
    `#` for any number of levels, no empty levels. */
module Topics {
  import opened Facts

  predicate NoSlash(seg: string) {
    '/' !in seg
  }

  function FindChar(s: string, c: char): (i: nat)
    ensures i <= |s| && c !in s[..i] && (i < |s| ==> s[i] == c)
  {
    if s == [] || s[0] == c then 0
    else
      var i := 1 + FindChar(s[1..], c);
      assert s[..i] == [s[0]] + s[1..][..i - 1];
      i
  }

  /** Cutting a text at every '/'; a text without one is a single level. */
  function Levels(s: string): (segs: seq<string>)
    ensures segs != [] && forall seg <- segs :: NoSlash(seg)
    decreases |s|
  {
    var i := FindChar(s, '/');
    if i == |s| then
      assert s[..i] == s;
      [s]
    else [s[..i]] + Levels(s[i + 1..])
  }

  function Split(topic: string): seq<string> {
    if topic == [] then [] else Levels(topic)
  }

  function Join(segs: seq<string>): string {
    if segs == [] then [] else if |segs| == 1 then segs[0] else segs[0] + "/" + Join(segs[1..])
  }

  lemma JoinCons(a: string, segs: seq<string>)
    requires segs != []
    ensures Join([a] + segs) == a + "/" + Join(segs)
  {
    assert ([a] + segs)[1..] == segs;
  }

  lemma CutAt(s: string, i: nat)
    requires i < |s| && s[i] == '/'
    ensures s == s[..i] + "/" + s[i + 1..]
  {
  }

  lemma {:induction false} JoinLevels(s: string)
    ensures Join(Levels(s)) == s
    decreases |s|
  {
    var i := FindChar(s, '/');
    if i < |s| {
      JoinLevels(s[i + 1..]);
      JoinCons(s[..i], Levels(s[i + 1..]));
      CutAt(s, i);
    }
  }

  lemma {:induction false} FindCharIs(s: string, c: char, k: nat)
    requires k <= |s| && c !in s[..k] && (k < |s| ==> s[k] == c)
    ensures FindChar(s, c) == k
  {
    InPrefix(s, FindChar(s, c), k);
    InPrefix(s, k, FindChar(s, c));
  }

  lemma {:induction false} LevelsJoin(segs: seq<string>)
    requires segs != [] && forall seg <- segs :: NoSlash(seg)
    ensures Levels(Join(segs)) == segs
    decreases |segs|
  {
    var s, first := Join(segs), segs[0];
    assert NoSlash(first);
    assert s[..|first|] == first;
    FindCharIs(s, '/', |first|);
    if |segs| > 1 {
      assert s[|first| + 1..] == Join(segs[1..]);
      LevelsJoin(segs[1..]);
    }
  }

  /** Splitting loses nothing: a topic is determined by its levels. */
  lemma SplitInjective(a: string, b: string)
    requires Split(a) == Split(b)
    ensures a == b
  {
    JoinLevels(a);
    JoinLevels(b);
  }

  method SplitTopic(topic: string) returns (segments: seq<string>)
    ensures segments == Split(topic)
  {
    segments := [];
    if topic == [] {
      return;
    }
    var start := 0;
    while true
      invariant start <= |topic|
      invariant Levels(topic) == segments + Levels(topic[start..])
      decreases |topic| - start
    {
      var slash := start + FindChar(topic[start..], '/');
      LevelsStep(topic, start, slash, segments);
      if slash == |topic| {
        segments := segments + [topic[start..]];
        break;
      }
      segments := segments + [topic[start..slash]];
      start := slash + 1;
    }
  }

  lemma LevelsStep(topic: string, start: nat, slash: nat, before: seq<string>)
    requires start <= |topic| && slash == start + FindChar(topic[start..], '/')
    ensures slash == |topic| ==> before + Levels(topic[start..]) == before + [topic[start..]]
    ensures slash < |topic| ==>
              before + Levels(topic[start..]) == before + [topic[start..slash]] + Levels(topic[slash + 1..])
  {
    if slash < |topic| {
      assert topic[start..][..slash - start] == topic[start..slash];
      assert topic[start..][slash - start + 1..] == topic[slash + 1..];
      assert Levels(topic[start..]) == [topic[start..slash]] + Levels(topic[slash + 1..]);
    }
  }

  predicate HasWildcardChar(seg: string) {
    '+' in seg || '#' in seg
  }

  /** One level of a pattern, knowing whether it is the last one. */
  predicate ValidLevel(seg: string, last: bool) {
    seg != [] && (if seg == "#" then last else seg == "+" || !HasWildcardChar(seg))
  }

  predicate ValidLevels(segs: seq<string>) {
    segs != [] && forall i :: 0 <= i < |segs| ==> ValidLevel(segs[i], i == |segs| - 1)
  }

  predicate IsValidPattern(pattern: string) {
    pattern != [] && ValidLevels(Split(pattern))
  }

  predicate Literal(seg: string) {
    seg != "+" && seg != "#"
  }

  predicate IsConcrete(topic: string) {
    IsValidPattern(topic) && forall seg <- Split(topic) :: Literal(seg)
  }

  predicate LevelMatches(p: string, t: string) {
    p == "+" || p == t
  }

  /** What a pattern means: level by level, and with a final `#` any continuation, even none. */
  predicate Covers(p: seq<string>, t: seq<string>) {
    if p != [] && p[|p| - 1] == "#" then
      |p| - 1 <= |t| && forall i :: 0 <= i < |p| - 1 ==> LevelMatches(p[i], t[i])
    else
      |p| == |t| && forall i :: 0 <= i < |p| ==> LevelMatches(p[i], t[i])
  }

  predicate Matches(pattern: string, topic: string) {
    IsValidPattern(pattern) && IsConcrete(topic) && Covers(Split(pattern), Split(topic))
  }

  method CheckPattern(pattern: string) returns (ok: bool)
    ensures ok <==> IsValidPattern(pattern)
  {
    if pattern == [] {
      return false;
    }
    var segs := SplitTopic(pattern);
    for i := 0 to |segs|
      invariant forall j :: 0 <= j < i ==> ValidLevel(segs[j], j == |segs| - 1)
    {
      var seg := segs[i];
      if seg == [] {
        return false;
      }
      if seg == "#" {
        if i != |segs| - 1 {
          return false;
        }
        continue;
      }
      if seg == "+" {
        continue;
      }
      if HasWildcardChar(seg) {
        return false;
      }
    }
    return true;
  }

  method CheckConcrete(topic: string) returns (ok: bool)
    ensures ok <==> IsConcrete(topic)
  {
    var valid := CheckPattern(topic);
    if !valid {
      return false;
    }
    var segs := SplitTopic(topic);
    for i := 0 to |segs|
      invariant forall j :: 0 <= j < i ==> Literal(segs[j])
    {
      if segs[i] == "+" || segs[i] == "#" {
        assert segs[i] in Split(topic) && !Literal(segs[i]);
        return false;
      }
    }
    return true;
  }

  /** The two-cursor walk decides exactly the declarative meaning. */
  method MatchTopic(pattern: string, topic: string) returns (r: bool)
    ensures r <==> Matches(pattern, topic)
  {
    var valid := CheckPattern(pattern);
    var concrete := CheckConcrete(topic);
    if !valid || !concrete {
      return false;
    }
    var p := SplitTopic(pattern);
    var t := SplitTopic(topic);
    r := MatchLevels(p, t);
  }

  method MatchLevels(p: seq<string>, t: seq<string>) returns (r: bool)
    requires ValidLevels(p)
    ensures r <==> Covers(p, t)
  {
    var i, j := 0, 0;
    while i < |p|
      invariant i == j && i <= |p| && j <= |t|
      invariant forall k :: 0 <= k < i ==> LevelMatches(p[k], t[k]) && p[k] != "#"
    {
      assert ValidLevel(p[i], i == |p| - 1);
      if p[i] == "#" {
        return true;
      }
      if j >= |t| {
        return false;
      }
      if p[i] == "+" || p[i] == t[j] {
        i, j := i + 1, j + 1;
        continue;
      }
      assert !LevelMatches(p[i], t[i]);
      return false;
    }
    return j == |t|;
  }

  /** How far a walk along raw levels goes: up to and including the first `#`. */
  function Walk(segs: seq<string>): seq<string> {
    if segs == [] then [] else if segs[0] == "#" then ["#"] else [segs[0]] + Walk(segs[1..])
  }

  lemma {:induction false} WalkOfValid(segs: seq<string>)
    requires forall i :: 0 <= i < |segs| ==> ValidLevel(segs[i], i == |segs| - 1)
    ensures Walk(segs) == segs
  {
    if segs != [] && segs[0] != "#" {
      WalkOfValid(segs[1..]);
    }
  }

  /** The first level decides, then the rest. */
  lemma CoversStep(p: seq<string>, t: seq<string>)
    requires forall i :: 0 <= i < |p| - 1 ==> p[i] != "#"
    ensures Covers(p, t) <==>
      (p == ["#"] || (p == [] && t == []) ||
       (p != [] && p != ["#"] && t != [] && LevelMatches(p[0], t[0]) && Covers(p[1..], t[1..])))
  {
    if p != [] && p != ["#"] && t != [] {
      var q, u := p[1..], t[1..];
      assert q != [] ==> q[|q| - 1] == p[|p| - 1];
      if LevelMatches(p[0], t[0]) && Covers(q, u) {
        forall i | 0 <= i < |p| && i < |t| && (p[|p| - 1] == "#" ==> i < |p| - 1)
          ensures LevelMatches(p[i], t[i])
        {
          if i > 0 {
            assert LevelMatches(q[i - 1], u[i - 1]);
          }
        }
      }
    }
  }
}
