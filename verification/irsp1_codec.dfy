/** The irsp1 streaming decoder and what it guarantees about the encoder's output. */
module Irsp1Codec {
  import opened Options
  import opened IrspValues

  datatype Status = Ok | Incomplete | Malformed

  datatype Parsed = Parsed(status: Status, value: Value, pos: nat)

  datatype ParsedMany = ParsedMany(status: Status, items: seq<Value>, pos: nat)

  predicate CrlfAt(b: string, i: nat) {
    i + 1 < |b| && b[i] == '\r' && b[i + 1] == '\n'
  }

  /** Index of the first CRLF at or after `pos`; the length of `b` when there is none. */
  function FindCrlf(b: string, pos: nat): (i: nat)
    ensures i < |b| ==> pos <= i && CrlfAt(b, i)
    ensures i >= |b| ==> i == |b|
    decreases |b| - pos
  {
    if pos + 1 >= |b| then |b| else if CrlfAt(b, pos) then pos else FindCrlf(b, pos + 1)
  }

  lemma {:induction false} FindCrlfIsFirst(b: string, pos: nat, j: nat)
    requires pos <= j && CrlfAt(b, j)
    ensures FindCrlf(b, pos) <= j
    decreases j - pos
  {
    if !CrlfAt(b, pos) {
      FindCrlfIsFirst(b, pos + 1, j);
    }
  }

  /** Index of the first `c`; the length of `s` when there is none. */
  function IndexOf(s: string, c: char): (i: nat)
    ensures i <= |s| && (i < |s| ==> s[i] == c)
  {
    if s == [] || s[0] == c then 0 else 1 + IndexOf(s[1..], c)
  }

  lemma {:induction false} IndexOfIsFirst(s: string, c: char)
    ensures c !in s[..IndexOf(s, c)]
  {
    if s != [] && s[0] != c {
      IndexOfIsFirst(s[1..], c);
      assert s[..IndexOf(s, c)] == [s[0]] + s[1..][..IndexOf(s[1..], c)];
    }
  }

  /** An error line: the code is everything before the first space. */
  function ErrorOf(line: string): Value {
    var sp := IndexOf(line, ' ');
    if sp == |line| then Error(line, []) else Error(line[..sp], line[sp + 1..])
  }

  /** One value starting at `pos`. */
  function Parse(b: string, pos: nat): (r: Parsed)
    ensures r.status == Ok ==> pos + 3 <= r.pos <= |b|
    ensures r.status != Ok ==> r.value == Null && r.pos == pos
    decreases |b| - pos, 0
  {
    if pos >= |b| then Parsed(Incomplete, Null, pos)
    else
      var lineEnd := FindCrlf(b, pos + 1);
      if lineEnd >= |b| then Parsed(Incomplete, Null, pos)
      else ParseTyped(b, pos, b[pos], b[pos + 1..lineEnd], lineEnd + 2)
  }

  function ParseTyped(b: string, pos: nat, tag: char, line: string, after: nat): (r: Parsed)
    requires pos + 3 <= after <= |b|
    ensures r.status == Ok ==> after <= r.pos <= |b|
    ensures r.status != Ok ==> r.value == Null && r.pos == pos
    decreases |b| - after, 2
  {
    if tag == '+' then Parsed(Ok, Simple(line), after)
    else if tag == '-' then Parsed(Ok, ErrorOf(line), after)
    else
      var n := ParseInt(line);
      if tag == ':' then
        if n.None? then Parsed(Malformed, Null, pos) else Parsed(Ok, Integer(n.value), after)
      else if tag == '$' then
        if n.None? then Parsed(Malformed, Null, pos)
        else if n.value < 0 then Parsed(Ok, Null, after)
        else
          var need := after + n.value + 2;
          if |b| < need then Parsed(Incomplete, Null, pos)
          else if !CrlfAt(b, need - 2) then Parsed(Malformed, Null, pos)
          else Parsed(Ok, Bulk(b[after..need - 2]), need)
      else if tag == '*' then
        if n.None? then Parsed(Malformed, Null, pos)
        else if n.value < 0 then Parsed(Ok, Null, after)
        else
          var m := ParseMany(b, after, n.value, []);
          if m.status != Ok then Parsed(m.status, Null, pos) else Parsed(Ok, Array(m.items), m.pos)
      else if tag == '%' then
        if n.None? || n.value < 0 then Parsed(Malformed, Null, pos)
        else
          var m := ParseMany(b, after, 2 * n.value, []);
          if m.status != Ok then Parsed(m.status, Null, pos) else Parsed(Ok, Map(Pairs(m.items)), m.pos)
      else Parsed(Malformed, Null, pos)
  }

  /** `n` values in a row, appended to `acc`. */
  function ParseMany(b: string, cur: nat, n: nat, acc: seq<Value>): (r: ParsedMany)
    requires cur <= |b|
    ensures r.status == Ok ==> cur <= r.pos <= |b| && |r.items| == |acc| + n && acc <= r.items
    decreases |b| - cur, 1
  {
    if n == 0 then ParsedMany(Ok, acc, cur)
    else
      var st := Parse(b, cur);
      if st.status != Ok then ParsedMany(st.status, [], cur)
      else ParseMany(b, st.pos, n - 1, acc + [st.value])
  }

  function Decode(b: string): Parsed {
    Parse(b, 0)
  }

  // ---------------------------------------------------------------- the decoder as written

  method FindCrlfLoop(b: string, pos: nat) returns (i: nat)
    ensures i == FindCrlf(b, pos)
  {
    i := pos;
    while i + 1 < |b|
      invariant FindCrlf(b, pos) == FindCrlf(b, i)
    {
      if b[i] == '\r' && b[i + 1] == '\n' {
        return;
      }
      i := i + 1;
    }
    i := |b|;
  }

  method ParseValue(b: string, pos: nat) returns (r: Parsed)
    ensures r == Parse(b, pos)
    decreases |b| - pos, 0
  {
    if pos >= |b| {
      return Parsed(Incomplete, Null, pos);
    }
    var lineEnd := FindCrlfLoop(b, pos + 1);
    if lineEnd >= |b| {
      return Parsed(Incomplete, Null, pos);
    }
    r := ParseLine(b, pos, b[pos], b[pos + 1..lineEnd], lineEnd + 2);
  }

  /** What the first line announces, with the values that follow it. */
  method ParseLine(b: string, pos: nat, tag: char, line: string, after: nat) returns (r: Parsed)
    requires pos + 3 <= after <= |b|
    ensures r == ParseTyped(b, pos, tag, line, after)
    decreases |b| - after, 3
  {
    match tag
    case '*' =>
      var count := ParseInt(line);
      if count.None? { return Parsed(Malformed, Null, pos); }
      if count.value < 0 { return Parsed(Ok, Null, after); }
      var m := ParseItems(b, after, count.value);
      return if m.status != Ok then Parsed(m.status, Null, pos) else Parsed(Ok, Array(m.items), m.pos);
    case '%' =>
      var pairs := ParseInt(line);
      if pairs.None? || pairs.value < 0 { return Parsed(Malformed, Null, pos); }
      var status, entries, cur := ParseEntries(b, after, pairs.value);
      return if status != Ok then Parsed(status, Null, pos) else Parsed(Ok, Map(entries), cur);
    case _ =>
      return ParseTyped(b, pos, tag, line, after);
  }

  method ParseItems(b: string, after: nat, count: nat) returns (r: ParsedMany)
    requires after <= |b|
    ensures var m := ParseMany(b, after, count, []);
            r.status == m.status && (r.status == Ok ==> r == m)
    decreases |b| - after, 1
  {
    var items, cur := [], after;
    for i := 0 to count
      invariant after <= cur <= |b|
      invariant ParseMany(b, after, count, []) == ParseMany(b, cur, count - i, items)
    {
      var st := ParseValue(b, cur);
      if st.status != Ok { return ParsedMany(st.status, [], after); }
      items, cur := items + [st.value], st.pos;
    }
    return ParsedMany(Ok, items, cur);
  }

  /** One key and its value; `n` values were still due, appended to `acc`. */
  method ParseEntry(b: string, start: nat, ghost n: nat, ghost acc: seq<Value>)
    returns (status: Status, entry: Entry, cur: nat)
    requires start <= |b| && n >= 2
    ensures status == Ok ==> start < cur <= |b|
    ensures status == Ok ==>
              ParseMany(b, start, n, acc) == ParseMany(b, cur, n - 2, acc + [entry.key] + [entry.val])
    ensures status != Ok ==> ParseMany(b, start, n, acc).status == status
    decreases |b| - start, 1
  {
    var k := ParseValue(b, start);
    entry, cur := Entry(k.value, Null), k.pos;
    if k.status != Ok { return k.status, entry, cur; }
    var v := ParseValue(b, cur);
    if v.status != Ok { return v.status, entry, cur; }
    return Ok, Entry(k.value, v.value), v.pos;
  }

  method ParseEntries(b: string, after: nat, pairs: nat) returns (status: Status, entries: seq<Entry>, cur: nat)
    requires after <= |b|
    ensures var m := ParseMany(b, after, 2 * pairs, []);
            status == m.status && (status == Ok ==> entries == Pairs(m.items) && cur == m.pos)
    decreases |b| - after, 2
  {
    entries, cur := [], after;
    for i := 0 to pairs
      invariant after <= cur <= |b|
      invariant ParseMany(b, after, 2 * pairs, []) == ParseMany(b, cur, 2 * (pairs - i), Flatten(entries))
    {
      var entry;
      status, entry, cur := ParseEntry(b, cur, 2 * (pairs - i), Flatten(entries));
      if status != Ok { return; }
      FlattenSnoc(entries, entry);
      entries := entries + [entry];
    }
    PairsOfFlatten(entries);
    status := Ok;
  }

  // ---------------------------------------------------------------- verdicts are stable

  lemma {:induction false} FindCrlfExtends(b: string, s: string, pos: nat)
    requires FindCrlf(b, pos) < |b|
    ensures FindCrlf(b + s, pos) == FindCrlf(b, pos)
    decreases |b| - pos
  {
    assert CrlfAt(b + s, pos) == CrlfAt(b, pos);
    if !CrlfAt(b, pos) {
      FindCrlfExtends(b, s, pos + 1);
    }
  }

  lemma ParseByLine(b: string, pos: nat, tag: char, line: string, after: nat)
    requires pos < |b| && tag == b[pos] && after == FindCrlf(b, pos + 1) + 2 <= |b| && line == b[pos + 1..after - 2]
    ensures pos + 3 <= after && Parse(b, pos) == ParseTyped(b, pos, tag, line, after)
  {
  }

  lemma SameLine(b: string, s: string, pos: nat)
    requires pos < |b| && FindCrlf(b, pos + 1) < |b|
    ensures FindCrlf(b + s, pos + 1) == FindCrlf(b, pos + 1)
    ensures (b + s)[pos] == b[pos]
    ensures (b + s)[pos + 1..FindCrlf(b, pos + 1)] == b[pos + 1..FindCrlf(b, pos + 1)]
  {
    FindCrlfExtends(b, s, pos + 1);
  }

  /** A verdict is given on a whole line only. */
  lemma HasLine(b: string, pos: nat)
    requires Parse(b, pos).status != Incomplete
    ensures pos < |b| && pos + 1 <= FindCrlf(b, pos + 1) && FindCrlf(b, pos + 1) + 2 <= |b|
  {}

  /** Once the decoder says Ok or Malformed, more bytes never change its answer. */
  lemma {:induction false} Stable(b: string, s: string, pos: nat)
    requires Parse(b, pos).status != Incomplete
    ensures Parse(b + s, pos) == Parse(b, pos)
    decreases |b| - pos, 0
  {
    var tag, line, after := StableLine(b, s, pos);
    StableTyped(b, s, pos, tag, line, after);
  }

  /** The line a verdict is given on, and its tag, are the same with more bytes after it. */
  lemma StableLine(b: string, s: string, pos: nat) returns (tag: char, line: string, after: nat)
    requires Parse(b, pos).status != Incomplete
    ensures pos + 3 <= after <= |b|
    ensures Parse(b, pos) == ParseTyped(b, pos, tag, line, after)
    ensures Parse(b + s, pos) == ParseTyped(b + s, pos, tag, line, after)
  {
    HasLine(b, pos);
    var lineEnd := FindCrlf(b, pos + 1);
    tag, line, after := b[pos], b[pos + 1..lineEnd], lineEnd + 2;
    ParseByLine(b, pos, tag, line, after);
    SameLine(b, s, pos);
    ParseByLine(b + s, pos, tag, line, after);
  }

  lemma {:induction false} StableTyped(b: string, s: string, pos: nat, tag: char, line: string, after: nat)
    requires pos + 3 <= after <= |b|
    requires ParseTyped(b, pos, tag, line, after).status != Incomplete
    ensures ParseTyped(b + s, pos, tag, line, after) == ParseTyped(b, pos, tag, line, after)
    decreases |b| - after, 2
  {
    var n := ParseInt(line);
    if n.Some? && n.value >= 0 {
      if tag == '$' {
        var need := after + n.value + 2;
        assert CrlfAt(b + s, need - 2) == CrlfAt(b, need - 2);
        assert (b + s)[after..need - 2] == b[after..need - 2];
      } else if tag == '*' {
        StableMany(b, s, after, n.value, []);
      } else if tag == '%' {
        StableMany(b, s, after, 2 * n.value, []);
      }
    }
  }

  lemma {:induction false} StableMany(b: string, s: string, cur: nat, n: nat, acc: seq<Value>)
    requires cur <= |b| && ParseMany(b, cur, n, acc).status != Incomplete
    ensures ParseMany(b + s, cur, n, acc) == ParseMany(b, cur, n, acc)
    decreases |b| - cur, 1
  {
    if n > 0 {
      var st := Parse(b, cur);
      Stable(b, s, cur);
      if st.status == Ok {
        StableMany(b, s, st.pos, n - 1, acc + [st.value]);
      }
    }
  }

  lemma DecodeIsStable(b: string, s: string)
    requires Decode(b).status != Incomplete
    ensures Decode(b + s) == Decode(b)
    ensures Decode(b).status == Ok ==> 3 <= Decode(b).pos <= |b|
  {
    Stable(b, s, 0);
  }
}
