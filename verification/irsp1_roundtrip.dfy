/** Which values survive encoding and decoding, exactly, and what that gives a byte stream. */
module Irsp1RoundTrip {
  import opened Options
  import opened IrspValues
  import opened Irsp1Codec
  import opened Facts

  ghost predicate NoCrlf(s: string) {
    forall i :: 0 <= i < |s| ==> !CrlfAt(s, i)
  }

  /** Every length fits the signed 64-bit counter that announces it. */
  predicate Representable(v: Value)
    decreases Size(v), 0
  {
    match v
    case Bulk(data) => FitsInt64(|data|)
    case Array(items) => FitsInt64(|items|) && RepresentableAll(items)
    case Map(entries) => FitsInt64(|entries|) && RepresentableAll(Flatten(entries))
    case _ => true
  }

  predicate RepresentableAll(items: seq<Value>)
    decreases SizeAll(items), 1
  {
    items == [] || (Representable(items[0]) && RepresentableAll(items[1..]))
  }

  /** The texts that share a line with framing bytes must not contain those bytes. */
  ghost predicate Encodable(v: Value)
    decreases Size(v), 0
  {
    match v
    case Simple(text) => NoCrlf(text)
    case Error(code, message) => ' ' !in code && NoCrlf(code) && NoCrlf(message)
    case Array(items) => EncodableAll(items)
    case Map(entries) => EncodableAll(Flatten(entries))
    case _ => true
  }

  ghost predicate EncodableAll(items: seq<Value>)
    decreases SizeAll(items), 1
  {
    items == [] || (Encodable(items[0]) && EncodableAll(items[1..]))
  }

  ghost predicate At(b: string, pos: nat, e: string) {
    pos + |e| <= |b| && b[pos..pos + |e|] == e
  }

  lemma AtConcat(b: string, pos: nat, x: string, y: string)
    ensures At(b, pos, x + y) <==> At(b, pos, x) && At(b, pos + |x|, y)
  {
    if At(b, pos, x + y) {
      assert b[pos..pos + |x|] == (x + y)[..|x|];
      assert b[pos + |x|..pos + |x| + |y|] == (x + y)[|x|..];
    }
    if At(b, pos, x) && At(b, pos + |x|, y) {
      assert b[pos..pos + |x + y|] == b[pos..pos + |x|] + b[pos + |x|..pos + |x| + |y|];
    }
  }

  lemma AtIndex(b: string, pos: nat, e: string, j: nat)
    requires At(b, pos, e) && j < |e|
    ensures b[pos + j] == e[j]
  {
    assert b[pos..pos + |e|][j] == e[j];
  }

  /** A written line is cut at its first CRLF, which is its own end exactly when its text has none. */
  lemma LineAt(b: string, pos: nat, tag: char, line: string) returns (k: nat, seen: string)
    requires At(b, pos, [tag] + line + CRLF)
    ensures k <= |line| && seen == line[..k] && (NoCrlf(line) <==> k == |line|)
    ensures pos + 3 + k <= |b| && FindCrlf(b, pos + 1) == pos + 1 + k
    ensures b[pos] == tag && b[pos + 1..pos + 1 + k] == seen
  {
    AtConcat(b, pos, [tag] + line, CRLF);
    AtConcat(b, pos, [tag], line);
    EndsWithCrlf(b, pos + 1 + |line|);
    AtIndex(b, pos, [tag], 0);
    LineInside(b, pos + 1, line);
    k := FindCrlf(b, pos + 1) - pos - 1;
    seen := line[..k];
  }

  lemma LineInside(b: string, start: nat, line: string)
    requires At(b, start, line) && CrlfAt(b, start + |line|)
    ensures var i := FindCrlf(b, start);
            && start <= i <= start + |line| && b[start..i] == line[..i - start]
            && (NoCrlf(line) <==> i == start + |line|)
  {
    var i, end := FindCrlf(b, start), start + |line|;
    forall j | 0 <= j < |line|
      ensures CrlfAt(line, j) ==> CrlfAt(b, start + j)
    {
      AtIndex(b, start, line, j);
      if CrlfAt(line, j) {
        AtIndex(b, start, line, j + 1);
      }
    }
    FindCrlfIsFirst(b, start, end);
    assert b[start..i] == b[start..end][..i - start];
    if !NoCrlf(line) {
      var j :| 0 <= j < |line| && CrlfAt(line, j);
      FindCrlfIsFirst(b, start, start + j);
    }
    if i < end {
      assert b[end] == '\r' && i + 1 < end;
      AtIndex(b, start, line, i - start);
      AtIndex(b, start, line, i - start + 1);
      assert CrlfAt(line, i - start);
    }
  }

  lemma {:induction false} DecimalHasNoCrlf(n: int)
    ensures NoCrlf(SignedDecimal(n))
  {
    var s := SignedDecimal(n);
    forall i | 0 <= i < |s|
      ensures s[i] != '\r'
    {
      if n < 0 {
        assert i > 0 ==> s[i] == Decimal(-n)[i - 1];
      }
    }
  }

  lemma IndexOfUnique(s: string, c: char, i: nat)
    requires i <= |s| && (i < |s| ==> s[i] == c) && c !in s[..i]
    ensures IndexOf(s, c) == i
  {
    IndexOfIsFirst(s, c);
    InPrefix(s, i, IndexOf(s, c));
    InPrefix(s, IndexOf(s, c), i);
  }

  /** A prefix of a written error line reads back as that error only if it is the whole line
      and the code has no space. */
  lemma ErrorLine(code: string, message: string, k: nat)
    requires var line := code + (if message == [] then [] else " " + message); k <= |line|
    ensures var line := code + (if message == [] then [] else " " + message);
            ErrorOf(line[..k]) == Error(code, message) <==> k == |line| && ' ' !in code
  {
    var line := code + (if message == [] then [] else " " + message);
    if ' ' !in code {
      assert line[..|code|] == code && line[..|line|] == line;
      IndexOfUnique(line, ' ', |code|);
      assert message != [] ==> line[|code| + 1..] == message;
    }
    var p := line[..k];
    var sp := IndexOf(p, ' ');
    IndexOfIsFirst(p, ' ');
    assert ErrorOf(p) == Error(code, message) ==> code == p[..sp];
  }

  /** An encoded value parses back to itself exactly when it is encodable, wherever it stands
      in the buffer and whatever follows it. */
  lemma {:induction false} ExactAt(b: string, pos: nat, v: Value)
    requires Representable(v) && At(b, pos, Encoding(v))
    ensures Parse(b, pos).status == Ok && Parse(b, pos).value == v <==> Encodable(v)
    ensures Encodable(v) ==> Parse(b, pos).pos == pos + |Encoding(v)|
    decreases Size(v), 0
  {
    match v
    case Null =>
      assert SignedDecimal(-1) == "-1";
      assert ['$'] + SignedDecimal(-1) + CRLF == Encoding(v);
      ExactNumber(b, pos, '$', -1);
    case Simple(text) =>
      var k := LineSeen(b, pos, '+', text);
      assert text[..|text|] == text;
    case Error(code, message) =>
      ExactError(b, pos, code, message);
    case Integer(n) =>
      ExactNumber(b, pos, ':', n);
    case Bulk(data) =>
      ExactBulk(b, pos, data);
    case Array(items) =>
      var after := ContainerAt(b, pos, '*', |items|, items);
      ExactAll(b, after, items);
    case Map(entries) =>
      var items := Flatten(entries);
      var after := ContainerAt(b, pos, '%', |entries|, items);
      ExactAll(b, after, items);
      PairsMatch(entries, ParseMany(b, after, 2 * |entries|, []));
  }

  lemma PairsMatch(entries: seq<Entry>, m: ParsedMany)
    requires m.status == Ok ==> |m.items| == 2 * |entries|
    ensures m.status == Ok ==> (Pairs(m.items) == entries <==> m.items == Flatten(entries))
  {
    PairsOfFlatten(entries);
    if m.status == Ok {
      FlattenOfPairs(m.items);
    }
  }

  lemma {:induction false} ExactAll(b: string, cur: nat, items: seq<Value>)
    requires RepresentableAll(items) && At(b, cur, EncodingAll(items))
    ensures var m := ParseMany(b, cur, |items|, []);
            && (m.status == Ok && m.items == items <==> EncodableAll(items))
            && (EncodableAll(items) ==> m.pos == cur + |EncodingAll(items)|)
    decreases SizeAll(items), 2
  {
    ExactManyAt(b, cur, items, []);
    NothingBefore(items);
  }

  lemma NothingBefore(items: seq<Value>)
    ensures [] + items == items
  {
  }

  /** What parsing a written array or map comes down to. */
  lemma ContainerAt(b: string, pos: nat, tag: char, n: Int64, items: seq<Value>) returns (after: nat)
    requires n >= 0 && (tag == '*' ==> |items| == n) && (tag == '%' ==> |items| == 2 * n) && (tag == '*' || tag == '%')
    requires At(b, pos, [tag] + SignedDecimal(n) + CRLF + EncodingAll(items))
    ensures after == pos + 3 + |SignedDecimal(n)| && after <= |b| && At(b, after, EncodingAll(items))
    ensures var m := ParseMany(b, after, |items|, []);
            Parse(b, pos) == if m.status != Ok then Parsed(m.status, Null, pos)
                             else Parsed(Ok, if tag == '*' then Array(m.items) else Map(Pairs(m.items)), m.pos)
  {
    after := NumberThen(b, pos, tag, n, EncodingAll(items));
  }

  lemma LineCut(b: string, pos: nat, tag: char, line: string, body: string)
    requires NoCrlf(line) && At(b, pos, [tag] + line + CRLF + body)
    ensures var end := pos + 1 + |line|;
            && end + 2 <= |b| && At(b, end + 2, body) && FindCrlf(b, pos + 1) == end
            && b[pos] == tag && b[pos + 1..end] == line
  {
    AtConcat(b, pos, [tag] + line + CRLF, body);
    var k, seen := LineAt(b, pos, tag, line);
    assert line[..|line|] == line;
  }

  /** A header line followed by more bytes, as the parser sees it. */
  lemma LineThen(b: string, pos: nat, tag: char, line: string, body: string) returns (after: nat)
    requires NoCrlf(line) && At(b, pos, [tag] + line + CRLF + body)
    ensures after == pos + 3 + |line| && At(b, after, body)
    ensures pos + 3 <= after <= |b| && Parse(b, pos) == ParseTyped(b, pos, tag, line, after)
  {
    after := pos + 3 + |line|;
    LineCut(b, pos, tag, line, body);
    ParseByLine(b, pos, tag, line, after);
  }

  lemma NumberThen(b: string, pos: nat, tag: char, n: Int64, body: string) returns (after: nat)
    requires At(b, pos, [tag] + SignedDecimal(n) + CRLF + body)
    ensures after == pos + 3 + |SignedDecimal(n)| && At(b, after, body)
    ensures pos + 3 <= after <= |b| && Parse(b, pos) == ParseTyped(b, pos, tag, SignedDecimal(n), after)
    ensures ParseInt(SignedDecimal(n)) == Some(n)
  {
    DecimalHasNoCrlf(n);
    ParsesPrinted(n);
    after := LineThen(b, pos, tag, SignedDecimal(n), body);
  }

  lemma ExactNumber(b: string, pos: nat, tag: char, n: Int64)
    requires tag == ':' || (tag == '$' && n == -1)
    requires At(b, pos, [tag] + SignedDecimal(n) + CRLF)
    ensures Parse(b, pos) == Parsed(Ok, if tag == ':' then Integer(n) else Null, pos + 3 + |SignedDecimal(n)|)
    ensures tag == '$' ==> [tag] + SignedDecimal(n) + CRLF == "$-1" + CRLF
  {
    assert [tag] + SignedDecimal(n) + CRLF + [] == [tag] + SignedDecimal(n) + CRLF;
    var after := NumberThen(b, pos, tag, n, []);
  }

  lemma ExactError(b: string, pos: nat, code: string, message: string)
    requires At(b, pos, Encoding(Error(code, message)))
    ensures Parse(b, pos).status == Ok && Parse(b, pos).value == Error(code, message) <==> Encodable(Error(code, message))
    ensures Encodable(Error(code, message)) ==> Parse(b, pos).pos == pos + |Encoding(Error(code, message))|
  {
    var line := code + (if message == [] then [] else " " + message);
    assert ['-'] + line + CRLF == Encoding(Error(code, message));
    var k := LineSeen(b, pos, '-', line);
    ErrorLine(code, message, k);
    JoinedNoCrlf(code, message);
  }

  /** The parser sees the prefix of a written line up to its first CRLF. */
  lemma LineSeen(b: string, pos: nat, tag: char, line: string) returns (k: nat)
    requires At(b, pos, [tag] + line + CRLF)
    ensures k <= |line| && pos + 3 + k <= |b| && (NoCrlf(line) <==> k == |line|)
    ensures Parse(b, pos) == ParseTyped(b, pos, tag, line[..k], pos + 3 + k)
  {
    var seen;
    k, seen := LineAt(b, pos, tag, line);
    SeenIs(b, pos, tag, seen, pos + 3 + k);
  }

  lemma SeenIs(b: string, pos: nat, tag: char, seen: string, after: nat)
    requires pos + 3 <= after <= |b| && FindCrlf(b, pos + 1) == after - 2 && b[pos] == tag && b[pos + 1..after - 2] == seen
    ensures Parse(b, pos) == ParseTyped(b, pos, tag, seen, after)
  {
    ParseByLine(b, pos, tag, seen, after);
  }

  lemma JoinedNoCrlf(code: string, message: string)
    ensures var line := code + (if message == [] then [] else " " + message);
            NoCrlf(line) <==> NoCrlf(code) && NoCrlf(message)
  {
    var line := code + (if message == [] then [] else " " + message);
    if NoCrlf(line) {
      forall i | 0 <= i < |code| ensures !CrlfAt(code, i) {
        assert !CrlfAt(line, i);
      }
      forall i | 0 <= i < |message| ensures !CrlfAt(message, i) {
        assert !CrlfAt(line, |code| + 1 + i);
      }
    }
    if NoCrlf(code) && NoCrlf(message) {
      forall i | 0 <= i < |line| ensures !CrlfAt(line, i) {
        if i < |code| {
          assert !CrlfAt(code, i);
        } else if i > |code| {
          assert !CrlfAt(message, i - |code| - 1);
        }
      }
    }
  }

  lemma ExactBulk(b: string, pos: nat, data: string)
    requires FitsInt64(|data|) && At(b, pos, Encoding(Bulk(data)))
    ensures Parse(b, pos) == Parsed(Ok, Bulk(data), pos + |Encoding(Bulk(data))|)
  {
    var body := data + CRLF;
    assert Encoding(Bulk(data)) == ['$'] + SignedDecimal(|data|) + CRLF + body;
    var after := NumberThen(b, pos, '$', |data|, body);
    BulkBody(b, after, data);
    TypedBulk(b, pos, SignedDecimal(|data|), after, data);
  }

  lemma TypedBulk(b: string, pos: nat, line: string, after: nat, data: string)
    requires FitsInt64(|data|) && ParseInt(line) == Some(|data|) && pos + 3 <= after
    requires after + |data| + 2 <= |b| && CrlfAt(b, after + |data|) && b[after..after + |data|] == data
    ensures ParseTyped(b, pos, '$', line, after) == Parsed(Ok, Bulk(data), after + |data| + 2)
  {
  }

  lemma BulkBody(b: string, after: nat, data: string)
    requires At(b, after, data + CRLF)
    ensures CrlfAt(b, after + |data|) && after + |data| + 2 <= |b| && b[after..after + |data|] == data
  {
    AtConcat(b, after, data, CRLF);
    EndsWithCrlf(b, after + |data|);
  }

  lemma EndsWithCrlf(b: string, i: nat)
    requires At(b, i, CRLF)
    ensures CrlfAt(b, i)
  {
    assert b[i..i + 2][0] == b[i] && b[i..i + 2][1] == b[i + 1];
  }

  lemma {:induction false} FlattenOfPairs(items: seq<Value>)
    requires |items| % 2 == 0
    ensures Flatten(Pairs(items)) == items
    decreases |items|
  {
    if items != [] {
      var rest := items[2..];
      FlattenOfPairs(rest);
      FlattenCons(Entry(items[0], items[1]), Pairs(rest));
      assert items == [items[0], items[1]] + rest;
    }
  }

  lemma FlattenCons(e: Entry, entries: seq<Entry>)
    ensures Flatten([e] + entries) == [e.key, e.val] + Flatten(entries)
  {
    assert ([e] + entries)[1..] == entries;
  }

  /** The verdict on a run of values: right items and right end exactly when all are encodable. */
  ghost predicate ExactMany(m: ParsedMany, cur: nat, items: seq<Value>, acc: seq<Value>) {
    && (m.status == Ok && m.items == acc + items <==> EncodableAll(items))
    && (EncodableAll(items) ==> m.pos == cur + |EncodingAll(items)|)
  }

  lemma {:induction false} ExactManyAt(b: string, cur: nat, items: seq<Value>, acc: seq<Value>)
    requires RepresentableAll(items) && At(b, cur, EncodingAll(items))
    ensures ExactMany(ParseMany(b, cur, |items|, acc), cur, items, acc)
    decreases SizeAll(items), 1
  {
    if items == [] {
      assert acc + items == acc;
    } else {
      var next := FirstAt(b, cur, items);
      ExactAt(b, cur, items[0]);
      if Encodable(items[0]) {
        ExactManyAt(b, next, items[1..], acc + [items[0]]);
        ChainMany(b, cur, |items|, acc, items[0], next);
        RightFirst(ParseMany(b, cur, |items|, acc), cur, items, acc);
      } else {
        WrongFirst(b, cur, items, acc);
      }
    }
  }

  lemma FirstAt(b: string, cur: nat, items: seq<Value>) returns (next: nat)
    requires items != [] && RepresentableAll(items) && At(b, cur, EncodingAll(items))
    ensures Representable(items[0]) && RepresentableAll(items[1..])
    ensures next == cur + |Encoding(items[0])| && At(b, cur, Encoding(items[0])) && At(b, next, EncodingAll(items[1..]))
    ensures Size(items[0]) <= SizeAll(items) && SizeAll(items[1..]) < SizeAll(items)
  {
    AtConcat(b, cur, Encoding(items[0]), EncodingAll(items[1..]));
    next := cur + |Encoding(items[0])|;
  }

  lemma RightFirst(m: ParsedMany, cur: nat, items: seq<Value>, acc: seq<Value>)
    requires items != [] && Encodable(items[0])
    requires ExactMany(m, cur + |Encoding(items[0])|, items[1..], acc + [items[0]])
    ensures ExactMany(m, cur, items, acc)
  {
    assert acc + [items[0]] + items[1..] == acc + items;
    AllOrNone(items);
  }

  lemma ChainMany(b: string, cur: nat, n: nat, acc: seq<Value>, v: Value, next: nat)
    requires n > 0 && cur <= |b| && Parse(b, cur) == Parsed(Ok, v, next)
    ensures next <= |b| && ParseMany(b, cur, n, acc) == ParseMany(b, next, n - 1, acc + [v])
  {
  }

  lemma AllOrNone(items: seq<Value>)
    requires items != []
    ensures EncodableAll(items) == (Encodable(items[0]) && EncodableAll(items[1..]))
    ensures |EncodingAll(items)| == |Encoding(items[0])| + |EncodingAll(items[1..])|
  {
  }

  lemma WrongFirst(b: string, cur: nat, items: seq<Value>, acc: seq<Value>)
    requires items != [] && cur <= |b| && !Encodable(items[0])
    requires !(Parse(b, cur).status == Ok && Parse(b, cur).value == items[0])
    ensures ExactMany(ParseMany(b, cur, |items|, acc), cur, items, acc)
  {
    AllOrNone(items);
    var st := Parse(b, cur);
    if st.status == Ok {
      ChainMany(b, cur, |items|, acc, st.value, st.pos);
      KeepsWrong(ParseMany(b, cur, |items|, acc), st.value, items, acc);
    }
  }

  lemma KeepsWrong(m: ParsedMany, v: Value, items: seq<Value>, acc: seq<Value>)
    requires items != [] && v != items[0] && (m.status == Ok ==> acc + [v] <= m.items)
    ensures !(m.status == Ok && m.items == acc + items)
  {
    if m.status == Ok {
      assert m.items[|acc|] == (acc + [v])[|acc|] == v;
      assert (acc + items)[|acc|] == items[0];
    }
  }

  // ---------------------------------------------------------------- what a stream sees

  /** Encoding then decoding, with anything after it, gives the value back and consumes exactly
      its bytes if and only if no framing byte hides in its line texts. */
  lemma RoundTrip(v: Value, rest: string)
    requires Representable(v)
    ensures Decode(Encoding(v) + rest) == Parsed(Ok, v, |Encoding(v)|) <==> Encodable(v)
  {
    assert At(Encoding(v) + rest, 0, Encoding(v));
    ExactAt(Encoding(v) + rest, 0, v);
  }

  /** A stream cut anywhere inside a value is waited for, never rejected. */
  lemma ProperPrefixIncomplete(v: Value, k: nat)
    requires Representable(v) && Encodable(v) && k < |Encoding(v)|
    ensures Decode(Encoding(v)[..k]).status == Incomplete
  {
    var e := Encoding(v);
    RoundTrip(v, []);
    assert e + [] == e && e[..k] + e[k..] == e;
    if Decode(e[..k]).status != Incomplete {
      Stable(e[..k], e[k..], 0);
    }
  }

  /** Back-to-back encodings decode to the same values in order. */
  lemma StreamRoundTrip(items: seq<Value>, rest: string)
    requires RepresentableAll(items) && EncodableAll(items)
    ensures ParseMany(EncodingAll(items) + rest, 0, |items|, []) == ParsedMany(Ok, items, |EncodingAll(items)|)
  {
    assert At(EncodingAll(items) + rest, 0, EncodingAll(items));
    ExactManyAt(EncodingAll(items) + rest, 0, items, []);
    assert [] + items == items;
  }

  /** No encoding is a prefix of another's, so frames never need an outer delimiter. */
  lemma PrefixFree(v: Value, w: Value)
    requires Representable(v) && Encodable(v) && Representable(w) && Encodable(w)
    requires Encoding(v) <= Encoding(w)
    ensures v == w
  {
    var e, f := Encoding(v), Encoding(w);
    RoundTrip(v, f[|e|..]);
    assert e + f[|e|..] == f;
    assert Decode(f).value == v;
    RoundTrip(w, []);
    assert f + [] == f;
  }
}
