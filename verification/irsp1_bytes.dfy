/** The bytes of the format: its marks, its numerals digit by digit, and which bytes the decoder refuses. */
module Irsp1Bytes {
  import opened Options
  import opened IrspValues
  import opened Irsp1Codec
  import opened Irsp1RoundTrip
  import opened Facts

  // ---- Numerals ----

  function Pow10(k: nat): (p: nat)
    ensures p >= 1
  {
    if k == 0 then 1 else 10 * Pow10(k - 1)
  }

  /** A printed number has its k-th digit from the right at the k-th place from the right, and no leading
      zero. */
  lemma {:induction false} DecimalDigit(n: nat, k: nat)
    requires k < |Decimal(n)|
    ensures var s := Decimal(n); s[|s| - 1 - k] as int == '0' as int + n / Pow10(k) % 10
    ensures n >= 10 ==> Decimal(n)[0] != '0'
    decreases n
  {
    if n >= 10 {
      DecimalDigit(n / 10, if k == 0 then 0 else k - 1);
      if k > 0 {
        DivideTwice(n, 10, Pow10(k - 1));
      }
    } else {
      assert Pow10(0) == 1;
    }
  }

  // ---- Marks ----

  /** The first byte says what follows. */
  function Mark(v: Value): char {
    match v
    case Simple(_) => '+'
    case Error(_, _) => '-'
    case Integer(_) => ':'
    case Null => '$'
    case Bulk(_) => '$'
    case Array(_) => '*'
    case Map(_) => '%'
  }

  /** Every value's bytes begin with its mark and are closed by a line break, the last of its elements' if it
      has any. */
  lemma {:induction false} MarkedAndClosed(v: Value)
    ensures var e := Encoding(v); e[0] == Mark(v) && e[|e| - 2..] == "\r\n"
    decreases Size(v), 0
  {
    match v
    case Array(items) =>
      ClosedAll(items);
      EndOf("*" + SignedDecimal(|items|) + CRLF, EncodingAll(items));
    case Map(entries) =>
      ClosedAll(Flatten(entries));
      EndOf("%" + SignedDecimal(|entries|) + CRLF, EncodingAll(Flatten(entries)));
    case _ =>
  }

  lemma {:induction false} ClosedAll(items: seq<Value>)
    ensures var e := EncodingAll(items); items != [] ==> |e| >= 2 && e[|e| - 2..] == "\r\n"
    decreases SizeAll(items), 1
  {
    if items != [] {
      MarkedAndClosed(items[0]);
      ClosedAll(items[1..]);
      EndOf(Encoding(items[0]), EncodingAll(items[1..]));
    }
  }

  lemma EndOf(a: string, b: string)
    requires |a| >= 2 && a[|a| - 2..] == "\r\n" && (b == [] || (|b| >= 2 && b[|b| - 2..] == "\r\n"))
    ensures (a + b)[|a + b| - 2..] == "\r\n"
  {
    if b == [] {
      assert a + b == a;
    } else {
      assert (a + b)[|a + b| - 2..] == b[|b| - 2..];
    }
  }

  /** The examples the encoder is held to. */
  lemma ExampleLines()
    ensures Encoding(Simple("OK")) == "+OK\r\n" && Encoding(Error("ERR", "bad")) == "-ERR bad\r\n"
    ensures Encoding(Error("NOT_READY", "")) == "-NOT_READY\r\n" && Encoding(Null) == "$-1\r\n"
  {
  }

  lemma ExampleNumbers()
    ensures Encoding(Integer(5)) == ":5\r\n" && Encoding(Integer(-1)) == ":-1\r\n" && Encoding(Bulk("hi")) == "$2\r\nhi\r\n"
  {
    assert Decimal(5) == "5" && Decimal(1) == "1" && Decimal(2) == "2";
  }

  lemma ExampleBulks()
    ensures Encoding(Bulk("GET")) == "$3\r\nGET\r\n" && Encoding(Bulk("a/b")) == "$3\r\na/b\r\n"
    ensures Encoding(Bulk("k")) == "$1\r\nk\r\n" && Encoding(Integer(1)) == ":1\r\n"
  {
    assert Decimal(1) == "1" && Decimal(3) == "3";
  }

  lemma EncodingPair(a: Value, b: Value)
    ensures EncodingAll([a, b]) == Encoding(a) + Encoding(b)
  {
    assert [a, b][1..] == [b] && [b][1..] == [];
    assert EncodingAll([b]) == Encoding(b) + [];
  }

  lemma ExampleArray()
    ensures Encoding(Array([Bulk("GET"), Bulk("a/b")])) == "*2\r\n$3\r\nGET\r\n$3\r\na/b\r\n"
  {
    var first, second := Bulk("GET"), Bulk("a/b");
    EncodingPair(first, second);
    ExampleBulks();
    assert Decimal(2) == "2";
  }

  lemma ExampleMap()
    ensures Encoding(Map([Entry(Bulk("k"), Integer(1))])) == "%1\r\n$1\r\nk\r\n:1\r\n"
  {
    var key, val := Bulk("k"), Integer(1);
    var entries := [Entry(key, val)];
    EncodingPair(key, val);
    ExampleBulks();
    assert Decimal(1) == "1" && entries[1..] == [] && Flatten(entries) == [key, val];
  }

  // ---- What the decoder refuses ----

  /** A whole first line that no value begins with is refused, whatever follows: an unknown mark, a number
      that is none, or a negative count of entries.  Texts and numbers are accepted on it. */
  lemma LineVerdict(tag: char, line: string, rest: string)
    requires NoCrlf(line)
    ensures var d, n := Decode([tag] + line + CRLF + rest), ParseInt(line);
      && (tag == '+' || tag == '-' || (tag == ':' && n.Some?) ==> d.status == Ok && d.pos == |line| + 3)
      && ((tag == '$' || tag == '*') && n.Some? && n.value < 0 ==> d.status == Ok && d.value == Null)
      && (tag !in "+-:$*%" || (tag in ":$*%" && n.None?) || (tag == '%' && n.Some? && n.value < 0) ==> d.status == Malformed)
  {
    var b := [tag] + line + CRLF + rest;
    assert At(b, 0, b);
    var after := LineThen(b, 0, tag, line, rest);
  }

  lemma TypedBulkVerdict(b: string, line: string, after: nat, n: nat)
    requires 3 <= after && after + n + 2 <= |b| && FitsInt64(n) && ParseInt(line) == Some(n)
    ensures var d := ParseTyped(b, 0, '$', line, after);
      if CrlfAt(b, after + n) then d.status == Ok && d.value == Bulk(b[after..after + n]) else d.status == Malformed
  {
  }

  lemma BulkHeader(b: string, n: Int64, body: string) returns (after: nat)
    requires 0 <= n <= |body| - 2 && b == ['$'] + SignedDecimal(n) + CRLF + body
    ensures after + |body| == |b| && At(b, after, body)
    ensures if CrlfAt(b, after + n) then Decode(b).status == Ok && Decode(b).value == Bulk(b[after..after + n])
            else Decode(b).status == Malformed
  {
    assert At(b, 0, b);
    after := NumberThen(b, 0, '$', n, body);
    TypedBulkVerdict(b, SignedDecimal(n), after, n);
  }

  /** A bulk of the announced length is accepted exactly when a line break follows it, and otherwise refused. */
  lemma BulkVerdict(b: string, data: string, end: string, rest: string)
    requires FitsInt64(|data|) && |end| == 2 && b == ['$'] + SignedDecimal(|data|) + CRLF + (data + end + rest)
    ensures if end == CRLF then Decode(b).status == Ok && Decode(b).value == Bulk(data) else Decode(b).status == Malformed
  {
    var after := BulkHeader(b, |data|, data + end + rest);
    EndSeen(b, after, data, end, rest);
  }

  lemma EndSeen(b: string, after: nat, data: string, end: string, rest: string)
    requires At(b, after, data + end + rest) && |end| == 2
    ensures after + |data| + 2 <= |b| && b[after..after + |data|] == data
    ensures CrlfAt(b, after + |data|) <==> end == CRLF
  {
    AtConcat(b, after, data + end, rest);
    AtConcat(b, after, data, end);
    AtIndex(b, after + |data|, end, 0);
    AtIndex(b, after + |data|, end, 1);
  }

  /** And waited for as long as its bytes and two more have not all come. */
  lemma BulkWaits(n: Int64, part: string)
    requires n >= 0 && |part| < n + 2
    ensures Decode(['$'] + SignedDecimal(n) + CRLF + part).status == Incomplete
  {
    var b := ['$'] + SignedDecimal(n) + CRLF + part;
    assert At(b, 0, b);
    var after := NumberThen(b, 0, '$', n, part);
  }

  lemma FaultHere(b: string, cur: nat, n: nat, acc: seq<Value>)
    requires cur <= |b| && n > 0 && Parse(b, cur).status != Ok
    ensures ParseMany(b, cur, n, acc).status == Parse(b, cur).status
  {
  }

  /** Values in a row that are read leave the rest to be read. */
  lemma {:induction false} FineFirst(b: string, cur: nat, items: seq<Value>, n: nat, acc: seq<Value>, end: nat, left: nat, all: seq<Value>)
    requires RepresentableAll(items) && EncodableAll(items) && At(b, cur, EncodingAll(items))
    requires end == cur + |EncodingAll(items)| && n == left + |items| && all == acc + items
    ensures ParseMany(b, cur, n, acc) == ParseMany(b, end, left, all)
    decreases SizeAll(items)
  {
    if items == [] {
      assert acc + items == acc;
    } else {
      var next := OneFine(b, cur, items, n, acc);
      MoveOne(acc, items, all);
      FineFirst(b, next, items[1..], n - 1, acc + [items[0]], end, left, all);
    }
  }

  lemma MoveOne(acc: seq<Value>, items: seq<Value>, all: seq<Value>)
    requires items != [] && all == acc + items
    ensures all == acc + [items[0]] + items[1..]
  {
  }

  lemma OneFine(b: string, cur: nat, items: seq<Value>, n: nat, acc: seq<Value>) returns (next: nat)
    requires items != [] && RepresentableAll(items) && EncodableAll(items) && At(b, cur, EncodingAll(items)) && n > 0
    ensures RepresentableAll(items[1..]) && EncodableAll(items[1..]) && At(b, next, EncodingAll(items[1..]))
    ensures next + |EncodingAll(items[1..])| == cur + |EncodingAll(items)| && cur <= |b|
    ensures SizeAll(items[1..]) < SizeAll(items)
    ensures ParseMany(b, cur, n, acc) == ParseMany(b, next, n - 1, acc + [items[0]])
  {
    next := FirstAt(b, cur, items);
    AllOrNone(items);
    ExactAt(b, cur, items[0]);
    ChainMany(b, cur, n, acc, items[0], next);
  }

  lemma TypedContainer(b: string, tag: char, line: string, after: nat, n: Int64)
    requires 3 <= after <= |b| && ParseInt(line) == Some(n) && n >= 0 && (tag == '*' || tag == '%')
    ensures ParseTyped(b, 0, tag, line, after).status == ParseMany(b, after, if tag == '*' then n else 2 * n, []).status
  {
  }

  lemma ContainerHeader(b: string, tag: char, n: Int64, body: string) returns (after: nat)
    requires n >= 0 && (tag == '*' || tag == '%') && b == [tag] + SignedDecimal(n) + CRLF + body
    ensures after + |body| == |b| && At(b, after, body)
    ensures Decode(b).status == ParseMany(b, after, if tag == '*' then n else 2 * n, []).status
  {
    assert At(b, 0, b);
    after := NumberThen(b, 0, tag, n, body);
    TypedContainer(b, tag, SignedDecimal(n), after, n);
  }

  /** An array or a map is refused, or waited for, as its first element is that is not read: here `items` are
      read and what stands behind them is not. */
  lemma ContainerVerdict(b: string, tag: char, n: Int64, items: seq<Value>, behind: string, start: nat)
    requires (tag == '*' && |items| < n) || (tag == '%' && |items| < 2 * n)
    requires RepresentableAll(items) && EncodableAll(items)
    requires b == [tag] + SignedDecimal(n) + CRLF + (EncodingAll(items) + behind) && start + |behind| == |b|
    requires Parse(b, start).status != Ok
    ensures Decode(b).status == Parse(b, start).status
  {
    var after := ContainerHeader(b, tag, n, EncodingAll(items) + behind);
    ItemsAt(b, after, items, behind);
    AfterFine(b, after, items, if tag == '*' then n else 2 * n, start);
  }

  lemma ItemsAt(b: string, after: nat, items: seq<Value>, behind: string)
    requires At(b, after, EncodingAll(items) + behind) && after + |EncodingAll(items) + behind| == |b|
    ensures At(b, after, EncodingAll(items)) && after + |EncodingAll(items)| + |behind| == |b|
  {
    AtConcat(b, after, EncodingAll(items), behind);
  }

  lemma AfterFine(b: string, cur: nat, items: seq<Value>, n: nat, end: nat)
    requires RepresentableAll(items) && EncodableAll(items) && At(b, cur, EncodingAll(items)) && |items| < n
    requires end == cur + |EncodingAll(items)| && Parse(b, end).status != Ok
    ensures ParseMany(b, cur, n, []).status == Parse(b, end).status
  {
    FineFirst(b, cur, items, n, [], end, n - |items|, items);
    FaultHere(b, end, n - |items|, items);
  }
}
