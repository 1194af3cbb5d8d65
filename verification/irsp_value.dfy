/** The in-memory values of the irsp1 encoding and their byte form.  A `string` stands for a
    byte string: one character per byte. */
module IrspValues {
  import opened Options

  const INT64_LIMIT: int := 0x8000_0000_0000_0000

  predicate FitsInt64(x: int) {
    -INT64_LIMIT <= x < INT64_LIMIT
  }

  type Int64 = x: int | FitsInt64(x)

  datatype Value =
    | Null
    | Simple(text: string)
    | Error(code: string, message: string)
    | Integer(n: Int64)
    | Bulk(data: string)
    | Array(items: seq<Value>)
    | Map(entries: seq<Entry>)

  datatype Entry = Entry(key: Value, val: Value)

  const CRLF := "\r\n"

  // ---------------------------------------------------------------- decimal numerals

  function Digit(d: nat): char
    requires d < 10
  {
    '0' + d as char
  }

  /** `std::to_string` of an unsigned number. */
  function Decimal(n: nat): (s: string)
    ensures s != [] && AllDigits(s)
  {
    if n < 10 then [Digit(n)] else Decimal(n / 10) + [Digit(n % 10)]
  }

  function SignedDecimal(n: int): string {
    if n < 0 then "-" + Decimal(-n) else Decimal(n)
  }

  predicate AllDigits(s: string) {
    forall i :: 0 <= i < |s| ==> '0' <= s[i] <= '9'
  }

  function Numeral(s: string): nat
    requires AllDigits(s)
  {
    if s == [] then 0 else 10 * Numeral(s[..|s| - 1]) + (s[|s| - 1] - '0') as nat
  }

  /** `std::from_chars` into a signed 64-bit number, accepted only if it consumes everything:
      an optional minus sign, at least one digit, no plus sign, no blanks, in range. */
  function ParseInt(s: string): Option<Int64> {
    var body := if s != [] && s[0] == '-' then s[1..] else s;
    if body == [] || !AllDigits(body) then None
    else
      var m: int := Numeral(body);
      var x := if s[0] == '-' then -m else m;
      if FitsInt64(x) then Some(x) else None
  }

  lemma {:induction false} NumeralOfDecimal(n: nat)
    ensures Numeral(Decimal(n)) == n
    decreases n
  {
    if n >= 10 {
      NumeralOfDecimal(n / 10);
      var s := Decimal(n);
      assert s[..|s| - 1] == Decimal(n / 10);
      assert s[|s| - 1] == Digit(n % 10);
    } else {
      assert Numeral([Digit(n)][..0]) == 0;
    }
  }

  /** Printing a number and parsing it gives the number back. */
  lemma ParsesPrinted(n: Int64)
    ensures ParseInt(SignedDecimal(n)) == Some(n)
  {
    var x: int := n;
    var s := SignedDecimal(x);
    var m: nat := if x < 0 then -x else x;
    NumeralOfDecimal(m);
    if x < 0 {
      assert s[0] == '-' && s[1..] == Decimal(m);
    } else {
      assert s[0] != '-' && s == Decimal(m);
    }
  }

  // ---------------------------------------------------------------- encoding

  function SizeAll(items: seq<Value>): nat
    decreases items
  {
    if items == [] then 0 else Size(items[0]) + SizeAll(items[1..])
  }

  function SizeEntry(e: Entry): nat
    decreases e
  {
    Size(e.key) + Size(e.val)
  }

  function SizePairs(entries: seq<Entry>): nat
    decreases entries
  {
    if entries == [] then 0 else SizeEntry(entries[0]) + SizePairs(entries[1..])
  }

  function Size(v: Value): (n: nat)
    ensures n > 0
    decreases v
  {
    match v
    case Array(items) => 1 + SizeAll(items)
    case Map(entries) => 1 + SizePairs(entries)
    case _ => 1
  }

  /** Keys and values in the order they are written. */
  function Flatten(entries: seq<Entry>): (items: seq<Value>)
    ensures |items| == 2 * |entries|
    ensures SizeAll(items) == SizePairs(entries)
  {
    if entries == [] then []
    else
      var rest := Flatten(entries[1..]);
      var items := [entries[0].key, entries[0].val] + rest;
      assert items[1..] == [entries[0].val] + rest && items[1..][1..] == rest;
      items
  }

  function Pairs(items: seq<Value>): (entries: seq<Entry>)
    requires |items| % 2 == 0
    ensures 2 * |entries| == |items|
    decreases |items|
  {
    if items == [] then [] else [Entry(items[0], items[1])] + Pairs(items[2..])
  }

  lemma {:induction false} PairsOfFlatten(entries: seq<Entry>)
    ensures Pairs(Flatten(entries)) == entries
    decreases |entries|
  {
    if entries != [] {
      PairsOfFlatten(entries[1..]);
      assert Flatten(entries)[2..] == Flatten(entries[1..]);
    }
  }

  /** The byte form of a value. */
  function Encoding(v: Value): (e: string)
    ensures |e| >= 3
    decreases Size(v), 0
  {
    match v
    case Null => "$-1" + CRLF
    case Simple(text) => "+" + text + CRLF
    case Error(code, message) => "-" + code + (if message == [] then [] else " " + message) + CRLF
    case Integer(n) => ":" + SignedDecimal(n) + CRLF
    case Bulk(data) => "$" + SignedDecimal(|data|) + CRLF + data + CRLF
    case Array(items) => "*" + SignedDecimal(|items|) + CRLF + EncodingAll(items)
    case Map(entries) => "%" + SignedDecimal(|entries|) + CRLF + EncodingAll(Flatten(entries))
  }

  function EncodingAll(items: seq<Value>): string
    decreases SizeAll(items), 1
  {
    if items == [] then [] else Encoding(items[0]) + EncodingAll(items[1..])
  }

  lemma {:induction false} EncodingAllSnoc(items: seq<Value>, v: Value)
    ensures EncodingAll(items + [v]) == EncodingAll(items) + Encoding(v)
    decreases |items|
  {
    if items == [] {
      assert [v][1..] == [];
      assert EncodingAll([v]) == Encoding(v) + EncodingAll([]);
    } else {
      assert (items + [v])[1..] == items[1..] + [v];
      EncodingAllSnoc(items[1..], v);
    }
  }

  lemma Reassociate(out: string, a: string, b: string, c: string)
    ensures out + a + b == out + (a + b)
    ensures out + a + b + c == out + (a + b + c)
  {
  }

  method AppendLine(out: string, tag: char, text: string) returns (r: string)
    ensures r == out + ([tag] + text + CRLF)
  {
    r := out + [tag];
    r := r + text;
    r := r + "\r\n";
  }

  method AppendError(out: string, code: string, message: string) returns (r: string)
    ensures r == out + Encoding(Error(code, message))
  {
    var line := code;
    if message != [] {
      line := line + " ";
      line := line + message;
    }
    assert "-" + code + (if message == [] then [] else " " + message) == "-" + line;
    r := AppendLine(out, '-', line);
  }

  method AppendBulk(out: string, data: string) returns (r: string)
    ensures r == out + Encoding(Bulk(data))
  {
    r := AppendLine(out, '$', SignedDecimal(|data|));
    r := r + data;
    r := r + "\r\n";
    Reassociate(out, "$" + SignedDecimal(|data|) + CRLF, data, CRLF);
  }

  /** Appends the byte form to `out`, item by item. */
  method Encode(v: Value, out: string) returns (r: string)
    ensures r == out + Encoding(v)
    decreases Size(v), 0
  {
    match v
    case Null => r := AppendLine(out, '$', "-1");
    case Simple(text) => r := AppendLine(out, '+', text);
    case Error(code, message) => r := AppendError(out, code, message);
    case Integer(n) => r := AppendLine(out, ':', SignedDecimal(n));
    case Bulk(data) => r := AppendBulk(out, data);
    case Array(items) =>
      ghost var header := "*" + SignedDecimal(|items|) + CRLF;
      r := AppendLine(out, '*', SignedDecimal(|items|));
      r := EncodeItems(items, r);
      assert r == out + (header + EncodingAll(items)) by { Reassociate(out, header, EncodingAll(items), []); }
    case Map(entries) =>
      ghost var header := "%" + SignedDecimal(|entries|) + CRLF;
      ghost var body := EncodingAll(Flatten(entries));
      r := AppendLine(out, '%', SignedDecimal(|entries|));
      r := EncodeEntries(entries, r);
      assert r == out + (header + body) by { Reassociate(out, header, body, []); }
  }

  method EncodeItems(items: seq<Value>, out: string) returns (r: string)
    ensures r == out + EncodingAll(items)
    decreases SizeAll(items), 1
  {
    r := out;
    for i := 0 to |items|
      invariant r == out + EncodingAll(items[..i])
    {
      SizeOfItem(items, i);
      r := Encode(items[i], r);
      Reassociate(out, EncodingAll(items[..i]), Encoding(items[i]), []);
      EncodingAllSnoc(items[..i], items[i]);
      assert items[..i] + [items[i]] == items[..i + 1];
    }
    assert items[..|items|] == items;
  }

  method EncodeEntries(entries: seq<Entry>, out: string) returns (r: string)
    ensures r == out + EncodingAll(Flatten(entries))
    decreases SizePairs(entries), 1
  {
    r := out;
    for i := 0 to |entries|
      invariant r == out + EncodingAll(Flatten(entries[..i]))
    {
      EntrySizes(entries, i);
      var e := entries[i];
      r := Encode(e.key, r);
      r := Encode(e.val, r);
      Reassociate(out, EncodingAll(Flatten(entries[..i])), Encoding(e.key), Encoding(e.val));
      EncodingAllEntry(entries[..i], e);
      assert entries[..i] + [e] == entries[..i + 1];
    }
    assert entries[..|entries|] == entries;
  }

  lemma EntrySizes(entries: seq<Entry>, i: nat)
    requires i < |entries|
    ensures Size(entries[i].key) <= SizePairs(entries) && Size(entries[i].val) <= SizePairs(entries)
  {
    FlattenAt(entries, i);
    SizeOfItem(Flatten(entries), 2 * i);
    SizeOfItem(Flatten(entries), 2 * i + 1);
  }

  lemma {:induction false} EncodingAllEntry(entries: seq<Entry>, e: Entry)
    ensures EncodingAll(Flatten(entries + [e])) == EncodingAll(Flatten(entries)) + Encoding(e.key) + Encoding(e.val)
    decreases |entries|
  {
    FlattenSnoc(entries, e);
    EncodingAllSnoc(Flatten(entries), e.key);
    EncodingAllSnoc(Flatten(entries) + [e.key], e.val);
  }

  lemma {:induction false} FlattenSnoc(entries: seq<Entry>, e: Entry)
    ensures Flatten(entries + [e]) == Flatten(entries) + [e.key] + [e.val]
    decreases |entries|
  {
    if entries != [] {
      assert (entries + [e])[1..] == entries[1..] + [e];
      FlattenSnoc(entries[1..], e);
    }
  }

  lemma {:induction false} SizeOfItem(items: seq<Value>, i: nat)
    requires i < |items|
    ensures Size(items[i]) <= SizeAll(items)
    decreases i
  {
    if i > 0 {
      SizeOfItem(items[1..], i - 1);
    }
  }

  lemma {:induction false} FlattenAt(entries: seq<Entry>, i: nat)
    requires i < |entries|
    ensures Flatten(entries)[2 * i] == entries[i].key && Flatten(entries)[2 * i + 1] == entries[i].val
    decreases i
  {
    if i > 0 {
      FlattenAt(entries[1..], i - 1);
    }
  }
}
