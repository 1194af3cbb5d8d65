/** SCAN: pages of matching tag names with the last name as cursor, over a store that may change
    between calls. */
module CoreTagSource {
  import opened Options
  import opened Topics
  import opened TagEngines
  import IrspValues
  import Dispatchers
  import VariantCodec

  // ---- Single tags ----

  /** The store's tags are of the program's types: values in range, times in 64-bit nanoseconds. */
  ghost predicate InRange(contents: map<string, TagValue>) {
    forall n <- contents :: VariantCodec.IsVariant(contents[n].value) && IrspValues.FitsInt64(contents[n].ts)
  }

  function RecordOf(tag: TagValue): Dispatchers.TagRecord
    requires VariantCodec.IsVariant(tag.value) && IrspValues.FitsInt64(tag.ts)
  {
    var coded := VariantCodec.EncodeVariant(tag.value);
    Dispatchers.TagRecord(tag.name, coded.0, tag.ts, coded.1)
  }

  /** The store as requests see it: names with their records. */
  ghost function StoreOf(contents: map<string, TagValue>): map<string, Dispatchers.TagRecord>
    requires InRange(contents)
  {
    map n | n in contents :: RecordOf(contents[n])
  }

  /** Reading finds what is stored under the name, but never the empty name. */
  method ReadRecord(engine: TagEngine, name: string) returns (r: Option<Dispatchers.TagRecord>)
    requires engine.Valid() && InRange(engine.Contents())
    ensures var store := StoreOf(engine.Contents());
      r == if name != "" && name in store then Some(store[name]) else None
  {
    var tag := engine.Read(name);
    r := if tag.Some? then Some(RecordOf(tag.value)) else None;
  }

  /** Looking whether a tag exists finds the empty name too. */
  method TagExists(engine: TagEngine, name: string) returns (found: bool)
    requires engine.Valid() && InRange(engine.Contents())
    ensures found <==> name in StoreOf(engine.Contents())
  {
    found := engine.Exists(name);
  }

  /** A record's value is the stored one. */
  lemma RecordKeepsValue(tag: TagValue)
    requires VariantCodec.IsVariant(tag.value) && IrspValues.FitsInt64(tag.ts)
    ensures VariantCodec.ToVariant(RecordOf(tag).tag, RecordOf(tag).value) == Some(tag.value)
  {
    VariantCodec.VariantRoundTrip(tag.value, []);
    assert RecordOf(tag).value + [] == RecordOf(tag).value;
  }

  // ---- Pages ----

  const END := "0"

  /** Byte order of names. */
  predicate Less(a: string, b: string) {
    b != [] && (a == [] || a[0] < b[0] || (a[0] == b[0] && Less(a[1..], b[1..])))
  }

  lemma {:induction false} LessTotal(a: string, b: string)
    ensures Less(a, b) || Less(b, a) || a == b
  {
    if a != [] && b != [] && a[0] == b[0] {
      LessTotal(a[1..], b[1..]);
      assert a == [a[0]] + a[1..] && b == [b[0]] + b[1..];
    }
  }

  lemma {:induction false} LessTransitive(a: string, b: string, c: string)
    requires Less(a, b) && Less(b, c)
    ensures Less(a, c)
  {
    if a != [] && a[0] == b[0] == c[0] {
      LessTransitive(a[1..], b[1..], c[1..]);
    }
  }

  lemma {:induction false} LessIrreflexive(a: string)
    ensures !Less(a, a)
  {
    if a != [] {
      LessIrreflexive(a[1..]);
    }
  }

  predicate Ascending(v: seq<string>) {
    forall i, j :: 0 <= i < j < |v| ==> Less(v[i], v[j])
  }

  function StartOf(cursor: string): string {
    if cursor == END then [] else cursor
  }

  function LimitOf(count: nat): nat {
    if count == 0 then 1000 else count
  }

  /** What a call at this cursor has to choose from. */
  function After(names: set<string>, pattern: string, cursor: string): set<string> {
    set n | n in names && Less(StartOf(cursor), n) && Matches(pattern, n)
  }

  /** One call: everything that is left, in order, when it fits; otherwise the first names only, with
      the last of them as the next cursor. */
  ghost predicate IsPage(left: set<string>, limit: nat, page: seq<string>, next: string) {
    && Ascending(page) && (forall n <- page :: n in left)
    && if |left| <= limit then next == END && forall n <- left :: n in page
       else |page| == limit > 0 && next == page[limit - 1] && forall n <- left :: n in page || Less(next, n)
  }

  // ---- The call itself ----

  method Smallest(names: set<string>) returns (least: string)
    requires names != {}
    ensures least in names && forall n <- names :: n != least ==> Less(least, n)
  {
    least :| least in names;
    var rest := names - {least};
    while rest != {}
      invariant rest <= names && least in names
      invariant forall n <- names :: n !in rest && n != least ==> Less(least, n)
      decreases rest
    {
      var n :| n in rest;
      rest := rest - {n};
      LessTotal(n, least);
      if Less(n, least) {
        forall m | m in names && m !in rest && m != n
          ensures Less(n, m)
        {
          if m != least {
            LessTransitive(n, least, m);
          }
        }
        least := n;
      }
    }
  }

  method Sorted(names: set<string>) returns (v: seq<string>)
    ensures Ascending(v) && |v| == |names| && forall n :: n in v <==> n in names
  {
    v := [];
    var rest := names;
    while rest != {}
      invariant rest <= names && |v| + |rest| == |names|
      invariant forall n :: n in v <==> n in names && n !in rest
      invariant Ascending(v) && forall i, n :: 0 <= i < |v| && n in rest ==> Less(v[i], n)
      decreases rest
    {
      var least := Smallest(rest);
      ghost var before, left := v, rest;
      rest := rest - {least};
      v := v + [least];
      forall n
        ensures n in v <==> n in names && n !in rest
      {
        assert n in v <==> n in before || n == least;
        assert n in before <==> n in names && n !in left;
      }
    }
  }

  function NamesOf(tags: seq<TagValue>): set<string> {
    set tag <- tags :: tag.name
  }

  lemma NamesMore(tags: seq<TagValue>, i: nat)
    requires i < |tags|
    ensures NamesOf(tags[..i + 1]) == NamesOf(tags[..i]) + {tags[i].name}
  {
    assert tags[..i + 1] == tags[..i] + [tags[i]];
  }

  lemma AfterMore(names: set<string>, n: string, pattern: string, cursor: string)
    ensures After(names + {n}, pattern, cursor) ==
      After(names, pattern, cursor) + if Less(StartOf(cursor), n) && Matches(pattern, n) then {n} else {}
  {}

  /** The names of a snapshot that are left. */
  method Filter(tags: seq<TagValue>, pattern: string, cursor: string) returns (left: set<string>)
    ensures left == After(NamesOf(tags), pattern, cursor)
  {
    left := {};
    var i := 0;
    while i < |tags|
      invariant i <= |tags| && left == After(NamesOf(tags[..i]), pattern, cursor)
    {
      var matches := MatchTopic(pattern, tags[i].name);
      NamesMore(tags, i);
      AfterMore(NamesOf(tags[..i]), tags[i].name, pattern, cursor);
      if Less(StartOf(cursor), tags[i].name) && matches {
        left := left + {tags[i].name};
      }
      i := i + 1;
    }
    assert tags[..i] == tags;
  }

  method Scan(engine: TagEngine, cursor: string, pattern: string, count: nat) returns (page: seq<string>, next: string)
    requires engine.Valid()
    ensures IsPage(After(engine.Contents().Keys, pattern, cursor), LimitOf(count), page, next)
  {
    var tags := engine.Snapshot();
    SnapshotNames(tags, engine.shards[..], engine.hash);
    var left := Filter(tags, pattern, cursor);
    var names := Sorted(left);
    page, next := Cut(names, LimitOf(count), left);
  }

  method Cut(names: seq<string>, limit: nat, ghost left: set<string>) returns (page: seq<string>, next: string)
    requires limit > 0 && Ascending(names) && |names| == |left| && forall n :: n in names <==> n in left
    ensures IsPage(left, limit, page, next)
  {
    if |names| <= limit {
      return names, END;
    }
    page, next := names[..limit], names[limit - 1];
    forall n | n in left
      ensures n in page || Less(next, n)
    {
      var k :| 0 <= k < |names| && names[k] == n;
      assert k < limit ==> page[k] == n;
    }
    assert forall n <- page :: n in names;
  }

  lemma SnapshotNames(tags: seq<TagValue>, shards: seq<Shard>, hash: string -> nat)
    requires |shards| == SHARD_COUNT && forall k :: 0 <= k < SHARD_COUNT ==> ShardOk(shards[k], k, hash)
    requires var all := Merged(shards, hash); forall tag :: tag in tags <==> tag.name in all && all[tag.name] == tag
    ensures NamesOf(tags) == Merged(shards, hash).Keys
  {
    var all := Merged(shards, hash);
    forall n | n in all
      ensures n in NamesOf(tags)
    {
      MergedAt(shards, hash, n);
      assert all[n] in tags;
    }
  }

  // ---- The whole iteration ----

  /** A client's calls from the first until the end: the names present at each call, the cursor it
      was made with and what it returned. */
  ghost predicate IsIteration(stores: seq<set<string>>, pattern: string, limit: nat, pages: seq<seq<string>>, cursors: seq<string>) {
    && |stores| == |pages| >= 1 && |cursors| == |pages| + 1
    && cursors[0] == END && cursors[|pages|] == END
    && (forall i :: 1 <= i < |pages| ==> cursors[i] != END)
    && forall i :: 0 <= i < |pages| ==> IsPage(After(stores[i], pattern, cursors[i]), limit, pages[i], cursors[i + 1])
  }

  function All(pages: seq<seq<string>>): seq<string> {
    if pages == [] then [] else All(pages[..|pages| - 1]) + pages[|pages| - 1]
  }

  /** Present at every call. */
  ghost predicate AlwaysThere(stores: seq<set<string>>, n: string) {
    forall i :: 0 <= i < |stores| ==> n in stores[i]
  }

  /** What has been returned by the first `k` calls is in order and lies before the cursor. */
  ghost predicate Ordered(pattern: string, pages: seq<seq<string>>, cursors: seq<string>, k: nat)
    requires |cursors| == |pages| + 1 && k <= |pages|
  {
    && Ascending(All(pages[..k]))
    && (forall n <- All(pages[..k]) :: Matches(pattern, n))
    && (k < |pages| ==> forall n <- All(pages[..k]) :: n == cursors[k] || Less(n, cursors[k]))
  }

  /** A name is returned, still to come, or cut off. */
  ghost predicate Accounted(stores: seq<set<string>>, pattern: string, limit: nat, pages: seq<seq<string>>, cursors: seq<string>, k: nat, n: string)
    requires |stores| == |pages| && |cursors| == |pages| + 1 && k <= |pages|
  {
    || n in All(pages[..k])
    || (k < |pages| && Less(StartOf(cursors[k]), n))
    || (k == |pages| && StoppedShort(stores, pattern, limit, cursors))
  }

  /** At the last call more was left than one page holds. */
  ghost predicate StoppedShort(stores: seq<set<string>>, pattern: string, limit: nat, cursors: seq<string>)
    requires |cursors| == |stores| + 1
  {
    stores != [] && |After(stores[|stores| - 1], pattern, cursors[|stores| - 1])| > limit
  }

  lemma AscendingAppend(a: seq<string>, b: seq<string>, middle: string)
    requires Ascending(a) && Ascending(b)
    requires (forall n <- a :: n == middle || Less(n, middle)) && forall n <- b :: Less(middle, n)
    ensures Ascending(a + b)
  {
    forall i, j | 0 <= i < j < |a + b|
      ensures Less((a + b)[i], (a + b)[j])
    {
      if i < |a| <= j {
        assert a[i] in a && b[j - |a|] in b;
        if a[i] != middle {
          LessTransitive(a[i], middle, b[j - |a|]);
        }
      }
    }
  }

  lemma MatchedNotEmpty(pattern: string, n: string)
    requires Matches(pattern, n)
    ensures n != [] && Less([], n)
  {}

  lemma LastIsGreatest(page: seq<string>)
    requires Ascending(page) && page != []
    ensures forall n <- page :: n == page[|page| - 1] || Less(n, page[|page| - 1])
  {
    forall n | n in page
      ensures n == page[|page| - 1] || Less(n, page[|page| - 1])
    {
      var k :| 0 <= k < |page| && page[k] == n;
    }
  }

  /** One more page after the names up to `start`. */
  lemma OneMorePage(before: seq<string>, left: set<string>, start: string, limit: nat, page: seq<string>, next: string)
    requires Ascending(before) && (forall n <- before :: n == start || Less(n, start))
    requires (forall n <- left :: Less(start, n)) && IsPage(left, limit, page, next)
    ensures Ascending(before + page)
    ensures |left| > limit ==> next in left && forall n <- before + page :: n == next || Less(n, next)
  {
    AscendingAppend(before, page, start);
    if |left| > limit {
      LastIsGreatest(page);
      assert next in page;
      forall n | n in before
        ensures Less(n, next)
      {
        if n != start {
          LessTransitive(n, start, next);
        }
      }
    }
  }

  lemma AllMore(pages: seq<seq<string>>, k: nat)
    requires k < |pages|
    ensures All(pages[..k + 1]) == All(pages[..k]) + pages[k]
  {
    assert pages[..k + 1][..k] == pages[..k] && pages[..k + 1][k] == pages[k];
  }

  lemma OrderedStep(stores: seq<set<string>>, pattern: string, limit: nat, pages: seq<seq<string>>, cursors: seq<string>, k: nat)
    requires IsIteration(stores, pattern, limit, pages, cursors) && k < |pages|
    requires Ordered(pattern, pages, cursors, k)
    ensures Ordered(pattern, pages, cursors, k + 1)
  {
    var left := After(stores[k], pattern, cursors[k]);
    assert IsPage(left, limit, pages[k], cursors[k + 1]);
    AllMore(pages, k);
    assert k == 0 ==> All(pages[..k]) == [];
    OneMorePage(All(pages[..k]), left, StartOf(cursors[k]), limit, pages[k], cursors[k + 1]);
    assert k + 1 < |pages| ==> |left| > limit;
  }

  /** One more call, for one name. */
  lemma AccountedStep(stores: seq<set<string>>, pattern: string, limit: nat, pages: seq<seq<string>>, cursors: seq<string>, k: nat, n: string)
    requires IsIteration(stores, pattern, limit, pages, cursors) && k < |pages|
    requires AlwaysThere(stores, n) && Matches(pattern, n) && Accounted(stores, pattern, limit, pages, cursors, k, n)
    ensures Accounted(stores, pattern, limit, pages, cursors, k + 1, n)
  {
    var left := After(stores[k], pattern, cursors[k]);
    assert IsPage(left, limit, pages[k], cursors[k + 1]) && n in stores[k];
    AllMore(pages, k);
  }

  lemma {:induction false} OrderedAll(stores: seq<set<string>>, pattern: string, limit: nat, pages: seq<seq<string>>, cursors: seq<string>, k: nat)
    requires IsIteration(stores, pattern, limit, pages, cursors) && k <= |pages|
    ensures Ordered(pattern, pages, cursors, k)
  {
    if k > 0 {
      OrderedAll(stores, pattern, limit, pages, cursors, k - 1);
      OrderedStep(stores, pattern, limit, pages, cursors, k - 1);
    }
  }

  lemma {:induction false} AccountedAll(stores: seq<set<string>>, pattern: string, limit: nat, pages: seq<seq<string>>, cursors: seq<string>, k: nat, n: string)
    requires IsIteration(stores, pattern, limit, pages, cursors) && k <= |pages|
    requires AlwaysThere(stores, n) && Matches(pattern, n)
    ensures Accounted(stores, pattern, limit, pages, cursors, k, n)
  {
    if k == 0 {
      MatchedNotEmpty(pattern, n);
    } else {
      AccountedAll(stores, pattern, limit, pages, cursors, k - 1, n);
      AccountedStep(stores, pattern, limit, pages, cursors, k - 1, n);
    }
  }

  /** Iterating to the end over a changing store returns strictly ascending names, so none twice; and
      every matching tag that was there at every call, unless the last page was cut short.  That happens
      only at a tag named "0", and then some matching tag of the last call is not returned. */
  lemma ScanReturnsAllPresent(stores: seq<set<string>>, pattern: string, limit: nat, pages: seq<seq<string>>, cursors: seq<string>)
    requires IsIteration(stores, pattern, limit, pages, cursors)
    ensures Ascending(All(pages)) && forall n <- All(pages) :: Matches(pattern, n)
    ensures !StoppedShort(stores, pattern, limit, cursors) ==>
      forall n :: AlwaysThere(stores, n) && Matches(pattern, n) ==> n in All(pages)
    ensures StoppedShort(stores, pattern, limit, cursors) ==>
      && limit > 0 && |pages[|pages| - 1]| == limit && pages[|pages| - 1][limit - 1] == END
      && exists n :: n in stores[|stores| - 1] && Matches(pattern, n) && n !in All(pages)
  {
    OrderedAll(stores, pattern, limit, pages, cursors, |pages|);
    assert pages[..|pages|] == pages;
    forall n | AlwaysThere(stores, n) && Matches(pattern, n)
      ensures StoppedShort(stores, pattern, limit, cursors) || n in All(pages)
    {
      AccountedAll(stores, pattern, limit, pages, cursors, |pages|, n);
    }
    if StoppedShort(stores, pattern, limit, cursors) {
      var n := StoppedShortMisses(stores, pattern, limit, pages, cursors);
    }
  }

  lemma StoppedShortMisses(stores: seq<set<string>>, pattern: string, limit: nat, pages: seq<seq<string>>, cursors: seq<string>) returns (n: string)
    requires IsIteration(stores, pattern, limit, pages, cursors) && StoppedShort(stores, pattern, limit, cursors)
    ensures n in stores[|stores| - 1] && Matches(pattern, n) && n !in All(pages)
    ensures limit > 0 && |pages[|pages| - 1]| == limit && pages[|pages| - 1][limit - 1] == END
  {
    var k := |pages| - 1;
    var left := After(stores[k], pattern, cursors[k]);
    assert IsPage(left, limit, pages[k], cursors[k + 1]);
    OrderedAll(stores, pattern, limit, pages, cursors, k);
    AllMore(pages, k);
    assert pages[..k + 1] == pages;
    n := Unreturned(pages[k], left, limit);
    NotBefore(All(pages[..k]), cursors[k], n, k == 0);
  }

  /** A page shorter than what is left misses something. */
  lemma Unreturned(page: seq<string>, left: set<string>, limit: nat) returns (n: string)
    requires Ascending(page) && |page| <= limit < |left|
    ensures n in left && n !in page
  {
    AscendingSize(page);
    if left <= Elements(page) {
      SubsetSize(left, Elements(page));
    }
    n :| n in left && n !in Elements(page);
  }

  lemma {:induction false} SubsetSize(a: set<string>, b: set<string>)
    requires a <= b
    ensures |a| <= |b|
  {
    assert a + (b - a) == b;
  }

  /** What lies beyond a cursor is not among the names up to it. */
  lemma NotBefore(before: seq<string>, cursor: string, n: string, first: bool)
    requires if first then before == [] else Less(cursor, n) && forall b <- before :: b == cursor || Less(b, cursor)
    ensures n !in before
  {
    if n in before {
      if n != cursor {
        LessTransitive(n, cursor, n);
      }
      LessIrreflexive(n);
    }
  }

  // ---- Over a store that does not change ----

  function Elements(v: seq<string>): set<string> {
    set n | n in v
  }

  lemma {:induction false} AscendingSize(v: seq<string>)
    requires Ascending(v)
    ensures |Elements(v)| == |v|
  {
    if v != [] {
      var last, rest := v[|v| - 1], v[..|v| - 1];
      AscendingSize(rest);
      assert v == rest + [last];
      forall k | 0 <= k < |rest| ensures rest[k] != last { LessIrreflexive(last); assert Less(v[k], v[|v| - 1]); }
      assert Elements(v) == Elements(rest) + {last};
    }
  }

  /** Of two names of one ascending list the smaller comes first. */
  lemma EarlierIsLess(v: seq<string>, i: nat, j: nat)
    requires Ascending(v) && i < |v| && j < |v|
    ensures Less(v[i], v[j]) <==> i < j
  {
    if i >= j && Less(v[i], v[j]) {
      if i > j {
        LessTransitive(v[i], v[j], v[i]);
      }
      LessIrreflexive(v[i]);
    }
  }

  function Min(a: nat, b: nat): nat {
    if a <= b then a else b
  }

  /** The page's names are the first ones that are left, one by one. */
  lemma {:induction false} SliceAt(rest: seq<string>, limit: nat, page: seq<string>, next: string, i: nat)
    requires Ascending(rest) && IsPage(Elements(rest), limit, page, next) && i < |page|
    ensures i < |rest| && page[i] == rest[i]
    decreases i
  {
    var p := page[i];
    assert p in Elements(rest);
    var at :| 0 <= at < |rest| && rest[at] == p;
    forall k | 0 <= k < i ensures k < |rest| && page[k] == rest[k] {
      SliceAt(rest, limit, page, next, k);
    }
    if at < i {
      EarlierIsLess(page, at, i);
      LessIrreflexive(p);
    }
    var n := rest[i];
    assert n in Elements(rest);
    if n in page {
      var j :| 0 <= j < |page| && page[j] == n;
      if j < i {
        EarlierIsLess(rest, j, i);
        LessIrreflexive(n);
      } else if j > i {
        EarlierIsLess(page, i, j);
        EarlierIsLess(rest, at, i);
      }
    } else {
      LastIsGreatest(page);
      assert Less(next, n);
      if p != next {
        LessTransitive(p, next, n);
      }
      EarlierIsLess(rest, at, i);
    }
  }

  lemma PageIsSlice(rest: seq<string>, limit: nat, page: seq<string>, next: string)
    requires Ascending(rest) && limit > 0 && IsPage(Elements(rest), limit, page, next)
    ensures page == rest[..Min(limit, |rest|)]
    ensures next == if |rest| <= limit then END else rest[limit - 1]
  {
    AscendingSize(rest);
    AscendingSize(page);
    if |rest| <= limit {
      assert Elements(page) == Elements(rest);
    }
    forall i | 0 <= i < |page| ensures page[i] == rest[i] {
      SliceAt(rest, limit, page, next, i);
    }
  }

  /** The names left after a cursor taken from the list itself. */
  lemma LeftAfter(names: set<string>, pattern: string, sorted: seq<string>, j: nat)
    requires Ascending(sorted) && Elements(sorted) == After(names, pattern, END) && 1 <= j <= |sorted|
    requires sorted[j - 1] != END
    ensures After(names, pattern, sorted[j - 1]) == Elements(sorted[j..])
  {
    forall n
      ensures n in After(names, pattern, sorted[j - 1]) <==> n in Elements(sorted[j..])
    {
      if n in sorted {
        assert n in Elements(sorted);
        ListedLater(sorted, j, n);
      } else {
        assert n !in After(names, pattern, END) by { assert n !in Elements(sorted); }
        if Matches(pattern, n) {
          MatchedNotEmpty(pattern, n);
        }
      }
    }
  }

  lemma ListedLater(sorted: seq<string>, j: nat, n: string)
    requires Ascending(sorted) && 1 <= j <= |sorted| && n in sorted
    ensures Less(sorted[j - 1], n) <==> n in sorted[j..]
  {
    var k :| 0 <= k < |sorted| && sorted[k] == n;
    EarlierIsLess(sorted, j - 1, k);
    if n in sorted[j..] {
      var i :| 0 <= i < |sorted[j..]| && sorted[j..][i] == n;
      EarlierIsLess(sorted, j - 1, j + i);
    }
    if j <= k {
      assert sorted[j..][k - j] == n;
    }
  }

  /** The calls so far have returned the list's names in order, `limit` at a time. */
  ghost predicate Chunked(sorted: seq<string>, limit: nat, pages: seq<seq<string>>, cursors: seq<string>, k: nat)
    requires |cursors| == |pages| + 1 && k <= |pages|
  {
    ChunkedTo(sorted, k * limit, pages, cursors, k)
  }

  ghost predicate ChunkedTo(sorted: seq<string>, j: nat, pages: seq<seq<string>>, cursors: seq<string>, k: nat)
    requires |cursors| == |pages| + 1 && k <= |pages|
  {
    && All(pages[..k]) == sorted[..Min(j, |sorted|)]
    && (k > 0 ==> cursors[k] == CursorAt(sorted, j))
  }

  /** The cursor after `j` names have been returned. */
  function CursorAt(sorted: seq<string>, j: nat): string {
    if |sorted| <= j || j == 0 then END else sorted[j - 1]
  }

  lemma SliceAppend(sorted: seq<string>, j: nat, limit: nat)
    requires j <= |sorted|
    ensures sorted[..j] + sorted[j..][..Min(limit, |sorted[j..]|)] == sorted[..Min(j + limit, |sorted|)]
  {}

  /** One call after `j` names. */
  lemma OneChunk(names: set<string>, pattern: string, sorted: seq<string>, limit: nat, j: nat, cursor: string, page: seq<string>, next: string)
    requires Ascending(sorted) && Elements(sorted) == After(names, pattern, END) && limit > 0
    requires cursor == CursorAt(sorted, j) && (j > 0 ==> cursor != END)
    requires IsPage(After(names, pattern, cursor), limit, page, next)
    ensures j > 0 ==> j < |sorted|
    ensures j <= |sorted| && sorted[..j] + page == sorted[..Min(j + limit, |sorted|)] && next == CursorAt(sorted, j + limit)
  {
    if j > 0 {
      LeftAfter(names, pattern, sorted, j);
    } else {
      assert sorted[0..] == sorted;
    }
    PageIsSlice(sorted[j..], limit, page, next);
    SliceAppend(sorted, j, limit);
  }

  lemma ChunkStep(names: set<string>, pattern: string, sorted: seq<string>, limit: nat, pages: seq<seq<string>>, cursors: seq<string>, k: nat)
    requires Ascending(sorted) && Elements(sorted) == After(names, pattern, END) && limit > 0
    requires IsIteration(seq(|pages|, i => names), pattern, limit, pages, cursors)
    requires k < |pages| && Chunked(sorted, limit, pages, cursors, k)
    ensures k > 0 ==> k * limit < |sorted|
    ensures Chunked(sorted, limit, pages, cursors, k + 1)
  {
    assert (k + 1) * limit == k * limit + limit;
    assert k > 0 <==> k * limit > 0;
    IterationAt(names, pattern, limit, pages, cursors, k);
    ChunkMore(names, pattern, sorted, limit, k * limit, pages, cursors, k);
  }

  lemma IterationAt(names: set<string>, pattern: string, limit: nat, pages: seq<seq<string>>, cursors: seq<string>, k: nat)
    requires IsIteration(seq(|pages|, i => names), pattern, limit, pages, cursors) && k < |pages|
    ensures IsPage(After(names, pattern, cursors[k]), limit, pages[k], cursors[k + 1])
    ensures if k > 0 then cursors[k] != END else cursors[k] == END
  {
    var stores := seq(|pages|, i => names);
    assert stores[k] == names && IsPage(After(stores[k], pattern, cursors[k]), limit, pages[k], cursors[k + 1]);
  }

  lemma ChunkMore(names: set<string>, pattern: string, sorted: seq<string>, limit: nat, j: nat, pages: seq<seq<string>>, cursors: seq<string>, k: nat)
    requires Ascending(sorted) && Elements(sorted) == After(names, pattern, END) && limit > 0
    requires k < |pages| && |cursors| == |pages| + 1 && (if k > 0 then cursors[k] != END else cursors[k] == END)
    requires IsPage(After(names, pattern, cursors[k]), limit, pages[k], cursors[k + 1])
    requires (k > 0 <==> j > 0) && ChunkedTo(sorted, j, pages, cursors, k)
    ensures k > 0 ==> j < |sorted|
    ensures ChunkedTo(sorted, j + limit, pages, cursors, k + 1)
  {
    OneChunk(names, pattern, sorted, limit, j, cursors[k], pages[k], cursors[k + 1]);
    AllMore(pages, k);
  }

  lemma {:induction false} ChunkAll(names: set<string>, pattern: string, sorted: seq<string>, limit: nat, pages: seq<seq<string>>, cursors: seq<string>, k: nat)
    requires Ascending(sorted) && Elements(sorted) == After(names, pattern, END) && limit > 0
    requires IsIteration(seq(|pages|, i => names), pattern, limit, pages, cursors) && k <= |pages|
    ensures Chunked(sorted, limit, pages, cursors, k)
    ensures 1 < k ==> (k - 1) * limit < |sorted|
  {
    if k > 0 {
      ChunkAll(names, pattern, sorted, limit, pages, cursors, k - 1);
      ChunkStep(names, pattern, sorted, limit, pages, cursors, k - 1);
    }
  }

  /** After `k` full pages there is more to come, but the last name was "0". */
  predicate StopsAfter(sorted: seq<string>, limit: nat, k: nat) {
    var j := k * limit; 1 <= k && j < |sorted| && CursorAt(sorted, j) == END
  }

  ghost predicate StopsEarly(sorted: seq<string>, limit: nat) {
    exists k :: StopsAfter(sorted, limit, k)
  }

  lemma MoreCalls(m: nat, k: nat, limit: nat)
    requires m <= k
    ensures m * limit <= k * limit
  {}

  /** The number of calls for `n` names. */
  function Calls(n: nat, limit: nat): nat
    requires limit > 0
  {
    if n == 0 then 1 else (n + limit - 1) / limit
  }

  lemma CallsIs(n: nat, limit: nat, m: nat)
    requires limit > 0 && m >= 1 && n <= m * limit && (m > 1 ==> (m - 1) * limit < n)
    ensures m == Calls(n, limit)
  {
    if n > 0 {
      var q, r := (n + limit - 1) / limit, (n + limit - 1) % limit;
      assert n + limit - 1 == q * limit + r;
      if q < m {
        MoreCalls(q, m - 1, limit);
      }
      assert q > m ==> q * limit >= m * limit + limit by {
        if q > m {
          MoreCalls(m + 1, q, limit);
        }
      }
    }
  }

  /** Over a store that stays the same the iteration returns every matching name in order, exactly
      unless some full page with more to come ends at a tag named "0"; and then it takes one call per
      started `limit` names, at least one. */
  lemma FixedStoreScan(names: set<string>, pattern: string, sorted: seq<string>, limit: nat, pages: seq<seq<string>>, cursors: seq<string>)
    requires Ascending(sorted) && Elements(sorted) == After(names, pattern, END) && limit > 0
    requires IsIteration(seq(|pages|, i => names), pattern, limit, pages, cursors)
    ensures All(pages) == sorted <==> !StopsEarly(sorted, limit)
    ensures All(pages) == sorted ==> |pages| == Calls(|sorted|, limit)
    ensures All(pages) <= sorted
  {
    var m := |pages|;
    ChunkAll(names, pattern, sorted, limit, pages, cursors, m);
    assert pages[..m] == pages;
    if m * limit < |sorted| {
      assert StopsAfter(sorted, limit, m);
    } else {
      CallsIs(|sorted|, limit, m);
      assert sorted[..|sorted|] == sorted;
      NeverStops(names, pattern, sorted, limit, pages, cursors);
    }
  }

  lemma NeverStops(names: set<string>, pattern: string, sorted: seq<string>, limit: nat, pages: seq<seq<string>>, cursors: seq<string>)
    requires Ascending(sorted) && Elements(sorted) == After(names, pattern, END) && limit > 0
    requires IsIteration(seq(|pages|, i => names), pattern, limit, pages, cursors) && |sorted| <= |pages| * limit
    ensures !StopsEarly(sorted, limit)
  {
    forall k: nat | 1 <= k
      ensures !StopsAfter(sorted, limit, k)
    {
      if k < |pages| {
        ChunkAll(names, pattern, sorted, limit, pages, cursors, k);
      } else {
        MoreCalls(|pages|, k, limit);
      }
    }
  }

  /** A topic of one level without wildcards is matched by `#`. */
  lemma HashMatches(seg: string)
    requires seg != [] && NoSlash(seg) && !HasWildcardChar(seg)
    ensures Matches("#", seg)
  {
    OneLevel(seg);
    OneLevel("#");
    assert "+"[0] == '+' && "#"[0] == '#';
    assert Literal(seg);
  }

  lemma OneLevel(seg: string)
    requires seg != [] && NoSlash(seg)
    ensures Split(seg) == [seg]
  {
    LevelsJoin([seg]);
    assert Join([seg]) == seg;
  }

  /** It happens: of the tags "0" and "1", a scan one name at a time returns "0" and ends. */
  lemma StopsEarlyHappens()
    ensures var names, pages, cursors := {"0", "1"}, [["0"]], [END, END];
      && IsIteration(seq(|pages|, i => names), "#", 1, pages, cursors)
      && StopsEarly(["0", "1"], 1) && Matches("#", "1") && "1" !in All(pages)
  {
    var names, pages := {"0", "1"}, [["0"]];
    HashMatches("0");
    HashMatches("1");
    var left := After(names, "#", END);
    assert left == names;
    assert |left| == 2;
    assert Less("0", "1");
    assert IsPage(left, 1, pages[0], END);
    assert StopsAfter(["0", "1"], 1, 1);
    assert All(pages) == [] + ["0"] by {
      assert pages[..0] == [];
    }
  }
}
