/** The tag store: sixteen shards chosen by a hash of the name. */
module TagEngines {
  import opened Options
  import opened VariantCodec

  datatype TagValue = TagValue(name: string, value: Variant, ts: int)

  const SHARD_COUNT := 16

  type Shard = map<string, TagValue>

  ghost predicate ShardOk(shard: Shard, k: nat, hash: string -> nat) {
    forall n <- shard :: hash(n) % SHARD_COUNT == k && shard[n].name == n
  }

  /** Names in the first `k` shards. */
  ghost function NamesIn(shards: seq<Shard>, k: nat): set<string>
    requires k <= |shards|
  {
    set i, n | 0 <= i < k && n in shards[i] :: n
  }

  ghost function Merged(shards: seq<Shard>, hash: string -> nat): map<string, TagValue>
    requires |shards| == SHARD_COUNT && forall k :: 0 <= k < SHARD_COUNT ==> ShardOk(shards[k], k, hash)
  {
    map n | n in NamesIn(shards, SHARD_COUNT) && n in shards[hash(n) % SHARD_COUNT] :: shards[hash(n) % SHARD_COUNT][n]
  }

  lemma MergedAt(shards: seq<Shard>, hash: string -> nat, n: string)
    requires |shards| == SHARD_COUNT && forall k :: 0 <= k < SHARD_COUNT ==> ShardOk(shards[k], k, hash)
    ensures n in Merged(shards, hash) <==> n in shards[hash(n) % SHARD_COUNT]
    ensures n in Merged(shards, hash) ==> Merged(shards, hash)[n] == shards[hash(n) % SHARD_COUNT][n]
  {}

  lemma MergedSize(shards: seq<Shard>, hash: string -> nat)
    requires |shards| == SHARD_COUNT && forall k :: 0 <= k < SHARD_COUNT ==> ShardOk(shards[k], k, hash)
    ensures |Merged(shards, hash)| == |NamesIn(shards, SHARD_COUNT)|
  {
    var m := Merged(shards, hash);
    assert m.Keys == NamesIn(shards, SHARD_COUNT);
    assert |m.Keys| == |m|;
  }

  function CountIn(shards: seq<Shard>, k: nat): nat
    requires k <= |shards|
  {
    if k == 0 then 0 else CountIn(shards, k - 1) + |shards[k - 1]|
  }

  lemma {:induction false} CountIsNames(shards: seq<Shard>, hash: string -> nat, k: nat)
    requires |shards| == SHARD_COUNT && k <= SHARD_COUNT
    requires forall i :: 0 <= i < SHARD_COUNT ==> ShardOk(shards[i], i, hash)
    ensures CountIn(shards, k) == |NamesIn(shards, k)|
  {
    if k > 0 {
      CountIsNames(shards, hash, k - 1);
      NamesStep(shards, hash, k - 1);
    }
  }

  lemma MergedCount(shards: seq<Shard>, hash: string -> nat)
    requires |shards| == SHARD_COUNT && forall k :: 0 <= k < SHARD_COUNT ==> ShardOk(shards[k], k, hash)
    ensures |Merged(shards, hash)| == CountIn(shards, |shards|)
  {
    CountIsNames(shards, hash, SHARD_COUNT);
    MergedSize(shards, hash);
  }

  /** Replacing one shard by one that differs at one name changes the store at that name only. */
  lemma MergedUpdate(shards: seq<Shard>, hash: string -> nat, name: string, shard: Shard)
    requires |shards| == SHARD_COUNT && forall k :: 0 <= k < SHARD_COUNT ==> ShardOk(shards[k], k, hash)
    requires var k := hash(name) % SHARD_COUNT; ShardOk(shard, k, hash) && shard - {name} == shards[k] - {name}
    ensures var after := shards[hash(name) % SHARD_COUNT := shard];
      && (forall k :: 0 <= k < SHARD_COUNT ==> ShardOk(after[k], k, hash))
      && Merged(after, hash) ==
           if name in shard then Merged(shards, hash)[name := shard[name]] else Merged(shards, hash) - {name}
  {
    var k := hash(name) % SHARD_COUNT;
    var after := shards[k := shard];
    var m, want := Merged(after, hash),
      if name in shard then Merged(shards, hash)[name := shard[name]] else Merged(shards, hash) - {name};
    forall n
      ensures n in m <==> n in want
      ensures n in m ==> m[n] == want[n]
    {
      MergedAt(shards, hash, n);
      MergedAt(after, hash, n);
      if n != name {
        assert n in shard <==> n in shard - {name};
        assert n in shards[k] <==> n in shards[k] - {name};
        assert n in shard ==> shard[n] == (shard - {name})[n] == (shards[k] - {name})[n];
      }
    }
  }

  lemma NamesStep(shards: seq<Shard>, hash: string -> nat, k: nat)
    requires |shards| == SHARD_COUNT && k < SHARD_COUNT
    requires forall i :: 0 <= i < SHARD_COUNT ==> ShardOk(shards[i], i, hash)
    ensures NamesIn(shards, k + 1) == NamesIn(shards, k) + shards[k].Keys
    ensures NamesIn(shards, k) !! shards[k].Keys
    ensures |NamesIn(shards, k + 1)| == |NamesIn(shards, k)| + |shards[k]|
  {
    assert |shards[k].Keys| == |shards[k]|;
  }

  class TagEngine {
    const hash: string -> nat
    const shards: array<Shard>

    ghost predicate Valid()
      reads this, shards
    {
      shards.Length == SHARD_COUNT && forall k :: 0 <= k < SHARD_COUNT ==> ShardOk(shards[k], k, hash)
    }

    /** All tags by name. */
    ghost function Contents(): map<string, TagValue>
      requires Valid()
      reads this, shards
    {
      Merged(shards[..], hash)
    }

    constructor (hash: string -> nat)
      ensures Valid() && Contents() == map[] && fresh(shards)
    {
      this.hash := hash;
      shards := new Shard[SHARD_COUNT](i => map[]);
      new;
      assert NamesIn(shards[..], SHARD_COUNT) == {};
    }

    method SetShard(name: string, shard: Shard)
      requires Valid() && ShardOk(shard, hash(name) % SHARD_COUNT, hash)
      requires shard - {name} == shards[hash(name) % SHARD_COUNT] - {name}
      modifies shards
      ensures Valid()
      ensures Contents() == if name in shard then old(Contents())[name := shard[name]] else old(Contents()) - {name}
    {
      var k := hash(name) % SHARD_COUNT;
      MergedUpdate(shards[..], hash, name, shard);
      ghost var before := shards[..];
      shards[k] := shard;
      assert shards[..] == before[k := shard];
    }

    method WriteImpl(tag: TagValue) returns (changed: bool)
      requires Valid()
      modifies shards
      ensures Valid() && Contents() == old(Contents())[tag.name := tag]
      ensures changed <==> tag.name !in old(Contents()) || old(Contents())[tag.name].value != tag.value
    {
      var k := hash(tag.name) % SHARD_COUNT;
      MergedAt(shards[..], hash, tag.name);
      var shard := shards[k];
      changed := tag.name !in shard || shard[tag.name].value != tag.value;
      SetShard(tag.name, shard[tag.name := tag]);
    }

    /** `told` is what the change callback is given, if it is called. */
    method WriteCopy(tag: TagValue) returns (changed: bool, told: Option<TagValue>)
      requires Valid()
      modifies shards
      ensures Valid() && Contents() == old(Contents())[tag.name := tag]
      ensures changed <==> tag.name !in old(Contents()) || old(Contents())[tag.name].value != tag.value
      ensures told == if changed then Some(tag) else None
    {
      changed := WriteImpl(tag);
      told := if changed then Some(tag) else None;
    }

    /** A moved-in tag is read back for the callback, which fails for the empty name. */
    method WriteMove(tag: TagValue) returns (changed: bool, told: Option<TagValue>)
      requires Valid()
      modifies shards
      ensures Valid() && Contents() == old(Contents())[tag.name := tag]
      ensures changed <==> tag.name !in old(Contents()) || old(Contents())[tag.name].value != tag.value
      ensures told == if changed && tag.name != "" then Some(tag) else None
    {
      changed := WriteImpl(tag);
      told := None;
      if changed {
        told := Read(tag.name);
      }
    }

    method WriteBatch(tags: seq<TagValue>) returns (count: nat)
      requires Valid()
      modifies shards
      ensures Valid() && Contents() == WriteEach(old(Contents()), tags)
      ensures count == ChangesOf(old(Contents()), tags)
    {
      count := 0;
      var i := 0;
      while i < |tags|
        invariant i <= |tags| && Valid() && Contents() == WriteEach(old(Contents()), tags[..i])
        invariant count == ChangesOf(old(Contents()), tags[..i])
      {
        assert tags[..i + 1][..i] == tags[..i] && tags[..i + 1][i] == tags[i];
        var changed, _ := WriteCopy(tags[i]);
        if changed {
          count := count + 1;
        }
        i := i + 1;
      }
      assert tags[..i] == tags;
    }

    method Read(name: string) returns (r: Option<TagValue>)
      requires Valid()
      ensures r == if name != "" && name in Contents() then Some(Contents()[name]) else None
    {
      if name == "" {
        return None;
      }
      MergedAt(shards[..], hash, name);
      var shard := shards[hash(name) % SHARD_COUNT];
      r := if name in shard then Some(shard[name]) else None;
    }

    method Exists(name: string) returns (r: bool)
      requires Valid()
      ensures r <==> name in Contents()
    {
      MergedAt(shards[..], hash, name);
      r := name in shards[hash(name) % SHARD_COUNT];
    }

    method Remove(name: string) returns (removed: bool)
      requires Valid()
      modifies shards
      ensures Valid() && Contents() == old(Contents()) - {name}
      ensures removed <==> name in old(Contents())
    {
      MergedAt(shards[..], hash, name);
      var shard := shards[hash(name) % SHARD_COUNT];
      removed := name in shard;
      SetShard(name, shard - {name});
    }

    method Size() returns (total: nat)
      requires Valid()
      ensures total == |Contents()|
    {
      total := CountEntries();
      MergedCount(shards[..], hash);
    }

    method CountEntries() returns (total: nat)
      ensures total == CountIn(shards[..], shards.Length)
    {
      ghost var all := shards[..];
      total := 0;
      var k := 0;
      while k < shards.Length
        invariant k <= shards.Length && total == CountIn(all, k)
      {
        total := total + |shards[k]|;
        k := k + 1;
      }
    }

    /** Every tag once, in no particular order. */
    method Snapshot() returns (tags: seq<TagValue>)
      requires Valid()
      ensures forall tag :: tag in tags <==> tag.name in Contents() && Contents()[tag.name] == tag
      ensures forall i, j :: 0 <= i < j < |tags| ==> tags[i].name != tags[j].name
    {
      ghost var all, m := shards[..], Contents();
      tags := [];
      var k := 0;
      while k < SHARD_COUNT
        invariant k <= SHARD_COUNT && Listed(tags, m, NamesIn(all, k))
      {
        NamesStep(all, hash, k);
        ShardInMerged(all, hash, k);
        tags := ListShard(tags, shards[k], m, NamesIn(all, k));
        k := k + 1;
      }
      MergedNames(all, hash);
    }
  }

  lemma MergedNames(shards: seq<Shard>, hash: string -> nat)
    requires |shards| == SHARD_COUNT && forall k :: 0 <= k < SHARD_COUNT ==> ShardOk(shards[k], k, hash)
    ensures Merged(shards, hash).Keys == NamesIn(shards, SHARD_COUNT)
  {}

  lemma ShardInMerged(shards: seq<Shard>, hash: string -> nat, k: nat)
    requires |shards| == SHARD_COUNT && k < SHARD_COUNT
    requires forall i :: 0 <= i < SHARD_COUNT ==> ShardOk(shards[i], i, hash)
    ensures PartOf(shards[k], Merged(shards, hash))
  {
    assert ShardOk(shards[k], k, hash);
    forall n | n in shards[k]
      ensures n in Merged(shards, hash) && Merged(shards, hash)[n] == shards[k][n]
    {
      MergedAt(shards, hash, n);
    }
  }

  ghost predicate PartOf(shard: Shard, all: map<string, TagValue>) {
    forall n <- shard :: n in all && all[n] == shard[n] && shard[n].name == n
  }

  /** The tags of exactly these names, each once. */
  ghost predicate Listed(tags: seq<TagValue>, all: map<string, TagValue>, names: set<string>) {
    && (forall tag :: tag in tags <==> tag.name in names && tag.name in all && all[tag.name] == tag)
    && forall i, j :: 0 <= i < j < |tags| ==> tags[i].name != tags[j].name
  }

  lemma ListedMore(tags: seq<TagValue>, all: map<string, TagValue>, names: set<string>, n: string)
    requires Listed(tags, all, names) && n !in names && n in all && all[n].name == n
    ensures Listed(tags + [all[n]], all, names + {n})
  {
    forall i | 0 <= i < |tags|
      ensures tags[i].name != n
    {
      assert tags[i] in tags;
    }
  }

  method ListShard(before: seq<TagValue>, shard: Shard, ghost all: map<string, TagValue>, ghost names: set<string>)
    returns (tags: seq<TagValue>)
    requires Listed(before, all, names) && PartOf(shard, all) && names !! shard.Keys
    ensures Listed(tags, all, names + shard.Keys)
  {
    tags := before;
    var rest := shard.Keys;
    assert names + (shard.Keys - rest) == names;
    while rest != {}
      invariant rest <= shard.Keys && Listed(tags, all, names + (shard.Keys - rest))
      decreases rest
    {
      var n :| n in rest;
      ghost var done := names + (shard.Keys - rest);
      ListedMore(tags, all, done, n);
      rest := rest - {n};
      tags := tags + [shard[n]];
      assert names + (shard.Keys - rest) == done + {n};
    }
    assert names + (shard.Keys - rest) == names + shard.Keys;
  }

  function WriteEach(tags: map<string, TagValue>, written: seq<TagValue>): map<string, TagValue> {
    if written == [] then tags
    else var last := written[|written| - 1]; WriteEach(tags, written[..|written| - 1])[last.name := last]
  }

  /** How many of the writes, each seeing those before it, change a value. */
  function ChangesOf(tags: map<string, TagValue>, written: seq<TagValue>): nat {
    if written == [] then 0
    else
      var last, before := written[|written| - 1], WriteEach(tags, written[..|written| - 1]);
      ChangesOf(tags, written[..|written| - 1])
      + if last.name !in before || before[last.name].value != last.value then 1 else 0
  }

  /** The j-th write is the last one of that name. */
  predicate LastOf(written: seq<TagValue>, name: string, j: nat) {
    j < |written| && written[j].name == name && forall k :: j < k < |written| ==> written[k].name != name
  }

  /** After a batch every name written holds its last write, every other one what it held. */
  lemma {:induction false} LastWriteWins(tags: map<string, TagValue>, written: seq<TagValue>, name: string)
    ensures var after := WriteEach(tags, written);
      if w :| w in written && w.name == name then
        name in after && exists j: nat :: LastOf(written, name, j) && after[name] == written[j]
      else (name in after <==> name in tags) && (name in tags ==> after[name] == tags[name])
  {
    if written != [] {
      var last, rest := written[|written| - 1], written[..|written| - 1];
      assert written == rest + [last];
      if last.name == name {
        assert LastOf(written, name, |rest|);
      } else {
        LastWriteWins(tags, rest, name);
        if w :| w in rest && w.name == name {
          var j: nat :| LastOf(rest, name, j) && WriteEach(tags, rest)[name] == rest[j];
          assert LastOf(written, name, j);
        }
      }
    }
  }

  /** The i-th write differs from what its name held at that time: the latest earlier write of the batch, or
      else what was stored before. */
  ghost predicate ChangesAt(tags: map<string, TagValue>, written: seq<TagValue>, i: nat)
    requires i < |written|
  {
    var w := written[i];
    if j: nat :| LastOf(written[..i], w.name, j) then written[j].value != w.value
    else w.name !in tags || tags[w.name].value != w.value
  }

  ghost function Changing(tags: map<string, TagValue>, written: seq<TagValue>): set<nat> {
    set i: nat | i < |written| && ChangesAt(tags, written, i)
  }

  lemma HeldBefore(tags: map<string, TagValue>, written: seq<TagValue>, i: nat)
    requires i < |written|
    ensures var w, before := written[i], WriteEach(tags, written[..i]);
      ChangesAt(tags, written, i) <==> w.name !in before || before[w.name].value != w.value
  {
    var w, rest := written[i], written[..i];
    LastWriteWins(tags, rest, w.name);
    if j: nat :| LastOf(rest, w.name, j) {
      assert rest[j] in rest && rest[j].name == w.name;
    }
  }

  /** A batch reports as many changes as writes that differ from what their name held. */
  lemma {:induction false} ChangesCounted(tags: map<string, TagValue>, written: seq<TagValue>)
    ensures ChangesOf(tags, written) == |Changing(tags, written)|
  {
    if written == [] {
      assert Changing(tags, written) == {};
    } else {
      var n := |written| - 1;
      ChangesCounted(tags, written[..n]);
      HeldBefore(tags, written, n);
      ChangingMore(tags, written, n);
    }
  }

  lemma ChangingMore(tags: map<string, TagValue>, written: seq<TagValue>, n: nat)
    requires |written| == n + 1
    ensures Changing(tags, written) == Changing(tags, written[..n]) + if ChangesAt(tags, written, n) then {n} else {}
    ensures n !in Changing(tags, written[..n])
  {
    var rest := written[..n];
    forall i: nat | i < n
      ensures ChangesAt(tags, written, i) <==> ChangesAt(tags, rest, i)
    {
      assert written[..i] == rest[..i] && written[i] == rest[i];
      HeldBefore(tags, written, i);
      HeldBefore(tags, rest, i);
    }
  }
}
