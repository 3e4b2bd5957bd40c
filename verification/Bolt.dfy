/** One bucket of the bolt database: an ordered map behind transactions that may fail. */
module Bolt {
  datatype Option<+T> = None | Some(value: T)

  datatype KeyValue<+T> = KeyValue(key: string, value: T)

  /** How Get can end. */
  datatype GetResult<+T> = NotFound | GetError | Found(value: T)

  /** How Pop can end: no entry, a failed transaction, or the popped entry. */
  datatype PopResult<+T> = EOF | PopError | Popped(kv: KeyValue<T>)

  // ---------------------------------------------------------------- the order of the keys

  /** Bytewise order, the order of a bolt cursor. */
  predicate Less(a: string, b: string) {
    |b| > 0 && (|a| == 0 || a[0] < b[0] || (a[0] == b[0] && Less(a[1..], b[1..])))
  }

  lemma {:induction false} LessIsTotal(a: string, b: string)
    ensures a == b || Less(a, b) || Less(b, a)
  {
    if |a| > 0 && |b| > 0 && a[0] == b[0] {
      LessIsTotal(a[1..], b[1..]);
      assert a == [a[0]] + a[1..] && b == [b[0]] + b[1..];
    }
  }

  lemma {:induction false} LessIsTransitive(a: string, b: string, c: string)
    requires Less(a, b) && Less(b, c)
    ensures Less(a, c)
  {
    if |a| > 0 && a[0] == b[0] && b[0] == c[0] { LessIsTransitive(a[1..], b[1..], c[1..]); }
  }

  /** A key comes before another exactly when it is a prefix of it or has the smaller character where they first
      differ. */
  lemma {:induction false} LessIff(a: string, b: string)
    ensures Less(a, b) <==> a < b || exists i | 0 <= i < |a| && i < |b| :: a[..i] == b[..i] && a[i] < b[i]
  {
    if |a| > 0 && |b| > 0 {
      LessIff(a[1..], b[1..]);
      if a[0] == b[0] {
        assert a == [a[0]] + a[1..] && b == [b[0]] + b[1..];
        if i :| 0 <= i < |a[1..]| && i < |b[1..]| && a[1..][..i] == b[1..][..i] && a[1..][i] < b[1..][i] {
          assert a[..i + 1] == [a[0]] + a[1..][..i] && b[..i + 1] == [b[0]] + b[1..][..i];
        }
        if i :| 0 <= i < |a| && i < |b| && a[..i] == b[..i] && a[i] < b[i] {
          assert a[1..][..i - 1] == a[..i][1..] && b[1..][..i - 1] == b[..i][1..];
        }
      } else {
        assert a[..0] == b[..0];
        forall i | 0 < i < |a| && i < |b| ensures a[..i] != b[..i] {
          assert a[..i][0] != b[..i][0];
        }
      }
    }
  }

  ghost predicate IsLeast(keys: set<string>, k: string) {
    k in keys && forall j | j in keys && j != k :: Less(k, j)
  }

  ghost predicate Ascending<T>(kvs: seq<KeyValue<T>>) {
    forall i, j | 0 <= i < j < |kvs| :: Less(kvs[i].key, kvs[j].key)
  }

  // ---------------------------------------------------------------- the bucket

  class Bucket<T> {
    var entries: map<string, T>

    constructor ()
      ensures entries == map[]
    {
      entries := map[];
    }

    // `readable` and `commits` say whether the transaction goes through

    method Put(key: string, value: T, commits: bool) returns (ok: bool)
      modifies this
      ensures ok == commits
      ensures entries == if ok then old(entries)[key := value] else old(entries)
    {
      if !commits { return false; }
      entries := entries[key := value];
      return true;
    }

    method Get(key: string, readable: bool) returns (r: GetResult<T>)
      ensures r == if !readable then GetError else if key in entries then Found(entries[key]) else NotFound
    {
      if !readable { return GetError; }
      if key !in entries { return NotFound; }
      return Found(entries[key]);
    }

    method Count(readable: bool) returns (ok: bool, size: nat)
      ensures ok == readable && (ok ==> size == |entries|)
    {
      return readable, if readable then |entries| else 0;
    }

    method Delete(key: string, commits: bool) returns (ok: bool)
      modifies this
      ensures ok == commits
      ensures entries == if ok then old(entries) - {key} else old(entries)
    {
      if !commits { return false; }
      entries := entries - {key};
      return true;
    }

    /** The read transaction of Pop. */
    method First() returns (kv: Option<KeyValue<T>>)
      ensures kv.None? <==> entries == map[]
      ensures kv.Some? ==> IsLeast(entries.Keys, kv.value.key) && entries[kv.value.key] == kv.value.value
    {
      kv := Seek(entries);
    }

    /** Pop takes the entry with the smallest key, in a read and a delete transaction. */
    method Pop(readable: bool, commits: bool) returns (r: PopResult<T>)
      modifies this
      ensures r.EOF? <==> readable && old(entries) == map[]
      ensures r.Popped? <==> readable && old(entries) != map[] && commits
      ensures !r.Popped? ==> entries == old(entries)
      ensures r.Popped? ==> IsLeast(old(entries).Keys, r.kv.key) && old(entries)[r.kv.key] == r.kv.value
      ensures r.Popped? ==> entries == old(entries) - {r.kv.key}
    {
      if !readable { return PopError; }
      var first := First();
      if first.None? { return EOF; }
      var deleted := Delete(first.value.key, commits);
      if !deleted { return PopError; }
      return Popped(first.value);
    }

    /** Every entry once, in the order of the keys. */
    method List(readable: bool) returns (ok: bool, kvs: seq<KeyValue<T>>)
      ensures ok == readable
      ensures ok ==> Ascending(kvs) && |kvs| == |entries| && Keys(kvs) == entries.Keys
      ensures ok ==> forall i | 0 <= i < |kvs| :: kvs[i].key in entries && kvs[i].value == entries[kvs[i].key]
    {
      kvs, ok := [], readable;
      if !readable { return; }
      hide Scanned, Less, IsLeast, Keys, Ascending;
      var rest := entries;
      ScanNone(entries);
      var cursor := Seek(rest);
      while cursor.Some?
        invariant cursor.None? <==> rest == map[]
        invariant cursor.Some? ==> IsLeast(rest.Keys, cursor.value.key)
        invariant cursor.Some? ==> cursor.value.key in rest && rest[cursor.value.key] == cursor.value.value
        invariant Scanned(entries, kvs, rest)
        decreases |rest|
      {
        ScanOne(entries, kvs, rest, cursor.value);
        kvs := kvs + [cursor.value];
        rest := rest - {cursor.value.key};
        cursor := Seek(rest);
      }
      ScanAll(entries, kvs);
    }
  }

  /** A cursor has passed `kvs` and has `rest` before it. */
  ghost predicate Scanned<T>(entries: map<string, T>, kvs: seq<KeyValue<T>>, rest: map<string, T>) {
    && rest.Keys <= entries.Keys && (forall k | k in rest :: rest[k] == entries[k])
    && Ascending(kvs) && |kvs| + |rest| == |entries| && Keys(kvs) + rest.Keys == entries.Keys
    && Listed(entries, kvs)
    && (forall i, k | 0 <= i < |kvs| && k in rest :: Less(kvs[i].key, k))
  }

  lemma ScanNone<T>(entries: map<string, T>)
    ensures Scanned(entries, [], entries)
  {
  }

  lemma ScanAll<T>(entries: map<string, T>, kvs: seq<KeyValue<T>>)
    requires Scanned(entries, kvs, map[])
    ensures Ascending(kvs) && |kvs| == |entries| && Keys(kvs) == entries.Keys
    ensures forall i | 0 <= i < |kvs| :: kvs[i].key in entries && kvs[i].value == entries[kvs[i].key]
  {
    hide Ascending, Less;
    var none: map<string, T> := map[];
    assert none.Keys == {};
  }

  lemma ScanOrder<T>(kvs: seq<KeyValue<T>>, rest: map<string, T>, kv: KeyValue<T>)
    requires Ascending(kvs) && IsLeast(rest.Keys, kv.key)
    requires forall i, k | 0 <= i < |kvs| && k in rest :: Less(kvs[i].key, k)
    ensures Ascending(kvs + [kv])
    ensures forall i, k | 0 <= i < |kvs + [kv]| && k in rest - {kv.key} :: Less((kvs + [kv])[i].key, k)
  {
    var rest', kvs' := rest - {kv.key}, kvs + [kv];
    hide Less;
    forall i, k | 0 <= i < |kvs'| && k in rest' ensures Less(kvs'[i].key, k) {
      if i < |kvs| { assert kvs'[i] == kvs[i]; }
    }
    forall i, j | 0 <= i < j < |kvs'| ensures Less(kvs'[i].key, kvs'[j].key) {
      if j == |kvs| { assert kvs'[i] == kvs[i]; }
    }
  }

  /** The entries listed are those of the bucket. */
  ghost predicate Listed<T>(entries: map<string, T>, kvs: seq<KeyValue<T>>) {
    forall i | 0 <= i < |kvs| :: kvs[i].key in entries && kvs[i].value == entries[kvs[i].key]
  }

  lemma ListOne<T>(entries: map<string, T>, kvs: seq<KeyValue<T>>, kv: KeyValue<T>)
    requires Listed(entries, kvs) && kv.key in entries && kv.value == entries[kv.key]
    ensures Listed(entries, kvs + [kv])
  {
  }

  lemma ScanOne<T>(entries: map<string, T>, kvs: seq<KeyValue<T>>, rest: map<string, T>, kv: KeyValue<T>)
    requires Scanned(entries, kvs, rest) && IsLeast(rest.Keys, kv.key) && rest[kv.key] == kv.value
    ensures Scanned(entries, kvs + [kv], rest - {kv.key}) && |rest - {kv.key}| < |rest|
  {
    hide Keys, Less, Ascending, Listed;
    KeysOfLonger(kvs, kv);
    ScanOrder(kvs, rest, kv);
    ListOne(entries, kvs, kv);
    OneFewer(rest, kv.key);
    hide IsLeast;
  }

  lemma OneFewer<T>(rest: map<string, T>, key: string)
    requires key in rest
    ensures (rest - {key}).Keys == rest.Keys - {key} && |rest - {key}| == |rest| - 1
  {
    var fewer := rest - {key};
    assert rest.Keys == fewer.Keys + {key};
    assert |rest.Keys| == |fewer.Keys| + 1;
  }

  ghost function Keys<T>(kvs: seq<KeyValue<T>>): set<string> {
    set i | 0 <= i < |kvs| :: kvs[i].key
  }

  lemma KeysOfLonger<T>(kvs: seq<KeyValue<T>>, kv: KeyValue<T>)
    ensures Keys(kvs + [kv]) == Keys(kvs) + {kv.key}
  {
    forall k | k in Keys(kvs) + {kv.key} ensures k in Keys(kvs + [kv]) {
      if k == kv.key { assert (kvs + [kv])[|kvs|].key == k; }
      else { var i :| 0 <= i < |kvs| && kvs[i].key == k; assert (kvs + [kv])[i].key == k; }
    }
  }

  /** The cursor's first entry. */
  method Seek<T>(entries: map<string, T>) returns (kv: Option<KeyValue<T>>)
    ensures kv.None? <==> entries == map[]
    ensures kv.Some? ==> IsLeast(entries.Keys, kv.value.key)
    ensures kv.Some? ==> kv.value.key in entries && entries[kv.value.key] == kv.value.value
  {
    if entries == map[] { return None; }
    var key :| key in entries;
    var rest := entries.Keys - {key};
    while rest != {}
      invariant rest <= entries.Keys && key in entries.Keys - rest
      invariant forall j | j in entries.Keys - rest && j != key :: Less(key, j)
      decreases rest
    {
      var j :| j in rest;
      LessIsTotal(key, j);
      if Less(j, key) {
        forall i | i in entries.Keys - rest && i != key ensures Less(j, i) { LessIsTransitive(j, key, i); }
        key := j;
      }
      rest := rest - {j};
    }
    return Some(KeyValue(key, entries[key]));
  }
}
