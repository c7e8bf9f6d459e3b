/** The JSON-compatible value tree a schema renders to, and the few PHP array
    operations the renderers use.

    A PHP array with string keys is an ordered association list: `Fields`.
    Its keys are unique in PHP, and the order of insertion is the order
    `json_encode` writes them in, so key order is part of the model. A PHP list
    (`list<int>`, `list<string>`) becomes `JArray`. */
module Json {
  import opened Base

  datatype Json =
    | JNull
    | JBool(b: bool)
    | JInt(i: int)
    | JString(s: string)
    | JArray(items: seq<Json>)
    | JObject(fields: seq<(string, Json)>)

  /** A PHP `array<string, mixed>`, keys in insertion order. */
  type Fields = seq<(string, Json)>

  /** The keys of an association list, in order (PHP `array_keys`). */
  function Keys<V>(f: seq<(string, V)>): seq<string> {
    seq(|f|, i requires 0 <= i < |f| => f[i].0)
  }

  predicate DistinctKeys<V>(f: seq<(string, V)>) {
    Distinct(Keys(f))
  }

  /** PHP `$f[$k] ?? null`: the value stored under `k`, if any. */
  function Get<V>(f: seq<(string, V)>, k: string): Option<V> {
    if f == [] then None
    else if f[0].0 == k then Some(f[0].1)
    else Get(f[1..], k)
  }

  /** `array_intersect_key($a, $b) !== []`. */
  predicate SharesKey<V, W>(a: seq<(string, V)>, b: seq<(string, W)>) {
    exists k :: k in Keys(a) && k in Keys(b)
  }

  /** `Get` finds exactly the keys that occur. */
  lemma {:induction false} GetDefined<V>(f: seq<(string, V)>, k: string)
    ensures Get(f, k).Some? <==> k in Keys(f)
  {
    if f != [] {
      GetDefined(f[1..], k);
      assert Keys(f) == [f[0].0] + Keys(f[1..]);
    }
  }

  /** In an association list with unique keys, each entry is what `Get` finds for its key. */
  lemma {:induction false} GetAt<V>(f: seq<(string, V)>, i: int)
    requires DistinctKeys(f) && 0 <= i < |f|
    ensures Get(f, f[i].0) == Some(f[i].1)
  {
    if i > 0 {
      assert Keys(f)[0] == f[0].0 && Keys(f)[i] == f[i].0;
      assert Keys(f[1..]) == Keys(f)[1..];
      GetAt(f[1..], i - 1);
    }
  }

  /** Looking up in a concatenation looks in the first part first. */
  lemma {:induction false} GetAppend<V>(a: seq<(string, V)>, b: seq<(string, V)>, k: string)
    ensures Get(a + b, k) == if k in Keys(a) then Get(a, k) else Get(b, k)
  {
    if a == [] {
      assert a + b == b;
    } else {
      assert (a + b)[1..] == a[1..] + b;
      assert Keys(a) == [a[0].0] + Keys(a[1..]);
      GetAppend(a[1..], b, k);
      GetDefined(a, k);
    }
  }

  /** The keys of a concatenation are the concatenated keys. */
  lemma KeysAppend<V>(a: seq<(string, V)>, b: seq<(string, V)>)
    ensures Keys(a + b) == Keys(a) + Keys(b)
  {
  }

  /** `null` becomes no entry; any other value becomes one entry. */
  function Present(k: string, v: Option<Json>): Fields {
    match v
    case None => []
    case Some(j) => [(k, j)]
  }

  /** PHP `array_filter($entries, fn($value) => $value !== null)`: keeps every
      entry whose value is not `null`, in order, and nothing else. */
  function DropNulls(entries: seq<(string, Option<Json>)>): Fields {
    if entries == [] then []
    else Present(entries[0].0, entries[0].1) + DropNulls(entries[1..])
  }

  /** `array_filter` on a literal of four entries, entry by entry. */
  lemma DropNullsFour(a: (string, Option<Json>), b: (string, Option<Json>), c: (string, Option<Json>), d: (string, Option<Json>))
    ensures DropNulls([a, b, c, d]) == Present(a.0, a.1) + Present(b.0, b.1) + Present(c.0, c.1) + Present(d.0, d.1)
  {
    var pa, pb, pc, pd := Present(a.0, a.1), Present(b.0, b.1), Present(c.0, c.1), Present(d.0, d.1);
    assert [d][1..] == [];
    assert DropNulls([d]) == pd;
    assert [c, d][1..] == [d];
    assert DropNulls([c, d]) == pc + pd;
    assert [b, c, d][1..] == [c, d];
    assert DropNulls([b, c, d]) == pb + (pc + pd);
    assert [a, b, c, d][1..] == [b, c, d];
    assert DropNulls([a, b, c, d]) == pa + (pb + (pc + pd));
    assert pa + (pb + (pc + pd)) == pa + pb + pc + pd;
  }

  /** `array_filter` keeps the relative key order and adds no key. */
  lemma {:induction false} DropNullsOrder(entries: seq<(string, Option<Json>)>)
    ensures IsSubsequence(Keys(DropNulls(entries)), Keys(entries))
  {
    if entries != [] {
      var rest := DropNulls(entries[1..]);
      DropNullsOrder(entries[1..]);
      var k := entries[0].0;
      assert Keys(entries) == [k] + Keys(entries[1..]);
      KeysAppend(Present(k, entries[0].1), rest);
      if entries[0].1.Some? {
        assert Keys(DropNulls(entries)) == [k] + Keys(rest);
        SubsequenceCons(k, Keys(rest), Keys(entries[1..]));
      } else {
        assert Keys(DropNulls(entries)) == Keys(rest);
        SubsequenceSkip(k, Keys(rest), Keys(entries[1..]));
      }
    }
  }

  /** `array_filter` drops exactly the `null` entries and leaves every other value unchanged. */
  lemma {:induction false} DropNullsGet(entries: seq<(string, Option<Json>)>, k: string)
    requires DistinctKeys(entries)
    ensures Get(DropNulls(entries), k) == if Get(entries, k).Some? then Get(entries, k).value else None
  {
    if entries != [] {
      var k0 := entries[0].0;
      var rest := entries[1..];
      assert Keys(entries) == [k0] + Keys(rest);
      assert DistinctKeys(rest) by {
        assert Keys(rest) == Keys(entries)[1..];
      }
      DropNullsGet(rest, k);
      GetAppend(Present(k0, entries[0].1), DropNulls(rest), k);
      if k == k0 && entries[0].1.None? {
        // the key cannot come back later: it is not a key of the tail
        forall j | 0 <= j < |Keys(rest)| ensures Keys(rest)[j] != k0 {
          assert Keys(rest)[j] == Keys(entries)[j + 1];
          assert Keys(entries)[0] == k0;
          assert Distinct(Keys(entries));
        }
        DropNullsOrder(rest);
        SubsequenceMembers(Keys(DropNulls(rest)), Keys(rest));
        GetDefined(DropNulls(rest), k);
      }
    }
  }

  /** The result of `array_filter` on an array with unique keys has unique keys. */
  lemma DropNullsDistinct(entries: seq<(string, Option<Json>)>)
    requires DistinctKeys(entries)
    ensures DistinctKeys(DropNulls(entries))
  {
    DropNullsOrder(entries);
    SubsequenceDistinct(Keys(DropNulls(entries)), Keys(entries));
  }

  /** PHP `$f[$k] = $v` on a string key: overwrite in place if present, else append. */
  function SetKey<V>(f: seq<(string, V)>, k: string, v: V): seq<(string, V)> {
    if f == [] then [(k, v)]
    else if f[0].0 == k then [(k, v)] + f[1..]
    else [f[0]] + SetKey(f[1..], k, v)
  }

  /** Assigning a fresh key appends it. */
  lemma {:induction false} SetKeyFresh<V>(f: seq<(string, V)>, k: string, v: V)
    requires k !in Keys(f)
    ensures SetKey(f, k, v) == f + [(k, v)]
  {
    if f != [] {
      assert Keys(f) == [f[0].0] + Keys(f[1..]);
      SetKeyFresh(f[1..], k, v);
    }
  }

  /** After `$f[$k] = $v` the key holds `v` and every other key is untouched. */
  lemma {:induction false} SetKeyGet<V>(f: seq<(string, V)>, k: string, v: V, k': string)
    ensures Get(SetKey(f, k, v), k') == if k' == k then Some(v) else Get(f, k')
  {
    if f != [] && f[0].0 != k {
      SetKeyGet(f[1..], k, v, k');
    }
  }

  /** Assigning a key keeps the key order: the keys are the old keys, plus `k` at the end if it was new. */
  lemma {:induction false} SetKeyKeys<V>(f: seq<(string, V)>, k: string, v: V)
    ensures Keys(SetKey(f, k, v)) == if k in Keys(f) then Keys(f) else Keys(f) + [k]
  {
    if f != [] {
      assert Keys(f) == [f[0].0] + Keys(f[1..]);
      SetKeyKeys(f[1..], k, v);
      if f[0].0 != k {
        assert Keys(SetKey(f, k, v)) == [f[0].0] + Keys(SetKey(f[1..], k, v));
      } else {
        assert Keys(SetKey(f, k, v)) == [k] + Keys(f[1..]);
      }
    }
  }

  /** PHP `array_merge($a, $b)` and `[...$a, ...$b]` on string keys: each entry
      of `b` in turn is assigned into `a`, so a key already in `a` keeps its
      position and takes `b`'s value. */
  function Merge(a: Fields, b: Fields): Fields
    decreases |b|
  {
    if b == [] then a
    else Merge(SetKey(a, b[0].0, b[0].1), b[1..])
  }

  /** When no key of `b` is a key of `a`, merging overrides nothing: it is concatenation. */
  lemma {:induction false} MergeDisjoint(a: Fields, b: Fields)
    requires DistinctKeys(b)
    requires forall k :: k in Keys(b) ==> k !in Keys(a)
    ensures Merge(a, b) == a + b
    decreases |b|
  {
    if b != [] {
      var k := b[0].0;
      assert Keys(b) == [k] + Keys(b[1..]);
      assert k in Keys(b);
      SetKeyFresh(a, k, b[0].1);
      var a' := a + [b[0]];
      assert Keys(a') == Keys(a) + [k];
      assert DistinctKeys(b[1..]) by {
        assert Keys(b[1..]) == Keys(b)[1..];
      }
      forall k' | k' in Keys(b[1..]) ensures k' !in Keys(a') {
        assert k' in Keys(b);
        assert k' != k;
      }
      MergeDisjoint(a', b[1..]);
      assert b == [b[0]] + b[1..];
    }
  }

  /** Metadata-like fields followed by filtered structural entries whose keys are
      distinct and disjoint from the metadata names: the two arrays share no key,
      merging them is concatenation, the metadata keys come first and keep their
      values, and each structural key holds its entry's value unless that is null. */
  lemma {:induction false} MergeFiltered(meta: Fields, metaKeys: seq<string>, es: seq<(string, Option<Json>)>)
    requires IsSubsequence(Keys(meta), metaKeys)
    requires DistinctKeys(es)
    requires forall i :: 0 <= i < |es| ==> es[i].0 !in metaKeys
    ensures var r := meta + DropNulls(es);
      && !SharesKey(meta, DropNulls(es))
      && Merge(meta, DropNulls(es)) == r
      && IsSubsequence(Keys(r), metaKeys + Keys(es))
      && (forall k :: k in metaKeys ==> Get(r, k) == Get(meta, k))
      && (forall i :: 0 <= i < |es| ==> Get(r, es[i].0) == es[i].1)
  {
    var fields := DropNulls(es);
    DropNullsOrder(es);
    DropNullsDistinct(es);
    SubsequenceMembers(Keys(meta), metaKeys);
    SubsequenceMembers(Keys(fields), Keys(es));
    forall k | k in Keys(es) ensures k !in metaKeys {
      var i :| 0 <= i < |Keys(es)| && Keys(es)[i] == k;
    }
    MergeDisjoint(meta, fields);
    var r := meta + fields;
    KeysAppend(meta, fields);
    SubsequenceConcat(Keys(meta), metaKeys, Keys(fields), Keys(es));
    forall k | k in metaKeys ensures Get(r, k) == Get(meta, k) {
      GetAppend(meta, fields, k);
      if k !in Keys(meta) {
        GetDefined(fields, k);
        GetDefined(meta, k);
      }
    }
    forall i | 0 <= i < |es| ensures Get(r, es[i].0) == es[i].1 {
      var k := es[i].0;
      assert Keys(es)[i] == k;
      GetAppend(meta, fields, k);
      GetAt(es, i);
      DropNullsGet(es, k);
    }
  }

  /** A PHP `?int` as a JSON value (`null` stays `None`). */
  function IntValue(o: Option<int>): Option<Json> {
    match o
    case None => None
    case Some(n) => Some(JInt(n))
  }

  /** A PHP `?string` as a JSON value. */
  function StringValue(o: Option<string>): Option<Json> {
    match o
    case None => None
    case Some(s) => Some(JString(s))
  }

  /** A PHP `?bool` as a JSON value. */
  function BoolValue(o: Option<bool>): Option<Json> {
    match o
    case None => None
    case Some(b) => Some(JBool(b))
  }

  /** A PHP `list<int>` as a JSON array, element by element. */
  function IntList(xs: seq<int>): Json {
    JArray(seq(|xs|, i requires 0 <= i < |xs| => JInt(xs[i])))
  }

  /** A PHP `list<string>` as a JSON array, element by element. */
  function StringList(xs: seq<string>): Json {
    JArray(seq(|xs|, i requires 0 <= i < |xs| => JString(xs[i])))
  }

  /** A PHP `?list<int>` as a JSON value. */
  function IntListValue(o: Option<seq<int>>): Option<Json> {
    match o
    case None => None
    case Some(xs) => Some(IntList(xs))
  }

  /** A PHP `?list<string>` as a JSON value. */
  function StringListValue(o: Option<seq<string>>): Option<Json> {
    match o
    case None => None
    case Some(xs) => Some(StringList(xs))
  }
}
