/**
 * Python dictionaries with string keys, as the command table uses them: entries keep
 * insertion order, assigning an existing key replaces its value in place, and
 * `{**a, **b}`, `a |= b` and a comprehension over several dictionaries assign the
 * entries of the later ones in order.
 */
module Dict {
  import opened Wrappers

  type Dict<V> = seq<(string, V)>

  /** `list(d.keys())`. */
  function Keys<V>(d: Dict<V>): seq<string> {
    seq(|d|, i requires 0 <= i < |d| => d[i].0)
  }

  /** What every Python dictionary satisfies: no key occurs twice. */
  predicate DistinctKeys<V>(d: Dict<V>) {
    forall i, j :: 0 <= i < j < |d| ==> d[i].0 != d[j].0
  }

  /** The position of `k` among the keys, if it is one: `k in d`. */
  function Find<V>(d: Dict<V>, k: string): (r: Option<nat>)
    ensures r.Some? ==> r.value < |d| && d[r.value].0 == k
    ensures r.Some? ==> forall j :: 0 <= j < r.value ==> d[j].0 != k
    ensures r.None? <==> k !in Keys(d)
  {
    assert d != [] ==> Keys(d) == [d[0].0] + Keys(d[1..]);
    if d == [] then None
    else if d[0].0 == k then Some(0)
    else
      match Find(d[1..], k)
      case None => None
      case Some(i) => Some(i + 1)
  }

  /** `d[k] if k in d else None`. */
  function Get<V>(d: Dict<V>, k: string): (r: Option<V>)
    ensures r.Some? <==> k in Keys(d)
    ensures forall i :: 0 <= i < |d| && d[i].0 == k && k !in Keys(d[..i]) ==> r == Some(d[i].1)
  {
    match Find(d, k)
    case None =>
      assert forall i :: 0 <= i < |d| ==> Keys(d)[i] == d[i].0;
      None
    case Some(j) =>
      assert forall i :: j < i <= |d| ==> |Keys(d[..i])| == i && Keys(d[..i])[j] == k;
      Some(d[j].1)
  }

  /** `d[k] = v`: replaces the value of an existing key in place, appends a new key. */
  function Put<V>(d: Dict<V>, k: string, v: V): (r: Dict<V>)
    ensures Keys(r) == if k in Keys(d) then Keys(d) else Keys(d) + [k]
    ensures Get(r, k) == Some(v)
    ensures forall k' :: k' != k ==> Get(r, k') == Get(d, k')
    ensures DistinctKeys(d) ==> DistinctKeys(r)
  {
    match Find(d, k)
    case None =>
      var r := d + [(k, v)];
      assert Keys(r) == Keys(d) + [k];
      assert forall i :: 0 <= i < |d| ==> Keys(d)[i] == d[i].0;
      FindFirst(r, k, |d|);
      forall k' | k' != k ensures Find(r, k') == Find(d, k') {
        if k' in Keys(d) {
          FindExtended(d, [(k, v)], k');
        } else {
          assert forall i :: 0 <= i < |r| ==> Keys(r)[i] == r[i].0;
        }
      }
      r
    case Some(i) =>
      var r := d[i := (k, v)];
      assert Keys(r) == Keys(d);
      FindFirst(r, k, i);
      forall k' | k' != k ensures Find(r, k') == Find(d, k') {
        FindAfterReplace(d, i, (k, v), k');
      }
      r
  }

  /** `{**d, **e}`, or `d |= e`: the entries of `e` assigned into `d` in order. */
  function Merge<V>(d: Dict<V>, e: Dict<V>): (r: Dict<V>)
    ensures |d| <= |r| <= |d| + |e|
    ensures forall k :: k in Keys(r) <==> k in Keys(d) || k in Keys(e)
    decreases |e|
  {
    if e == [] then d
    else
      var p := Put(d, e[0].0, e[0].1);
      var r := Merge(p, e[1..]);
      MergeStep(d, e, p, r);
      r
  }

  /** One step of a merge keeps the keys already there and adds those of `e`. */
  lemma MergeStep<V>(d: Dict<V>, e: Dict<V>, p: Dict<V>, r: Dict<V>)
    requires e != [] && p == Put(d, e[0].0, e[0].1)
    requires |p| <= |r| <= |p| + |e| - 1
    requires forall k :: k in Keys(r) <==> k in Keys(p) || k in Keys(e[1..])
    ensures |d| <= |r| <= |d| + |e|
    ensures forall k :: k in Keys(r) <==> k in Keys(d) || k in Keys(e)
  {
    forall k ensures k in Keys(p) <==> k in Keys(d) || k == e[0].0 {
    }
    assert Keys(e) == [e[0].0] + Keys(e[1..]);
  }

  /** Merging dictionaries without common keys just appends. */
  lemma {:induction false} MergeDisjoint<V>(d: Dict<V>, e: Dict<V>)
    requires DistinctKeys(d + e)
    ensures Merge(d, e) == d + e
    decreases |e|
  {
    if e != [] {
      var k := e[0].0;
      forall i | 0 <= i < |d| ensures Keys(d)[i] != k {
        assert (d + e)[i] == d[i] && (d + e)[|d|] == e[0];
      }
      assert Put(d, k, e[0].1) == d + [e[0]];
      assert (d + [e[0]]) + e[1..] == d + e;
      MergeDisjoint(d + [e[0]], e[1..]);
    }
  }

  /** A dictionary display or comprehension without repeated keys keeps every entry, in order. */
  lemma MergeIntoEmpty<V>(e: Dict<V>)
    requires DistinctKeys(e)
    ensures Merge([], e) == e
  {
    assert [] + e == e;
    MergeDisjoint([], e);
  }

  /** `{**d, **e}` for dictionaries without common keys: the entries of `d`, then those of `e`. */
  lemma UnpackDisjoint<V>(d: Dict<V>, e: Dict<V>)
    requires DistinctKeys(d + e)
    ensures Merge(Merge([], d), e) == d + e
  {
    assert DistinctKeys(d) by {
      assert forall i :: 0 <= i < |d| ==> d[i] == (d + e)[i];
    }
    MergeIntoEmpty(d);
    MergeDisjoint(d, e);
  }

  /** `{**a, **b, **c}` for dictionaries without common keys: their entries one after another. */
  lemma UnpackThreeDisjoint<V>(a: Dict<V>, b: Dict<V>, c: Dict<V>)
    requires DistinctKeys(a + b + c)
    ensures Merge(Merge(Merge([], a), b), c) == a + b + c
  {
    assert DistinctKeys(a + b) by {
      assert forall i :: 0 <= i < |a + b| ==> (a + b)[i] == (a + b + c)[i];
    }
    UnpackDisjoint(a, b);
    MergeDisjoint(a + b, c);
  }

  /** The keys of appended dictionaries are the keys of each, in order. */
  lemma KeysAppend<V>(d: Dict<V>, e: Dict<V>)
    ensures Keys(d + e) == Keys(d) + Keys(e)
  {
  }

  /** Distinct keys can be read off the key list. */
  lemma DistinctFromKeys<V>(d: Dict<V>, keys: seq<string>)
    requires Keys(d) == keys
    requires forall i, j :: 0 <= i < j < |keys| ==> keys[i] != keys[j]
    ensures DistinctKeys(d)
  {
    assert forall i :: 0 <= i < |d| ==> keys[i] == d[i].0;
  }

  /** After a merge, a key has the value `e` gives it, and otherwise the one `d` gives it. */
  lemma {:induction false} GetMerge<V>(d: Dict<V>, e: Dict<V>, k: string)
    requires DistinctKeys(e)
    ensures Get(Merge(d, e), k) == if k in Keys(e) then Get(e, k) else Get(d, k)
    decreases |e|
  {
    if e != [] {
      var rest := e[1..];
      assert DistinctKeys(rest);
      assert Keys(e) == [e[0].0] + Keys(rest);
      GetMerge(Put(d, e[0].0, e[0].1), rest, k);
      GetFirst(e, k);
      if k == e[0].0 {
        assert k !in Keys(rest) by {
          forall j | 0 <= j < |rest| ensures Keys(rest)[j] != k {
            assert rest[j] == e[j + 1];
          }
        }
      }
    }
  }

  /** A lookup checks the first entry, then the rest. */
  lemma GetFirst<V>(e: Dict<V>, k: string)
    requires e != []
    ensures Get(e, k) == if e[0].0 == k then Some(e[0].1) else Get(e[1..], k)
  {
  }

  /** `Find` returns the first position holding the key. */
  lemma {:induction false} FindFirst<V>(d: Dict<V>, k: string, i: nat)
    requires i < |d| && d[i].0 == k
    requires forall j :: 0 <= j < i ==> d[j].0 != k
    ensures Find(d, k) == Some(i)
  {
    if i > 0 {
      FindFirst(d[1..], k, i - 1);
    }
  }

  lemma FindExtended<V>(d: Dict<V>, e: Dict<V>, k: string)
    requires k in Keys(d)
    ensures Find(d + e, k) == Find(d, k)
  {
    FindFirst(d + e, k, Find(d, k).value);
  }

  lemma FindAfterReplace<V>(d: Dict<V>, i: nat, entry: (string, V), k: string)
    requires i < |d| && d[i].0 == entry.0 && k != entry.0
    ensures Find(d[i := entry], k) == Find(d, k)
  {
    var r := d[i := entry];
    match Find(d, k)
    case Some(a) =>
      FindFirst(r, k, a);
    case None =>
      assert forall j :: 0 <= j < |d| ==> Keys(d)[j] == d[j].0;
      assert forall j :: 0 <= j < |r| ==> Keys(r)[j] == r[j].0;
  }
}
