/** A command record: the `Dictionary<string, string>` the parsers build,
    modelled as an association list in enumeration order. Assigning a key
    that is present overwrites it where it stands; a new key goes last. */
module Records {
  import opened Wrappers

  type Record = seq<(string, string)>

  predicate DistinctKeys(r: Record) {
    forall i, j :: 0 <= i < j < |r| ==> r[i].0 != r[j].0
  }

  /** The value stored under `k`, or None when the key is absent. */
  function Get(r: Record, k: string): (v: Option<string>)
    ensures v.None? ==> forall i :: 0 <= i < |r| ==> r[i].0 != k
    ensures v.Some? ==> (k, v.value) in r
  {
    if r == [] then None
    else if r[0].0 == k then Some(r[0].1)
    else Get(r[1..], k)
  }

  /** `after` is `before` with `k` assigned `v`, looked up key by key:
      every other key keeps its value, or stays absent. */
  ghost predicate Assigns(before: Record, after: Record, k: string, v: string) {
    Get(after, k) == Some(v) && forall k' :: k' != k ==> Get(after, k') == Get(before, k')
  }

  /** With distinct keys, the value an entry carries is the one `Get`
      finds: a lookup and a search of the entries agree. */
  lemma GetOfEntry(r: Record, k: string, v: string)
    requires DistinctKeys(r)
    ensures Get(r, k) == Some(v) <==> (k, v) in r
  {
  }

  /** `cmd[k] = v`. */
  function Put(r: Record, k: string, v: string): (r': Record)
    ensures Get(r', k) == Some(v)
    ensures forall k' :: k' != k ==> Get(r', k') == Get(r, k')
    ensures Get(r, k).None? ==> r' == r + [(k, v)]
    ensures Get(r, k).Some? ==> |r'| == |r|
  {
    if r == [] then [(k, v)]
    else if r[0].0 == k then [(k, v)] + r[1..]
    else [r[0]] + Put(r[1..], k, v)
  }

  /** On a record with distinct keys, `Put` overwrites the entry of `k` in
      its position and keeps every other entry, so keys stay distinct. */
  lemma {:induction false} PutInPlace(r: Record, k: string, v: string)
    requires DistinctKeys(r)
    ensures |Put(r, k, v)| == |r| || Put(r, k, v) == r + [(k, v)]
    ensures forall i :: 0 <= i < |r| ==> Put(r, k, v)[i] == (if r[i].0 == k then (k, v) else r[i])
    ensures DistinctKeys(Put(r, k, v))
    decreases |r|
  {
    var p := Put(r, k, v);
    if r == [] {
    } else if r[0].0 == k {
      DistinctTail(r);
      assert p == [(k, v)] + r[1..];
      forall i | 1 <= i < |r| ensures p[i] == r[i] { }
    } else {
      var t := r[1..];
      DistinctTail(r);
      PutInPlace(t, k, v);
      var q := Put(t, k, v);
      assert p == [r[0]] + q;
      forall i | 1 <= i < |r| ensures p[i] == (if r[i].0 == k then (k, v) else r[i]) {
        assert p[i] == q[i - 1] && r[i] == t[i - 1];
      }
      forall j | 0 <= j < |q| ensures q[j].0 != r[0].0 {
        if j < |t| {
          assert t[j] == r[j + 1];
        } else {
          assert q[j] == (k, v);
        }
      }
      DistinctCons(r[0], q);
    }
  }

  lemma DistinctCons(e: (string, string), q: Record)
    requires DistinctKeys(q) && forall j :: 0 <= j < |q| ==> q[j].0 != e.0
    ensures DistinctKeys([e] + q)
  {
    var p := [e] + q;
    forall i, j | 0 <= i < j < |p| ensures p[i].0 != p[j].0 {
      assert p[j] == q[j - 1];
      if i > 0 {
        assert p[i] == q[i - 1];
      }
    }
  }

  lemma DistinctTail(r: Record)
    requires DistinctKeys(r) && r != []
    ensures DistinctKeys(r[1..])
    ensures forall i :: 1 <= i < |r| ==> r[i].0 != r[0].0
  {
    var t := r[1..];
    forall i, j | 0 <= i < j < |t| ensures t[i].0 != t[j].0 {
      assert t[i] == r[i + 1] && t[j] == r[j + 1];
    }
  }

  /** `Put` keeps the keys of a record distinct. */
  lemma PutKeepsDistinct(r: Record, k: string, v: string)
    ensures DistinctKeys(r) ==> DistinctKeys(Put(r, k, v))
  {
    if DistinctKeys(r) {
      PutInPlace(r, k, v);
    }
  }

  /** Every record the parser hands out names its kind under `tagname` and
      holds each key once. */
  predicate WellFormed(r: Record) {
    Get(r, "tagname").Some? && DistinctKeys(r)
  }
}
