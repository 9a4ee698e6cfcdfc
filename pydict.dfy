/** A Python `dict` from str to str, as the parser fills it: an association
    list in insertion order, where assigning to a key already present keeps
    that key's position and replaces its value. */
module PyDict {
  import opened Wrappers

  type Dict = seq<(string, string)>

  /** The keys in insertion order (what `list(d)` yields). */
  function Keys(d: Dict): (ks: seq<string>)
    ensures |ks| == |d| && forall i :: 0 <= i < |d| ==> ks[i] == d[i].0
  {
    if d == [] then [] else [d[0].0] + Keys(d[1..])
  }

  /** `d.get(k)`: the value stored under `k`, if any (`GetFinds` says what
      it finds). */
  function Get(d: Dict, k: string): Option<string>
  {
    if d == [] then None
    else if d[0].0 == k then Some(d[0].1)
    else Get(d[1..], k)
  }

  /** `Get` finds a value exactly when the key is present, and the value it
      finds is stored under that key. */
  lemma {:induction false} GetFinds(d: Dict, k: string)
    ensures Get(d, k).None? <==> k !in Keys(d)
    ensures Get(d, k).Some? ==> (k, Get(d, k).value) in d
  {
    if d != [] && d[0].0 != k {
      GetFinds(d[1..], k);
      assert Keys(d) == [d[0].0] + Keys(d[1..]);
      assert Get(d, k) == Get(d[1..], k);
      if Get(d, k).Some? {
        var idx :| 0 <= idx < |d[1..]| && d[1..][idx] == (k, Get(d, k).value);
        assert d[idx + 1] == (k, Get(d, k).value);
      }
    }
  }

  /** `d[k] = v` (`PutGet`, `PutKeys` and `PutKeepsOthers` say what it does
      to the dict). */
  function Put(d: Dict, k: string, v: string): Dict
  {
    if d == [] then [(k, v)]
    else if d[0].0 == k then [(k, v)] + d[1..]
    else [d[0]] + Put(d[1..], k, v)
  }

  /** After `d[k] = v` the key maps to `v`. */
  lemma {:induction false} PutGet(d: Dict, k: string, v: string)
    ensures Get(Put(d, k, v), k) == Some(v)
  {
    if d != [] && d[0].0 != k {
      PutGet(d[1..], k, v);
      assert Put(d, k, v)[1..] == Put(d[1..], k, v);
    }
  }

  /** Assigning to a new key appends the pair at the end. */
  lemma {:induction false} PutNew(d: Dict, k: string, v: string)
    requires k !in Keys(d)
    ensures Put(d, k, v) == d + [(k, v)]
  {
    if d != [] {
      assert Keys(d) == [d[0].0] + Keys(d[1..]);
      PutNew(d[1..], k, v);
      assert d == [d[0]] + d[1..];
    }
  }

  /** `d[k] = v` keeps the insertion order; a new key goes to the end. */
  lemma {:induction false} PutKeys(d: Dict, k: string, v: string)
    ensures Keys(Put(d, k, v)) == if k in Keys(d) then Keys(d) else Keys(d) + [k]
  {
    if d != [] && d[0].0 != k {
      PutKeys(d[1..], k, v);
      assert Keys(d) == [d[0].0] + Keys(d[1..]);
      assert Keys(Put(d, k, v)) == [d[0].0] + Keys(Put(d[1..], k, v));
    }
  }

  /** `d[k] = v` leaves the value of every other key as it was. */
  lemma {:induction false} PutKeepsOthers(d: Dict, k: string, v: string, other: string)
    requires other != k
    ensures Get(Put(d, k, v), other) == Get(d, other)
  {
    if d != [] && d[0].0 != k {
      PutKeepsOthers(d[1..], k, v, other);
      assert Put(d, k, v)[1..] == Put(d[1..], k, v);
    }
  }
}
