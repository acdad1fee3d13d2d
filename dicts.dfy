/** Python dictionaries built by a loop of assignments `d[k] = v`.

    `LastWriteWins` states what such a loop leaves behind as a plain map:
    the keys written, each bound to the value of its last write. `Dict`
    additionally keeps the insertion order of the keys, which Python's dict
    iteration follows and which decides the winner when a later loop
    inverts the dictionary. */
module Dicts {

  /** The keys written. */
  ghost function WrittenKeySet<K(!new), V>(writes: seq<(K, V)>): set<K> {
    set i | 0 <= i < |writes| :: writes[i].0
  }

  lemma WrittenKeySetAppend<K(!new), V>(writes: seq<(K, V)>, w: (K, V))
    ensures WrittenKeySet(writes + [w]) == WrittenKeySet(writes) + {w.0}
  {
    var ws := writes + [w];
    forall key | key in WrittenKeySet(ws) ensures key in WrittenKeySet(writes) + {w.0} {
      var i :| 0 <= i < |ws| && ws[i].0 == key;
      if i < |writes| {
        assert writes[i].0 == key;
      }
    }
    forall key | key in WrittenKeySet(writes) + {w.0} ensures key in WrittenKeySet(ws) {
      if key == w.0 {
        assert ws[|writes|].0 == key;
      } else {
        var i :| 0 <= i < |writes| && writes[i].0 == key;
        assert ws[i].0 == key;
      }
    }
  }

  /** Position `i` holds the last write to its key. */
  ghost predicate IsLastWrite<K(!new), V>(writes: seq<(K, V)>, i: int)
    requires 0 <= i < |writes|
  {
    forall j :: i < j < |writes| ==> writes[j].0 != writes[i].0
  }

  /** `m` is what the assignments `m[k] = v`, for `(k, v)` in `writes` in
      order, leave in an empty dictionary. */
  ghost predicate LastWriteWins<K(!new), V>(writes: seq<(K, V)>, m: map<K, V>) {
    && m.Keys == WrittenKeySet(writes)
    && (forall i {:trigger IsLastWrite(writes, i)} :: 0 <= i < |writes| && IsLastWrite(writes, i) ==> writes[i].0 in m && m[writes[i].0] == writes[i].1)
  }

  /** One more assignment keeps the characterisation. */
  lemma LastWriteWinsAppend<K(!new), V>(writes: seq<(K, V)>, m: map<K, V>, k: K, v: V)
    requires LastWriteWins(writes, m)
    ensures LastWriteWins(writes + [(k, v)], m[k := v])
  {
    var ws := writes + [(k, v)];
    forall i | 0 <= i < |ws| && IsLastWrite(ws, i)
      ensures ws[i].0 in m[k := v] && m[k := v][ws[i].0] == ws[i].1
    {
      if i < |writes| {
        assert ws[|writes|].0 == k;
        assert ws[i].0 != k;
        forall j | i < j < |writes| ensures writes[j].0 != writes[i].0 {
          assert ws[j] == writes[j];
        }
        assert IsLastWrite(writes, i);
      }
    }
    WrittenKeySetAppend(writes, (k, v));
  }

  /** The map a sequence of writes leaves is unique. */
  lemma LastWriteWinsUnique<K(!new), V>(writes: seq<(K, V)>, m1: map<K, V>, m2: map<K, V>)
    requires LastWriteWins(writes, m1) && LastWriteWins(writes, m2)
    ensures m1 == m2
  {
    forall k | k in m1
      ensures k in m2 && m1[k] == m2[k]
    {
      var i := LastIndexOfKey(writes, k);
    }
  }

  /** The position of the last write to a written key. */
  ghost function LastIndexOfKey<K(!new), V>(writes: seq<(K, V)>, k: K): (i: int)
    requires k in WrittenKeySet(writes)
    ensures 0 <= i < |writes| && writes[i].0 == k && IsLastWrite(writes, i)
    decreases |writes|
  {
    var n := |writes| - 1;
    if writes[n].0 == k then n
    else
      assert k in WrittenKeySet(writes[..n]) by {
        var i :| 0 <= i < |writes| && writes[i].0 == k;
        assert i < n && writes[..n][i] == writes[i];
      }
      LastIndexOfKey(writes[..n], k)
  }

  /** When no key is written twice, every write survives. */
  lemma LastWriteWinsDistinct<K(!new), V>(writes: seq<(K, V)>, m: map<K, V>, i: int)
    requires LastWriteWins(writes, m)
    requires forall a, b :: 0 <= a < b < |writes| ==> writes[a].0 != writes[b].0
    requires 0 <= i < |writes|
    ensures writes[i].0 in m && m[writes[i].0] == writes[i].1
  {
    assert IsLastWrite(writes, i);
  }

  /** The position of the first occurrence of `x` in `s`. */
  function FirstIndex<K(==)>(s: seq<K>, x: K): (i: nat)
    requires x in s
    ensures i < |s| && s[i] == x
    ensures forall j :: 0 <= j < i ==> s[j] != x
  {
    if s[0] == x then 0 else 1 + FirstIndex(s[1..], x)
  }

  /** A first occurrence in a prefix is the first occurrence in the whole;
      an element new at the end first occurs there. */
  lemma FirstIndexOfPrefix<K>(ks: seq<K>)
    requires ks != []
    ensures forall x :: x in ks[..|ks| - 1] ==> FirstIndex(ks, x) == FirstIndex(ks[..|ks| - 1], x)
    ensures ks[|ks| - 1] !in ks[..|ks| - 1] ==> FirstIndex(ks, ks[|ks| - 1]) == |ks| - 1
  {
    var front := ks[..|ks| - 1];
    assert forall k :: 0 <= k < |front| ==> front[k] == ks[k];
  }

  /** The keys of `ks`, each once, in order of first occurrence. */
  function Dedup<K(==,!new)>(ks: seq<K>): (r: seq<K>)
    ensures forall k :: k in r <==> k in ks
    ensures forall a, b :: 0 <= a < b < |r| ==> r[a] != r[b]
    ensures forall a, b :: 0 <= a < b < |r| ==> FirstIndex(ks, r[a]) < FirstIndex(ks, r[b])
    decreases |ks|
  {
    if ks == [] then []
    else
      var front := Dedup(ks[..|ks| - 1]);
      assert forall k :: k in ks <==> k in ks[..|ks| - 1] || k == ks[|ks| - 1];
      FirstIndexOfPrefix(ks);
      if ks[|ks| - 1] in front then front else front + [ks[|ks| - 1]]
  }

  /** A key seen before leaves the first-occurrence order unchanged; a new
      key goes to its end. */
  lemma DedupAppend<K(!new)>(ks: seq<K>, k: K)
    ensures Dedup(ks + [k]) == if k in ks then Dedup(ks) else Dedup(ks) + [k]
  {
    assert (ks + [k])[..|ks|] == ks;
  }

  /** A Python dict: its entries and the insertion order of its keys. */
  datatype Dict<K(==,!new), V> = Dict(keys: seq<K>, entries: map<K, V>) {
    ghost predicate Valid() {
      && (forall a, b :: 0 <= a < b < |keys| ==> keys[a] != keys[b])
      && (forall k :: k in entries <==> k in keys)
    }

    /** `len(d)` */
    function Len(): nat {
      |keys|
    }

    /** `d[k] = v`: a new key goes to the end of the order; an existing key
        keeps its place and takes the new value. */
    function Put(k: K, v: V): (d: Dict<K, V>)
      requires Valid()
      ensures d.Valid()
      ensures d.entries == entries[k := v]
      ensures d.keys == if k in entries then keys else keys + [k]
    {
      if k in entries then Dict(keys, entries[k := v]) else Dict(keys + [k], entries[k := v])
    }
  }

  function EmptyDict<K(==,!new), V>(): (d: Dict<K, V>)
    ensures d.Valid() && d.keys == [] && d.entries == map[]
  {
    Dict([], map[])
  }

  /** The keys of a sequence of writes. */
  function WrittenKeys<K(!new), V>(writes: seq<(K, V)>): (ks: seq<K>)
    ensures |ks| == |writes| && forall i :: 0 <= i < |writes| ==> ks[i] == writes[i].0
  {
    seq(|writes|, i requires 0 <= i < |writes| => writes[i].0)
  }

  lemma WrittenKeysAppend<K(!new), V>(writes: seq<(K, V)>, w: (K, V))
    ensures WrittenKeys(writes + [w]) == WrittenKeys(writes) + [w.0]
  {
  }

  /** A prefix one longer is the prefix and the next element. */
  lemma TakeOneMore<T>(s: seq<T>, i: int)
    requires 0 <= i < |s|
    ensures s[..i + 1] == s[..i] + [s[i]]
  {
  }

  /** One more write: the insertion order of the keys written grows as
      `Put` grows it. */
  lemma WrittenOrderAppend<K(!new), V>(writes: seq<(K, V)>, w: (K, V), d: Dict<K, V>)
    requires d.Valid() && d.keys == Dedup(WrittenKeys(writes))
    ensures Dedup(WrittenKeys(writes + [w])) == if w.0 in d.entries then d.keys else d.keys + [w.0]
  {
    WrittenKeysAppend(writes, w);
    DedupAppend(WrittenKeys(writes), w.0);
  }
}
