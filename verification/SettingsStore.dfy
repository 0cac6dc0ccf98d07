/**
 The settings store: a table written in one transaction, and the cache every
 read is answered from.
 */
module SettingsStore {

  /** One entry of a batch. A secret is encrypted at rest. */
  datatype Change<K, V> = Put(key: K, value: V, secret: bool) | Delete(key: K)

  /** The table after a batch: the changes, in order. */
  function Applied<K, V>(table: map<K, V>, batch: seq<Change<K, V>>): map<K, V> {
    if batch == [] then table else
      var before := Applied(table, batch[..|batch| - 1]);
      match batch[|batch| - 1]
      case Put(k, v, _) => before[k := v]
      case Delete(k) => before - {k}
  }

  /** The values a batch puts, the last one for each key. */
  function Puts<K, V>(batch: seq<Change<K, V>>): map<K, V> {
    if batch == [] then map[] else
      var before := Puts(batch[..|batch| - 1]);
      match batch[|batch| - 1]
      case Put(k, v, _) => before[k := v]
      case Delete(_) => before
  }

  /** The keys a batch deletes anywhere. */
  ghost function Deletes<K, V>(batch: seq<Change<K, V>>): set<K> {
    set c | c in batch && c.Delete? :: c.key
  }

  /** The cache after a batch: all the puts, then all the deletes. */
  ghost function Cached<K, V>(cache: map<K, V>, batch: seq<Change<K, V>>): map<K, V> {
    (cache + Puts(batch)) - Deletes(batch)
  }

  /** The last thing a batch says about a key is to put it. */
  ghost predicate EndsPut<K, V>(batch: seq<Change<K, V>>, k: K) {
    batch != [] &&
    var c := batch[|batch| - 1];
    if c.key == k then c.Put? else EndsPut(batch[..|batch| - 1], k)
  }

  lemma AppliedNext<K, V>(table: map<K, V>, batch: seq<Change<K, V>>, c: Change<K, V>)
    ensures Applied(table, batch + [c])
            == if c.Put? then Applied(table, batch)[c.key := c.value] else Applied(table, batch) - {c.key}
    ensures Deletes(batch + [c]) == Deletes(batch) + (if c.Delete? then {c.key} else {})
    ensures Puts(batch + [c]) == if c.Put? then Puts(batch)[c.key := c.value] else Puts(batch)
  {
    assert (batch + [c])[..|batch|] == batch;
    assert forall d :: d in batch + [c] <==> d in batch || d == c;
  }

  lemma {:induction false} AppliedAt<K(!new), V(!new)>(table: map<K, V>, batch: seq<Change<K, V>>, k: K)
    ensures k in Applied(table, batch)
            <==> EndsPut(batch, k) || (k in table && forall c | c in batch :: c.key != k)
    ensures EndsPut(batch, k) ==> k in Puts(batch) && Applied(table, batch)[k] == Puts(batch)[k]
    ensures (forall c | c in batch :: c.key != k) && k in table ==> Applied(table, batch)[k] == table[k]
  {
    if batch == [] {
    } else {
      var n := |batch| - 1;
      AppliedAt(table, batch[..n], k);
      assert forall c :: c in batch <==> c in batch[..n] || c == batch[n];
    }
  }

  lemma {:induction false} PutsAt<K(!new), V(!new)>(batch: seq<Change<K, V>>, k: K)
    ensures k in Puts(batch) <==> exists c | c in batch :: c.Put? && c.key == k
    ensures k in Puts(batch) && k !in Deletes(batch) ==> EndsPut(batch, k)
  {
    if batch == [] {
    } else {
      var n := |batch| - 1;
      PutsAt(batch[..n], k);
      assert forall c :: c in batch <==> c in batch[..n] || c == batch[n];
    }
  }

  /** No key is deleted by the batch and then put back by it. */
  ghost predicate NoPutAfterDelete<K, V>(batch: seq<Change<K, V>>) {
    forall k | k in Deletes(batch) :: !EndsPut(batch, k)
  }

  /**
   The table takes the changes in order, the cache takes every put before any
   delete. They end up equal exactly when no key is deleted and then put back in
   the same batch.
   */
  lemma CacheAgreesExactly<K(!new), V(!new)>(table: map<K, V>, batch: seq<Change<K, V>>)
    ensures Cached(table, batch) == Applied(table, batch) <==> NoPutAfterDelete(batch)
  {
    forall k
      ensures k in Deletes(batch) && EndsPut(batch, k) ==> k in Applied(table, batch) && k !in Cached(table, batch)
      ensures !(k in Deletes(batch) && EndsPut(batch, k)) ==>
                && (k in Applied(table, batch) <==> k in Cached(table, batch))
                && (k in Applied(table, batch) ==> Applied(table, batch)[k] == Cached(table, batch)[k])
    {
      AppliedAt(table, batch, k);
      PutsAt(batch, k);
      if k in Deletes(batch) {
        var c :| c in batch && c.Delete? && c.key == k;
      }
    }
  }

  /** The failing input: a key deleted and put back is stored, and the cache does not have it. */
  lemma PutBackIsLost<K(!new), V(!new)>(table: map<K, V>, k: K, v: V)
    ensures var batch := [Delete(k), Put(k, v, false)];
            k in Applied(table, batch) && Applied(table, batch)[k] == v && k !in Cached(table, batch)
  {
    var del, put: Change<K, V> := Delete(k), Put(k, v, false);
    assert [del, put] == [del] + [put] && [del] == [] + [del];
    AppliedNext(table, [del], put);
    AppliedNext(table, [], del);
  }

  class Store<K(==, !new), V(!new)> {
    var table: map<K, V>
    var cache: map<K, V>
    const hasCipher: bool

    constructor (table: map<K, V>, hasCipher: bool)
      ensures this.table == table && cache == table && this.hasCipher == hasCipher
    {
      this.table, cache, this.hasCipher := table, table, hasCipher;
    }

    /**
     Writes a batch, all or nothing. `fails` is the transaction failing; a secret
     without an encryption key is refused before it starts.
     */
    method Apply(batch: seq<Change<K, V>>, fails: bool) returns (ok: bool)
      modifies this
      ensures ok <==> batch == [] || (!fails && (hasCipher || forall c | c in batch :: c.Put? ==> !c.secret))
      ensures table == if ok then Applied(old(table), batch) else old(table)
      ensures cache == if ok then Cached(old(cache), batch) else old(cache)
    {
      if batch == [] {
        return true;
      }
      for i := 0 to |batch|
        invariant hasCipher || forall c | c in batch[..i] :: c.Put? ==> !c.secret
      {
        if batch[i].Put? && batch[i].secret && !hasCipher { return false; }
      }
      assert batch[..|batch|] == batch;
      if fails { return false; }
      var next, puts := table, map[];
      var deletes: set<K> := {};
      for i := 0 to |batch|
        invariant next == Applied(table, batch[..i]) && puts == Puts(batch[..i]) && deletes == Deletes(batch[..i])
      {
        assert batch[..i + 1][..i] == batch[..i];
        assert forall c :: c in batch[..i + 1] <==> c in batch[..i] || c == batch[i];
        match batch[i]
        case Put(k, v, _) => next, puts := next[k := v], puts[k := v];
        case Delete(k) => next, deletes := next - {k}, deletes + {k};
      }
      assert batch[..|batch|] == batch;
      table := next;
      cache := (cache + puts) - deletes;
      return true;
    }
  }
}
