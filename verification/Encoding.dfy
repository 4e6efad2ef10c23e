/** A map whose keys are kept encoded: what happens to the encoded map when it
    is written in batches is what happens to the map it stands for. */
module Encoding {
  import opened Results

  ghost predicate Codec<K(!new), B(!new)>(enc: K -> B, dec: B -> Option<K>) {
    && (forall k :: dec(enc(k)) == Some(k))
    && (forall b :: dec(b).Some? ==> enc(dec(b).value) == b)
  }

  /** `tree` is `table` with every key encoded. */
  ghost predicate Encoded<K(!new), B(!new), V>(enc: K -> B, dec: B -> Option<K>, tree: map<B, V>, table: map<K, V>) {
    && (forall k {:trigger enc(k)} :: k in table ==> enc(k) in tree && tree[enc(k)] == table[k])
    && (forall b {:trigger dec(b)} :: b in tree ==> dec(b).Some? && dec(b).value in table)
  }

  /** The writes of a batch by key; `None` removes. */
  type Batch<!K, V> = map<K, Option<V>>

  function Apply<K, V>(m: map<K, V>, batch: Batch<K, V>): map<K, V> {
    map k | k in m.Keys + batch.Keys && (k in batch ==> batch[k].Some?)
      :: if k in batch then batch[k].value else m[k]
  }

  lemma ApplyEncoded<K(!new), B(!new), V>(enc: K -> B, dec: B -> Option<K>,
      tree: map<B, V>, table: map<K, V>, batch: Batch<B, V>, tableBatch: Batch<K, V>)
    requires Codec(enc, dec)
    requires Encoded(enc, dec, tree, table) && Encoded(enc, dec, batch, tableBatch)
    ensures Encoded(enc, dec, Apply(tree, batch), Apply(table, tableBatch))
  {
    var tree', table' := Apply(tree, batch), Apply(table, tableBatch);
    forall k | k in table' ensures enc(k) in tree' && tree'[enc(k)] == table'[k] {
      assert dec(enc(k)) == Some(k);
    }
    forall b | b in tree' ensures dec(b).Some? && dec(b).value in table' {
      assert enc(dec(b).value) == b;
    }
  }

  lemma PutEncoded<K(!new), B(!new), V>(enc: K -> B, dec: B -> Option<K>, tree: map<B, V>, table: map<K, V>, k: K, v: V)
    requires Codec(enc, dec) && Encoded(enc, dec, tree, table)
    ensures Encoded(enc, dec, tree[enc(k) := v], table[k := v])
  {
    assert dec(enc(k)) == Some(k);
    forall j | j in table[k := v] ensures enc(j) in tree[enc(k) := v] && tree[enc(k) := v][enc(j)] == table[k := v][j] {
      assert dec(enc(j)) == Some(j);
    }
  }

  lemma RemoveEncoded<K(!new), B(!new), V>(enc: K -> B, dec: B -> Option<K>, tree: map<B, V>, table: map<K, V>, k: K)
    requires Codec(enc, dec) && Encoded(enc, dec, tree, table)
    ensures Encoded(enc, dec, tree - {enc(k)}, table - {k})
  {
    assert dec(enc(k)) == Some(k);
    forall j | j in table - {k} ensures enc(j) in tree - {enc(k)} {
      assert dec(enc(j)) == Some(j);
    }
    forall b | b in tree - {enc(k)} ensures dec(b).Some? && dec(b).value in table - {k} {
      assert enc(dec(b).value) == b;
    }
  }

  lemma MembershipEncoded<K(!new), B(!new), V>(enc: K -> B, dec: B -> Option<K>,
      tree: map<B, V>, table: map<K, V>, k: K)
    requires Codec(enc, dec) && Encoded(enc, dec, tree, table)
    ensures enc(k) in tree <==> k in table
    ensures k in table ==> tree[enc(k)] == table[k]
  {
    assert dec(enc(k)) == Some(k);
  }
}
