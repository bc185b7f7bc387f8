/** Ciphertext rows and the batch sweep that moves them from one key version to another. */
module Reencrypt {
  import opened Wrappers
  import opened KeyStoreSpec

  /** A raw_transcripts row by call, or a token_vault row by call and token. */
  datatype RowKey = Raw(callId: string) | Vault(callId: string, token: string)

  /** Authenticated encryption: opens only under the same key and the same call id. */
  datatype Cipher = Cipher(key: Key, aad: string, plain: string)

  function Encrypt(plain: string, key: Key, aad: string): Cipher { Cipher(key, aad, plain) }

  function Decrypt(c: Cipher, key: Key, aad: string): Option<string> {
    if c.key == key && c.aad == aad then Some(c.plain) else None
  }

  /** A tombstone keeps its version but has lost its ciphertext. */
  datatype Row = Row(version: nat, cipher: Option<Cipher>, hardDeleted: bool)

  predicate HoldsCipher(r: Row) { !r.hardDeleted && r.cipher.Some? }

  type Table = map<RowKey, Row>

  predicate RecoverableAt(t: Table, k: RowKey, version: nat) { k in t && HoldsCipher(t[k]) && t[k].version == version }

  function At(t: Table, version: nat): set<RowKey> { set k | k in t && RecoverableAt(t, k, version) }

  /** The plaintext a key of that version gets out of the row. */
  function Plain(t: Table, k: RowKey, key: Key): Option<string> {
    if k in t && HoldsCipher(t[k]) then Decrypt(t[k].cipher.value, key, k.callId) else None
  }

  /** Every row at the version opens under the key. */
  ghost predicate Opens(t: Table, version: nat, key: Key) {
    forall k :: RecoverableAt(t, k, version) ==> Plain(t, k, key).Some?
  }

  function Moved(t: Table, k: RowKey, oldKey: Key, new': nat, newKey: Key): Row
    requires Plain(t, k, oldKey).Some?
  {
    Row(new', Some(Encrypt(Plain(t, k, oldKey).value, newKey, k.callId)), false)
  }

  ghost predicate SweptRow(t: Table, t': Table, k: RowKey, ks: set<RowKey>, old': nat, oldKey: Key, new': nat, newKey: Key)
    requires k in t && k in t'
  {
    if k in ks && RecoverableAt(t, k, old')
    then RecoverableAt(t', k, new') && Plain(t', k, newKey) == Plain(t, k, oldKey)
    else t'[k] == t[k]
  }

  /** The rows of `ks` that were recoverable at `old'` are at `new'` with the same plaintext; every other row is as it was. */
  ghost predicate Swept(t: Table, t': Table, ks: set<RowKey>, old': nat, oldKey: Key, new': nat, newKey: Key) {
    t'.Keys == t.Keys && forall k :: k in t ==> SweptRow(t, t', k, ks, old', oldKey, new', newKey)
  }

  /** As many of the keys as the batch allows. */
  method Pick(all: set<RowKey>, batch: nat) returns (keys: set<RowKey>)
    ensures keys <= all && |keys| == if |all| < batch then |all| else batch
  {
    var left := all;
    keys := {};
    while |keys| < batch && left != {}
      invariant keys + left == all && keys !! left && |keys| <= batch
      decreases |left|
    {
      var k :| k in left;
      keys, left := keys + {k}, left - {k};
    }
    assert |keys + left| == |keys| + |left|;
  }

  class CipherTable {
    var rows: Table

    constructor (rows: Table)
      ensures this.rows == rows
    {
      this.rows := rows;
    }

    /** SELECT ... FOR UPDATE LIMIT batch. */
    method Select(old': nat, batch: nat) returns (keys: set<RowKey>)
      ensures keys <= At(rows, old') && |keys| == if |At(rows, old')| < batch then |At(rows, old')| else batch
    {
      keys := Pick(At(rows, old'), batch);
    }

    /** One transaction: re-encrypt at most `batch` rows. */
    method MoveBatch(old': nat, oldKey: Key, new': nat, newKey: Key, batch: nat) returns (moved: nat, ghost keys: set<RowKey>)
      requires Opens(rows, old', oldKey) && old' != new'
      modifies this
      ensures keys <= At(old(rows), old') && |keys| == moved && Swept(old(rows), rows, keys, old', oldKey, new', newKey)
      ensures moved == if |At(old(rows), old')| < batch then |At(old(rows), old')| else batch
    {
      var todo := Select(old', batch);
      moved, keys := |todo|, todo;
      while todo != {}
        invariant todo <= keys && Swept(old(rows), rows, keys - todo, old', oldKey, new', newKey)
        decreases |todo|
      {
        var k :| k in todo;
        assert SweptRow(old(rows), rows, k, keys - todo, old', oldKey, new', newKey) && RecoverableAt(old(rows), k, old');
        OneMoved(old(rows), rows, keys - todo, k, old', oldKey, new', newKey);
        assert keys - (todo - {k}) == keys - todo + {k};
        rows := rows[k := Moved(rows, k, oldKey, new', newKey)];
        todo := todo - {k};
      }
      assert keys - todo == keys;
    }

    /** The sweep of one table: every recoverable row leaves the old version with its plaintext, and is counted. */
    method Reencrypt(old': nat, oldKey: Key, new': nat, newKey: Key, batch: nat) returns (total: nat)
      requires Opens(rows, old', oldKey) && old' != new' && batch > 0
      modifies this
      ensures Swept(old(rows), rows, old(rows).Keys, old', oldKey, new', newKey)
      ensures At(rows, old') == {} && total == |At(old(rows), old')|
    {
      total := 0;
      ghost var done: set<RowKey> := {};
      ghost var left: nat := |At(rows, old')|;
      while true
        invariant Midway(old(rows), rows, done, total, left, old', oldKey, new', newKey)
        decreases left
      {
        ghost var before := rows;
        var moved, keys := MoveBatch(old', oldKey, new', newKey, batch);
        BatchMoved(old(rows), before, rows, done, keys, total, left, old', oldKey, new', newKey);
        done, left := done + keys, left - moved;
        total := total + moved;
        if moved < batch { break; }
      }
      AllMoved(old(rows), rows, done, total, left, old', oldKey, new', newKey);
    }
  }

  lemma {:induction false} OneMoved(a: Table, t: Table, ks: set<RowKey>, k: RowKey, old': nat, oldKey: Key, new': nat, newKey: Key)
    requires Swept(a, t, ks, old', oldKey, new', newKey) && RecoverableAt(a, k, old') && Plain(a, k, oldKey).Some? && k in t && t[k] == a[k]
    ensures Swept(a, t[k := Moved(t, k, oldKey, new', newKey)], ks + {k}, old', oldKey, new', newKey)
  {
    var t' := t[k := Moved(t, k, oldKey, new', newKey)];
    forall j | j in a ensures SweptRow(a, t', j, ks + {k}, old', oldKey, new', newKey) {
      assert SweptRow(a, t, j, ks, old', oldKey, new', newKey);
    }
  }

  /** `done` rows have moved in `total` steps, and `left` are still to move. */
  ghost predicate Midway(a: Table, t: Table, done: set<RowKey>, total: nat, left: nat, old': nat, oldKey: Key, new': nat, newKey: Key) {
    && Swept(a, t, done, old', oldKey, new', newKey) && Opens(t, old', oldKey)
    && done <= At(a, old') && total == |done| && At(t, old') == At(a, old') - done && left == |At(t, old')|
  }

  lemma {:induction false} BatchMoved(a: Table, b: Table, c: Table, done: set<RowKey>, keys: set<RowKey>, total: nat, left: nat, old': nat, oldKey: Key, new': nat, newKey: Key)
    requires Midway(a, b, done, total, left, old', oldKey, new', newKey) && old' != new'
    requires keys <= At(b, old') && Swept(b, c, keys, old', oldKey, new', newKey)
    ensures |keys| <= left && Midway(a, c, done + keys, total + |keys|, left - |keys|, old', oldKey, new', newKey)
  {
    SweptTwice(a, b, c, done, keys, old', oldKey, new', newKey);
    assert At(b, old') == (At(b, old') - keys) + keys;
  }

  lemma {:induction false} AllMoved(a: Table, t: Table, done: set<RowKey>, total: nat, left: nat, old': nat, oldKey: Key, new': nat, newKey: Key)
    requires Midway(a, t, done, total, left, old', oldKey, new', newKey) && left == 0
    ensures Swept(a, t, a.Keys, old', oldKey, new', newKey) && At(t, old') == {} && total == |At(a, old')|
  {
    assert done == At(a, old') by { assert At(a, old') - done == {}; }
    forall k | k in a
      ensures SweptRow(a, t, k, a.Keys, old', oldKey, new', newKey)
    {
      assert SweptRow(a, t, k, done, old', oldKey, new', newKey);
      assert RecoverableAt(a, k, old') <==> k in done;
    }
  }

  lemma {:induction false} SweptTwice(a: Table, b: Table, c: Table, ks: set<RowKey>, ls: set<RowKey>, old': nat, oldKey: Key, new': nat, newKey: Key)
    requires Swept(a, b, ks, old', oldKey, new', newKey) && Swept(b, c, ls, old', oldKey, new', newKey) && old' != new'
    requires ks <= At(a, old') && ls <= At(b, old') && Opens(b, old', oldKey)
    ensures Swept(a, c, ks + ls, old', oldKey, new', newKey) && Opens(c, old', oldKey)
    ensures At(c, old') == At(b, old') - ls && ks !! ls && |ks + ls| == |ks| + |ls|
  {
    forall k | k in a
      ensures SweptRow(a, c, k, ks + ls, old', oldKey, new', newKey)
      ensures RecoverableAt(c, k, old') <==> RecoverableAt(b, k, old') && k !in ls
      ensures RecoverableAt(c, k, old') ==> Plain(c, k, oldKey).Some?
      ensures k in ks ==> k !in ls
    {
      RowTwice(a, b, c, k, ks, ls, old', oldKey, new', newKey);
    }
    assert At(c, old') == At(b, old') - ls;
  }

  lemma {:induction false} RowTwice(a: Table, b: Table, c: Table, k: RowKey, ks: set<RowKey>, ls: set<RowKey>, old': nat, oldKey: Key, new': nat, newKey: Key)
    requires k in a && k in b && k in c && old' != new' && (k in ls ==> RecoverableAt(b, k, old')) && (k in ks ==> RecoverableAt(a, k, old'))
    requires SweptRow(a, b, k, ks, old', oldKey, new', newKey) && SweptRow(b, c, k, ls, old', oldKey, new', newKey)
    requires RecoverableAt(b, k, old') ==> Plain(b, k, oldKey).Some?
    ensures SweptRow(a, c, k, ks + ls, old', oldKey, new', newKey)
    ensures RecoverableAt(c, k, old') <==> RecoverableAt(b, k, old') && k !in ls
    ensures RecoverableAt(c, k, old') ==> Plain(c, k, oldKey).Some?
    ensures k in ks ==> k !in ls
  {}
}
