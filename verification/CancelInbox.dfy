/** The ring of pending recv cancels, packed 11 bytes to a key. */
module CancelInbox {
  import opened Basics
  import opened Bits
  import opened Bytes
  import opened Words
  import opened RecvRegistry

  const KEY_LEN := 11

  function KeyAt(m: seq<U8>, k: nat): Key
    requires (k + 1) * KEY_LEN <= |m|
  {
    var at := k * KEY_LEN;
    Key(U16At(m, at + 8), U64At(m, at), m[at + 10])
  }

  function KeyBytes(key: Key): (b: seq<U8>)
    ensures |b| == KEY_LEN
  {
    ToLE(key.generation, 8) + ToLE(key.slot, 2) + [key.worker]
  }

  /** Writing one record leaves every other record alone. */
  lemma SetKeyAt(m: seq<U8>, k: nat, key: Key, j: nat)
    requires (k + 1) * KEY_LEN <= |m| && (j + 1) * KEY_LEN <= |m|
    ensures KeyAt(Put(m, k * KEY_LEN, KeyBytes(key)), j) == if j == k then key else KeyAt(m, j)
  {
    var m' := Put(m, k * KEY_LEN, KeyBytes(key));
    var at := j * KEY_LEN;
    if j == k {
      PutAt(m, at, KeyBytes(key));
      var b := m'[at..at + KEY_LEN];
      assert m'[at..at + 8] == b[..8] == ToLE(key.generation, 8);
      assert m'[at + 8..at + 10] == b[8..10] == ToLE(key.slot, 2);
      assert m'[at + 10] == b[10];
      Sizes();
      FromToLE(m', at, key.generation, 8);
      FromToLE(m', at + 8, key.slot, 2);
    } else {
      FieldElsewhere(m, k * KEY_LEN, KeyBytes(key), at, 8);
      FieldElsewhere(m, k * KEY_LEN, KeyBytes(key), at + 8, 2);
      PutElsewhere(m, k * KEY_LEN, KeyBytes(key), at + 10, at + 11);
      assert m'[at + 10..at + 11][0] == m[at + 10..at + 11][0];
    }
  }

  /** `(head + d) % n` for a cursor in range and an offset of at most one lap. */
  function Around(head: nat, d: nat, n: nat): (r: nat)
    requires head < n && d <= n
    ensures r < n
  {
    if head + d < n then head + d else head + d - n
  }

  lemma AroundMod(head: nat, d: nat, n: nat)
    requires head < n && d <= n
    ensures (head + d) % n == Around(head, d, n)
  {
    ModUnique(head + d, n, if head + d < n then 0 else 1, Around(head, d, n));
  }

  /** The `len` keys from `head` on, around the ring. */
  function Queue(m: seq<U8>, n: nat, head: nat, len: nat): (q: seq<Key>)
    requires |m| == n * KEY_LEN && head < n
    ensures |q| == len
    decreases len
  {
    if len == 0 then [] else [KeyAt(m, head)] + Queue(m, n, Around(head, 1, n), len - 1)
  }

  lemma {:induction false} QueueGrows(m: seq<U8>, n: nat, head: nat, len: nat, key: Key)
    requires |m| == n * KEY_LEN && head < n && len < n
    ensures var m' := Put(m, Around(head, len, n) * KEY_LEN, KeyBytes(key));
            Queue(m', n, head, len + 1) == Queue(m, n, head, len) + [key]
    decreases len
  {
    hide KeyAt, KeyBytes, Put;
    var k := Around(head, len, n);
    var m' := Put(m, k * KEY_LEN, KeyBytes(key));
    SetKeyAt(m, k, key, head);
    if len == 0 {
      assert Queue(m', n, head, 1) == [KeyAt(m', head)] + Queue(m', n, Around(head, 1, n), 0);
    } else {
      var next := Around(head, 1, n);
      assert Around(next, len - 1, n) == k;
      QueueGrows(m, n, next, len - 1, key);
      assert [KeyAt(m, head)] + (Queue(m, n, next, len - 1) + [key])
          == ([KeyAt(m, head)] + Queue(m, n, next, len - 1)) + [key];
    }
  }

  class RecvCancelInbox {
    const storage: array<U8>
    const n: nat
    var head: nat
    var len: nat

    ghost predicate Valid()
      reads this, storage
    {
      storage.Length == n * KEY_LEN && head < n && len <= n
    }

    /** The pending cancels, oldest first. */
    ghost function Pending(): (q: seq<Key>)
      reads this, storage
      requires Valid()
      ensures |q| == len <= n
    {
      Queue(storage[..], n, head, len)
    }

    constructor (n: nat)
      requires n > 0
      ensures Valid() && fresh(storage) && this.n == n && Pending() == []
    {
      storage := new U8[n * KEY_LEN](_ => 0);
      this.n := n;
      head, len := 0, 0;
    }

    /** A full ring drops the new cancel. */
    method PushCancel(key: Key)
      requires Valid()
      modifies this, storage
      ensures Valid()
      ensures Pending() == if |old(Pending())| < n then old(Pending()) + [key] else old(Pending())
    {
      if len >= n {
        return;
      }
      AroundMod(head, len, n);
      var index := (head + len) % n;
      QueueGrows(storage[..], n, head, len, key);
      WriteBytes(storage, index * KEY_LEN, KeyBytes(key));
      len := len + 1;
    }

    method Pop() returns (key: Option<Key>)
      requires Valid()
      modifies this
      ensures Valid()
      ensures old(Pending()) == [] ==> key == None && Pending() == []
      ensures old(Pending()) != [] ==> key == Some(old(Pending())[0]) && Pending() == old(Pending())[1..]
    {
      if len == 0 {
        return None;
      }
      var bytes := storage[..];
      key := Some(KeyAt(bytes, head));
      AroundMod(head, 1, n);
      head := (head + 1) % n;
      len := len - 1;
    }
  }
}
