/** The in-memory memo index of the directory-backed service: a JavaScript `Map` from memo id to
    memo, modelled as the sequence of its entries in insertion order. */
module MemoStore {
  import opened Base
  import opened Types

  datatype Entry = Entry(key: string, memo: Memo)

  type Store = seq<Entry>

  /** Keys are distinct (a `Map` holds each key once) and each entry is stored under its memo's id. */
  predicate Valid(store: Store)
  {
    && (forall i, j :: 0 <= i < j < |store| ==> store[i].key != store[j].key)
    && (forall i :: 0 <= i < |store| ==> store[i].key == store[i].memo.id)
  }

  predicate HasKey(store: Store, key: string)
  {
    exists i :: 0 <= i < |store| && store[i].key == key
  }

  /** Position of the first entry under `key`. */
  function IndexOf(store: Store, key: string): (r: Option<nat>)
    ensures r.None? <==> !HasKey(store, key)
    ensures r.Some? ==> r.value < |store| && store[r.value].key == key
    ensures r.Some? ==> forall j :: 0 <= j < r.value ==> store[j].key != key
  {
    if store == [] then None
    else if store[0].key == key then Some(0)
    else match IndexOf(store[1..], key)
      case None => None
      case Some(k) => Some(k + 1)
  }

  /** In a store with distinct keys, an entry's key finds exactly that entry. */
  lemma IndexOfEntry(store: Store, i: nat)
    requires Valid(store) && i < |store|
    ensures IndexOf(store, store[i].key) == Some(i)
  {
  }

  /** `getMemo`: the memo stored under `id`, or null. */
  function GetMemo(store: Store, id: string): (r: Option<Memo>)
    ensures r.Some? <==> HasKey(store, id)
    ensures r.Some? ==> exists i :: 0 <= i < |store| && store[i].key == id && store[i].memo == r.value
    ensures Valid(store) && r.Some? ==> r.value.id == id
  {
    match IndexOf(store, id)
    case None => None
    case Some(i) => Some(store[i].memo)
  }

  /** `Map.prototype.set`: a new key is appended; an existing key keeps its position and gets the
      new value. */
  function Put(store: Store, key: string, memo: Memo): (r: Store)
    ensures !HasKey(store, key) ==> r == store + [Entry(key, memo)]
    ensures HasKey(store, key) ==>
      exists i :: 0 <= i < |store| && store[i].key == key && r == store[i := Entry(key, memo)]
    ensures forall i :: 0 <= i < |store| && store[i].key != key ==> r[i] == store[i]
  {
    match IndexOf(store, key)
    case None => store + [Entry(key, memo)]
    case Some(i) => store[i := Entry(key, memo)]
  }

  /** Storing a memo under its own id keeps the store valid and makes it retrievable, leaving every
      other entry as it was. */
  lemma PutMemo(store: Store, memo: Memo)
    requires Valid(store)
    ensures Valid(Put(store, memo.id, memo))
    ensures GetMemo(Put(store, memo.id, memo), memo.id) == Some(memo)
    ensures forall k :: k != memo.id ==> GetMemo(Put(store, memo.id, memo), k) == GetMemo(store, k)
  {
    var r := Put(store, memo.id, memo);
    if HasKey(store, memo.id) {
      var i :| 0 <= i < |store| && store[i].key == memo.id;
      IndexOfEntry(store, i);
      assert r == store[i := Entry(memo.id, memo)];
      assert Valid(r);
      IndexOfEntry(r, i);
      forall k | k != memo.id
        ensures GetMemo(r, k) == GetMemo(store, k)
      {
        if HasKey(store, k) {
          var j :| 0 <= j < |store| && store[j].key == k;
          IndexOfEntry(store, j);
          IndexOfEntry(r, j);
        } else {
          assert !HasKey(r, k);
        }
      }
    } else {
      assert Valid(r);
      IndexOfEntry(r, |store|);
      forall k | k != memo.id
        ensures GetMemo(r, k) == GetMemo(store, k)
      {
        if HasKey(store, k) {
          var j :| 0 <= j < |store| && store[j].key == k;
          IndexOfEntry(store, j);
          IndexOfEntry(r, j);
        } else {
          assert !HasKey(r, k);
        }
      }
    }
  }

  /** `Array.from(map.values())`. */
  function Values(store: Store): seq<Memo>
  {
    seq(|store|, i requires 0 <= i < |store| => store[i].memo)
  }

  /** `Array.prototype.reverse` applied to a copy. */
  function Reverse<T>(s: seq<T>): (r: seq<T>)
    ensures |r| == |s|
    ensures forall i :: 0 <= i < |s| ==> r[i] == s[|s| - 1 - i]
  {
    if s == [] then [] else Reverse(s[1..]) + [s[0]]
  }

  function Max(a: int, b: int): int
  {
    if a >= b then a else b
  }

  /** `Array.prototype.slice(start, end)` for non-negative bounds: both are clamped to the length. */
  function Slice<T>(s: seq<T>, start: nat, end: nat): (r: seq<T>)
    ensures |r| == Max(0, (if end <= |s| then end else |s|) - (if start <= |s| then start else |s|))
    ensures forall j :: 0 <= j < |r| ==> start + j < |s| && r[j] == s[start + j]
  {
    var lo := if start <= |s| then start else |s|;
    var hi := if end <= |s| then end else |s|;
    if lo <= hi then s[lo..hi] else []
  }

  const DefaultLimit: nat := 20
  const DefaultOffset: nat := 0

  /** `listMemos({limit, offset})`: newest first, a window of at most `limit` memos after skipping
      `offset`, with the total and whether more follow. */
  function ListMemos(store: Store, limit: nat, offset: nat): (r: MemosResponse)
    ensures r.pagination == Pagination(|store|, limit, offset, offset + limit < |store|)
    ensures |r.memos| == (if limit <= Max(0, |store| - offset) then limit else Max(0, |store| - offset))
    ensures forall j :: 0 <= j < |r.memos| ==> r.memos[j] == store[|store| - 1 - (offset + j)].memo
  {
    var all := Values(store);
    var total := |all|;
    var memos := Slice(Reverse(all), offset, offset + limit);
    MemosResponse(memos, Pagination(total, limit, offset, offset + limit < total))
  }

  /** Listing returns memos in strictly newest-first insertion order: a memo inserted later
      comes earlier in the page. */
  lemma ListNewestFirst(store: Store, limit: nat, offset: nat, j: nat, k: nat)
    requires j < k < |ListMemos(store, limit, offset).memos|
    ensures exists a, b ::
              && 0 <= b < a < |store|
              && ListMemos(store, limit, offset).memos[j] == store[a].memo
              && ListMemos(store, limit, offset).memos[k] == store[b].memo
  {
    var page := ListMemos(store, limit, offset).memos;
    var a, b := |store| - 1 - (offset + j), |store| - 1 - (offset + k);
    assert page[j] == store[a].memo && page[k] == store[b].memo;
  }

  /** Consecutive pages join up: the page of `a` memos at `offset` followed by the page of `b`
      memos right after it is the page of `a + b` memos at `offset`. */
  lemma {:induction false} PagesConcatenate(store: Store, a: nat, b: nat, offset: nat)
    ensures ListMemos(store, a, offset).memos + ListMemos(store, b, offset + a).memos
            == ListMemos(store, a + b, offset).memos
  {
    var p, q := ListMemos(store, a, offset).memos, ListMemos(store, b, offset + a).memos;
    var w := ListMemos(store, a + b, offset).memos;
    PageLengths(|store|, a, b, offset, |p|, |q|, |w|);
    forall j | 0 <= j < |w|
      ensures (p + q)[j] == w[j]
    {
      if j < |p| {
        assert (p + q)[j] == p[j];
      } else {
        assert (p + q)[j] == q[j - |p|];
      }
    }
  }

  /** The page-size arithmetic behind `PagesConcatenate`. */
  lemma PageLengths(n: nat, a: nat, b: nat, offset: nat, lp: nat, lq: nat, lw: nat)
    requires lp == (if a <= Max(0, n - offset) then a else Max(0, n - offset))
    requires lq == (if b <= Max(0, n - (offset + a)) then b else Max(0, n - (offset + a)))
    requires lw == (if a + b <= Max(0, n - offset) then a + b else Max(0, n - offset))
    ensures lp + lq == lw
    ensures lq > 0 ==> lp == a
  {
  }

  /** `hasMore` is true exactly when the next page, at `offset + limit`, is not empty. */
  lemma HasMoreIffNextPage(store: Store, limit: nat, offset: nat)
    requires limit > 0
    ensures ListMemos(store, limit, offset).pagination.hasMore <==> |ListMemos(store, limit, offset + limit).memos| > 0
  {
  }

  /** The outcome of `deleteMemo`: whether it returned true, the store after it, and the memo
      removed (whose audio file the service then tries to unlink). */
  datatype Deletion = Deletion(deleted: bool, store: Store, removed: Option<Memo>)

  /** `deleteMemo`. */
  function DeleteMemo(store: Store, id: string): (r: Deletion)
    ensures r.deleted <==> HasKey(store, id)
    ensures !r.deleted ==> r.store == store && r.removed.None?
    ensures r.deleted ==> exists i :: 0 <= i < |store| && store[i].key == id
                           && r.store == store[..i] + store[i + 1..] && r.removed == Some(store[i].memo)
  {
    match IndexOf(store, id)
    case None => Deletion(false, store, None)
    case Some(i) => Deletion(true, store[..i] + store[i + 1..], Some(store[i].memo))
  }

  /** Removing position `i` shifts every later entry down by one. */
  lemma RemoveAtShape(store: Store, i: nat)
    requires i < |store|
    ensures |store[..i] + store[i + 1..]| == |store| - 1
    ensures forall m :: 0 <= m < |store| - 1 ==>
      (store[..i] + store[i + 1..])[m] == (if m < i then store[m] else store[m + 1])
  {
  }

  /** Removing one entry of a valid store keeps it valid and drops its key. */
  lemma RemoveAtValid(store: Store, i: nat)
    requires Valid(store) && i < |store|
    ensures Valid(store[..i] + store[i + 1..])
    ensures !HasKey(store[..i] + store[i + 1..], store[i].key)
  {
    RemoveAtShape(store, i);
  }

  /** Removing one entry of a valid store leaves the lookup of every other key unchanged. */
  lemma RemoveAtKeeps(store: Store, i: nat, k: string)
    requires Valid(store) && i < |store| && k != store[i].key
    ensures GetMemo(store[..i] + store[i + 1..], k) == GetMemo(store, k)
  {
    var r := store[..i] + store[i + 1..];
    RemoveAtShape(store, i);
    RemoveAtValid(store, i);
    if HasKey(store, k) {
      var j :| 0 <= j < |store| && store[j].key == k;
      IndexOfEntry(store, j);
      var j' := if j < i then j else j - 1;
      assert r[j'] == store[j];
      IndexOfEntry(r, j');
    } else {
      assert !HasKey(r, k);
    }
  }

  /** After a deletion the store is still valid, the id is gone, and every other memo is still
      retrievable exactly as before. */
  lemma DeleteFacts(store: Store, id: string)
    requires Valid(store)
    ensures Valid(DeleteMemo(store, id).store)
    ensures GetMemo(DeleteMemo(store, id).store, id).None?
    ensures forall k :: k != id ==> GetMemo(DeleteMemo(store, id).store, k) == GetMemo(store, k)
  {
    var d := DeleteMemo(store, id);
    if d.deleted {
      var i :| 0 <= i < |store| && store[i].key == id && d.store == store[..i] + store[i + 1..];
      RemoveAtValid(store, i);
      forall k | k != id
        ensures GetMemo(d.store, k) == GetMemo(store, k)
      {
        RemoveAtKeeps(store, i, k);
      }
    }
  }

  /** Deleting is idempotent: repeating a delete returns false and changes nothing. */
  lemma DeleteTwice(store: Store, id: string)
    requires Valid(store)
    ensures !DeleteMemo(DeleteMemo(store, id).store, id).deleted
    ensures DeleteMemo(DeleteMemo(store, id).store, id).store == DeleteMemo(store, id).store
  {
    DeleteFacts(store, id);
  }

  /** Deleting a memo just stored under a fresh id restores the store it was added to. */
  lemma DeleteUndoesPut(store: Store, memo: Memo)
    requires Valid(store) && !HasKey(store, memo.id)
    ensures DeleteMemo(Put(store, memo.id, memo), memo.id) == Deletion(true, store, Some(memo))
  {
    var r := Put(store, memo.id, memo);
    assert r == store + [Entry(memo.id, memo)];
    PutMemo(store, memo);
    IndexOfEntry(r, |store|);
    assert r[..|store|] + r[|store| + 1..] == store;
  }
}
