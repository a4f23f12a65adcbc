/** The persistent tap registry: the subtree `taps` of the ordered key/value store.
    Each tap `<id>` owns `taps/<id>/options`, `taps/<id>/last_id` and
    `taps/<id>/status`. A transaction is modelled as one atomic replacement of the
    whole store value. */
module Registry {
  import opened Wrappers
  import opened Data
  import opened KeyOrder

  /** The bytes under `taps/<id>/options`: the JSON encoding of a definition, or
      bytes that do not decode into one. */
  datatype Blob = Encoded(opts: TapOptions) | Garbage(raw: string)

  /** JSON decoding of stored options. */
  function Decode(b: Blob): Option<TapOptions>
  {
    match b
    case Encoded(o) => Some(o)
    case Garbage(_) => None
  }

  /** The subtree `taps/<id>`; `last_id` and `status` are absent until first written. */
  datatype TapRecord = TapRecord(options: Blob, lastId: Option<string>, status: Option<string>)

  /** The store: whether the root map `taps` exists, its keys in iteration order,
      and the subtree under each key. */
  datatype Store = Store(root: bool, keys: seq<string>, taps: map<string, TapRecord>)

  predicate WellFormed(s: Store)
  {
    && Increasing(s.keys)
    && (forall k :: k in s.keys ==> k in s.taps)
    && (forall k :: k in s.taps ==> k in s.keys)
    && (!s.root ==> s.keys == [])
  }

  /** The key order after a key is added. */
  function Insert(ks: seq<string>, k: string): (r: seq<string>)
    requires Increasing(ks)
    ensures Increasing(r)
    ensures forall x :: x in r <==> x in ks || x == k
    decreases |ks|
  {
    if ks == [] then [k]
    else if k == ks[0] then ks
    else if Less(k, ks[0]) then
      assert forall x :: x in ks ==> Less(k, x) by {
        forall x | x in ks ensures Less(k, x) {
          if x != ks[0] {
            assert x in ks[1..] by { assert ks == [ks[0]] + ks[1..]; }
            HeadIsLeast(ks, x);
            LessTransitive(k, ks[0], x);
          }
        }
      }
      IncreasingCons(k, ks);
      [k] + ks
    else
      var rest := Insert(ks[1..], k);
      assert forall x :: x in rest ==> Less(ks[0], x) by {
        forall x | x in rest ensures Less(ks[0], x) {
          if x == k {
            LessTotal(k, ks[0]);
          } else {
            HeadIsLeast(ks, x);
          }
        }
      }
      IncreasingCons(ks[0], rest);
      assert ks == [ks[0]] + ks[1..];
      [ks[0]] + rest
  }

  /** The key order after a key is removed. */
  function Remove(ks: seq<string>, k: string): (r: seq<string>)
    requires Increasing(ks)
    ensures Increasing(r)
    ensures forall x :: x in r <==> x in ks && x != k
    decreases |ks|
  {
    if ks == [] then []
    else
      var rest := Remove(ks[1..], k);
      assert ks == [ks[0]] + ks[1..];
      if ks[0] == k then rest
      else
        assert forall x :: x in rest ==> Less(ks[0], x) by {
          forall x | x in rest ensures Less(ks[0], x) {
            HeadIsLeast(ks, x);
          }
        }
        IncreasingCons(ks[0], rest);
        [ks[0]] + rest
  }

  /** Removing a key that was just inserted gives back the original order. */
  lemma {:induction false} RemoveInsert(ks: seq<string>, k: string)
    requires Increasing(ks) && k !in ks
    ensures Remove(Insert(ks, k), k) == ks
    decreases |ks|
  {
    if ks == [] {
    } else if Less(k, ks[0]) {
      RemoveNotIn(ks, k);
    } else {
      assert ks == [ks[0]] + ks[1..];
      RemoveInsert(ks[1..], k);
    }
  }

  lemma {:induction false} RemoveNotIn(ks: seq<string>, k: string)
    requires Increasing(ks) && k !in ks
    ensures Remove(ks, k) == ks
    decreases |ks|
  {
    if ks != [] {
      assert ks == [ks[0]] + ks[1..];
      RemoveNotIn(ks[1..], k);
    }
  }

  function NewRecord(opts: TapOptions): TapRecord
  {
    TapRecord(Encoded(opts), None, None)
  }

  /** The write transaction of a create: `CreateMap(taps/<id>)` and `Put(taps/<id>/options)`. */
  function CreateTap(s: Store, id: string, opts: TapOptions): (r: Store)
    requires WellFormed(s) && s.root && id !in s.taps
    ensures WellFormed(r) && r.root
    ensures forall k :: k in r.keys <==> k in s.keys || k == id
    ensures r.taps[id] == NewRecord(opts)
    ensures forall k :: k in s.taps ==> r.taps[k] == s.taps[k]
  {
    Store(s.root, Insert(s.keys, id), s.taps[id := NewRecord(opts)])
  }

  /** The write transaction of a delete: `Delete(taps/<id>)`, the whole subtree. */
  function DeleteTap(s: Store, id: string): (r: Store)
    requires WellFormed(s)
    ensures WellFormed(r) && r.root == s.root
    ensures id !in r.taps
    ensures forall k :: k in r.keys <==> k in s.keys && k != id
    ensures forall k :: k in r.taps ==> r.taps[k] == s.taps[k]
  {
    Store(s.root, Remove(s.keys, id), s.taps - {id})
  }

  /** Deleting a freshly created tap restores the store exactly. */
  lemma DeleteUndoesCreate(s: Store, id: string, opts: TapOptions)
    requires WellFormed(s) && s.root && id !in s.taps
    ensures DeleteTap(CreateTap(s, id, opts), id) == s
  {
    assert id !in s.keys;
    RemoveInsert(s.keys, id);
    assert s.taps[id := NewRecord(opts)] - {id} == s.taps;
  }

  /** `Put(taps/<id>/status)`; there is nothing to write into once the tap's subtree is gone. */
  function PutStatus(s: Store, id: string, status: string): (r: Store)
    requires WellFormed(s)
    ensures WellFormed(r) && r.root == s.root && r.keys == s.keys && r.taps.Keys == s.taps.Keys
    ensures id in s.taps ==> r.taps[id] == s.taps[id].(status := Some(status))
    ensures forall k :: k in s.taps && k != id ==> r.taps[k] == s.taps[k]
    ensures id !in s.taps ==> r == s
  {
    if id in s.taps then s.(taps := s.taps[id := s.taps[id].(status := Some(status))]) else s
  }

  /** `Put(taps/<id>/last_id)`. */
  function PutLastId(s: Store, id: string, lastId: string): (r: Store)
    requires WellFormed(s)
    ensures WellFormed(r) && r.root == s.root && r.keys == s.keys && r.taps.Keys == s.taps.Keys
    ensures id in s.taps ==> r.taps[id] == s.taps[id].(lastId := Some(lastId))
    ensures forall k :: k in s.taps && k != id ==> r.taps[k] == s.taps[k]
    ensures id !in s.taps ==> r == s
  {
    if id in s.taps then s.(taps := s.taps[id := s.taps[id].(lastId := Some(lastId))]) else s
  }

  /** Root initialisation at server start: `CreateMap(taps)` unless it exists. */
  function InitRoot(s: Store): (r: Store)
    requires WellFormed(s)
    ensures WellFormed(r) && r.root
    ensures r.keys == s.keys && r.taps == s.taps
    ensures s.root ==> r == s
  {
    if s.root then s else s.(root := true)
  }

  /** The database handle shared by the server and every tap runner. */
  class Database {
    var store: Store

    constructor (initial: Store)
      requires WellFormed(initial)
      ensures store == initial
    {
      store := initial;
    }
  }
}
