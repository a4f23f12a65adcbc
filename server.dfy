/** The HTTP server of server/ (`Server` with its table of running taps): the
    handlers `list`, `create` and `delete`, and `startTaps`, which launches every
    stored tap at start-up. A context's cancel function is modelled as a handle
    number; the table `tapCancels` maps tap ids to handles, and `cancelled` records
    the cancel functions invoked, in order. `tap.Start` (server/tap) is not part of
    this model: whether it succeeds is an input. */
module TapServer {
  import opened Wrappers
  import opened Data
  import opened KeyOrder
  import opened Registry
  import opened Listing

  const StatusCreated := 201
  const StatusNoContent := 204
  const StatusBadRequest := 400
  const StatusNotFound := 404
  const StatusInternalServerError := 500

  /** What a handler answers. */
  datatype Response = Created(id: string) | Listed(page: TapListPage) | Answered(code: int)

  /** The position of the first key whose tap fails to start, or `|ks|`. */
  function FirstFailure(ks: seq<string>, starts: string -> bool): (n: nat)
    ensures n <= |ks|
    ensures forall j :: 0 <= j < n ==> starts(ks[j])
    ensures n < |ks| ==> !starts(ks[n])
    decreases |ks|
  {
    if ks == [] || !starts(ks[0]) then 0 else 1 + FirstFailure(ks[1..], starts)
  }

  /** Handles `base + m - 1` down to `base`: deferred calls run last-in first-out. */
  function Descending(base: nat, m: nat): (r: seq<nat>)
    ensures |r| == m
    ensures forall i :: 0 <= i < m ==> r[i] == base + m - 1 - i
  {
    seq(m, i requires 0 <= i < m => base + m - 1 - i)
  }

  /** The iterator loop of `list`, from the position the seek left it at. */
  method ReadPage(s: Store, start: nat, ghost cursor: string) returns (r: Result<TapListPage, ListError>)
    requires WellFormed(s) && start == StartIndex(s.keys, cursor)
    ensures r == Page(s, cursor)
  {
    var ks := s.keys;
    var pos := start;
    var entries: seq<TapListEntry> := [];
    var next := "";
    var full := false;
    while pos < |ks|
      invariant start <= pos <= |ks|
      invariant Entries(s, start, pos) == Ok(entries)
      invariant |entries| == pos - start < PageLimit
      decreases |ks| - pos
    {
      var k := ks[pos];
      var opts := Decode(s.taps[k].options);
      if opts.None? {
        assert Entries(s, start, pos + 1) == Err(Unparseable(k));
        EntriesErrSticks(s, start, pos + 1, WindowEnd(s, cursor));
        return Err(Unparseable(k));
      }
      entries := entries + [EntryFor(k, opts.value)];
      next := k;
      if |entries| >= PageLimit {
        full := true;
        break;
      }
      pos := pos + 1;
    }
    if !full {
      next := "";
      assert WindowEnd(s, cursor) == |ks|;
    } else {
      assert WindowEnd(s, cursor) == pos + 1 && next == ks[pos];
    }
    r := Ok(TapListPage(entries, next));
  }

  /** The table after registering the first `n` keys with handles `base`, `base + 1`, ... */
  function Registered(m: map<string, nat>, ks: seq<string>, base: nat, n: nat): (r: map<string, nat>)
    requires n <= |ks|
    // registering only adds entries, and only for the first `n` keys
    ensures m.Keys <= r.Keys && forall k :: k in r && k !in m ==> k in ks[..n]
    decreases n
  {
    if n == 0 then m else Registered(m, ks, base, n - 1)[ks[n - 1] := base + n - 1]
  }

  /** Each of the first `n` keys is registered with its own handle; other entries keep theirs. */
  lemma {:induction false} RegisteredMeaning(m: map<string, nat>, ks: seq<string>, base: nat, n: nat)
    requires Increasing(ks) && n <= |ks|
    ensures var r := Registered(m, ks, base, n);
      && (forall j :: 0 <= j < n ==> ks[j] in r && r[ks[j]] == base + j)
      && (forall k :: k in r <==> k in m || k in ks[..n])
      && (forall k :: k in m && k !in ks[..n] ==> r[k] == m[k])
    decreases n
  {
    if n > 0 {
      RegisteredMeaning(m, ks, base, n - 1);
      assert ks[..n] == ks[..n - 1] + [ks[n - 1]];
      forall j | 0 <= j < n - 1 ensures ks[j] != ks[n - 1] {
        if ks[j] == ks[n - 1] {
          IncreasingInjective(ks, j, n - 1);
        }
      }
    }
  }

  /** Registering hands out only the handles `base` to `base + n - 1`. */
  lemma {:induction false} RegisteredBelow(m: map<string, nat>, ks: seq<string>, base: nat, n: nat)
    requires n <= |ks| && forall k :: k in m ==> m[k] < base
    ensures forall k :: k in Registered(m, ks, base, n) ==> Registered(m, ks, base, n)[k] < base + n
    decreases n
  {
    if n > 0 {
      RegisteredBelow(m, ks, base, n - 1);
    }
  }

  class Server {
    const db: Database
    var tapCancels: map<string, nat>
    var cancelled: seq<nat>
    var nextHandle: nat

    /** The `taps` map exists and every registered handle was handed out. */
    predicate Valid()
      reads this, db
    {
      && WellFormed(db.store) && db.store.root
      && forall k :: k in tapCancels ==> tapCancels[k] < nextHandle
    }

    constructor (db: Database)
      requires WellFormed(db.store) && db.store.root
      ensures Valid() && this.db == db
      ensures tapCancels == map[] && cancelled == [] && nextHandle == 0
    {
      this.db := db;
      tapCancels := map[];
      cancelled := [];
      nextHandle := 0;
    }

    /** `GET /taps?cursor=<cursor>`: seek past the cursor, then decode up to a full
        page of definitions in key order. */
    method List(cursor: string) returns (r: Result<TapListPage, ListError>)
      requires Valid()
      ensures r == Page(db.store, cursor)
    {
      var ks := db.store.keys;
      var pos := 0;
      if cursor != "" {
        pos := Seek(ks, cursor);
        if pos < |ks| && ks[pos] == cursor {
          pos := pos + 1;
        }
      }
      r := ReadPage(db.store, pos, cursor);
    }
    /** `POST /taps`. A body that does not decode, a failed id generation or a failed
        marshal answer 400; a failed write 500. Otherwise the definition is stored
        under the new id and a context is created; if the tap does not start, its
        context is cancelled and the answer is 500 (the stored definition stays). */
    method Create(body: Option<TapOptions>, newId: Option<string>, marshalOk: bool, writeOk: bool, startOk: bool)
      returns (resp: Response)
      requires Valid()
      requires newId.Some? ==> newId.value !in db.store.taps
      modifies this, db
      ensures Valid()
      ensures var stored := body.Some? && newId.Some? && marshalOk && writeOk;
        && (stored ==> db.store == CreateTap(old(db.store), newId.value, body.value))
        && (!stored ==> db.store == old(db.store))
        && (!stored ==> nextHandle == old(nextHandle) && cancelled == old(cancelled))
        && (stored ==> nextHandle == old(nextHandle) + 1)
        && (stored && !startOk ==> cancelled == old(cancelled) + [old(nextHandle)])
        && (stored && startOk ==> cancelled == old(cancelled))
        && (stored && startOk ==> tapCancels == old(tapCancels)[newId.value := old(nextHandle)])
        && (!(stored && startOk) ==> tapCancels == old(tapCancels))
        && (resp.Created? <==> stored && startOk)
        && (resp.Created? ==> resp.id == newId.value)
        && (resp.Answered? ==> resp.code == (if body.None? || newId.None? || !marshalOk then StatusBadRequest else StatusInternalServerError))
        && (resp.Created? || resp.Answered?)
    {
      if body.None? || newId.None? || !marshalOk {
        return Answered(StatusBadRequest);
      }
      var id := newId.value;
      if !writeOk {
        return Answered(StatusInternalServerError);
      }
      db.store := CreateTap(db.store, id, body.value);
      var cancel := nextHandle;
      nextHandle := nextHandle + 1;
      if !startOk {
        cancelled := cancelled + [cancel];
        return Answered(StatusInternalServerError);
      }
      tapCancels := tapCancels[id := cancel];
      resp := Created(id);
    }

    /** `DELETE /taps/<tapID>`: 404 for an unknown tap, 500 if the transaction does not
        commit; otherwise the subtree goes, the tap's cancel function (if registered)
        is invoked, and the answer is 204. The table entry itself is kept. */
    method Delete(tapID: string, commitOk: bool) returns (resp: Response)
      requires Valid()
      modifies this, db
      ensures Valid()
      ensures tapCancels == old(tapCancels) && nextHandle == old(nextHandle)
      ensures tapID !in old(db.store.taps) ==> resp == Answered(StatusNotFound) && db.store == old(db.store)
      ensures tapID in old(db.store.taps) && !commitOk ==>
        resp == Answered(StatusInternalServerError) && db.store == old(db.store)
      ensures resp == Answered(StatusNoContent) <==> tapID in old(db.store.taps) && commitOk
      ensures resp == Answered(StatusNoContent) ==> db.store == DeleteTap(old(db.store), tapID)
      ensures cancelled == old(cancelled) +
        if resp == Answered(StatusNoContent) && tapID in tapCancels then [tapCancels[tapID]] else []
    {
      if tapID !in db.store.taps {
        return Answered(StatusNotFound);
      }
      if !commitOk {
        return Answered(StatusInternalServerError);
      }
      db.store := DeleteTap(db.store, tapID);
      if tapID in tapCancels {
        cancelled := cancelled + [tapCancels[tapID]];
      }
      resp := Answered(StatusNoContent);
    }

    /** `startTaps`: in key order, create a context and start the tap, registering its
        cancel function; the first failure ends the scan with an error, and then every
        context created in the scan is cancelled, last first, by the deferred calls
        (the failing tap's included). Entries registered before the failure stay. */
    method StartTaps(starts: string -> bool) returns (err: Option<string>, started: seq<string>)
      requires Valid()
      modifies this
      ensures Valid()
      ensures var ks, n := db.store.keys, FirstFailure(db.store.keys, starts);
        started == ks[..if n < |ks| then n + 1 else n]
      ensures var ks, n := db.store.keys, FirstFailure(db.store.keys, starts);
        && (err.None? <==> n == |ks|)
        && (err.Some? ==> err.value == "could not start tap for " + ks[n])
      ensures var ks, n := db.store.keys, FirstFailure(db.store.keys, starts);
        nextHandle == old(nextHandle) + (if n < |ks| then n + 1 else n)
      ensures tapCancels == Registered(old(tapCancels), db.store.keys, old(nextHandle), FirstFailure(db.store.keys, starts))
      ensures var ks, n := db.store.keys, FirstFailure(db.store.keys, starts);
        cancelled == old(cancelled) + (if n < |ks| then Descending(old(nextHandle), n + 1) else [])
    {
      var ks := db.store.keys;
      ghost var n := FirstFailure(ks, starts);
      var base := nextHandle;
      var i := 0;
      err, started := None, [];
      while i < |ks|
        invariant i <= n
        invariant started == ks[..i]
        invariant nextHandle == base + i
        invariant tapCancels == Registered(old(tapCancels), ks, base, i)
        invariant cancelled == old(cancelled)
        decreases |ks| - i
      {
        var cancel := nextHandle;
        nextHandle := nextHandle + 1;
        assert ks[..i + 1] == ks[..i] + [ks[i]];
        started := started + [ks[i]];
        if !starts(ks[i]) {
          err := Some("could not start tap for " + ks[i]);
          cancelled := cancelled + Descending(base, i + 1);
          RegisteredBelow(old(tapCancels), ks, base, i);
          assert i == n;
          return;
        }
        tapCancels := tapCancels[ks[i] := cancel];
        i := i + 1;
      }
      assert ks[..i] == ks && i == n;
      RegisteredBelow(old(tapCancels), ks, base, i);
    }
  }

  /** A deleted tap is never listed again, from any cursor. */
  lemma DeletedNotListed(s: Store, id: string, cursor: string)
    requires WellFormed(s) && Page(DeleteTap(s, id), cursor).Ok?
    ensures forall e :: e in Page(DeleteTap(s, id), cursor).value.entries ==> e.id != id
  {
    var t := DeleteTap(s, id);
    PageEntries(t, cursor);
    var es, start := Page(t, cursor).value.entries, StartIndex(t.keys, cursor);
    forall e | e in es ensures e.id != id {
      var i :| 0 <= i < |es| && es[i] == e;
      assert EntryAt(t, start, es, i);
    }
  }

  /** A created tap shows up, with its name and webhook URL, in a listing of all keys
      that succeeds. */
  lemma CreatedIsListed(s: Store, id: string, opts: TapOptions)
    requires WellFormed(s) && s.root && id !in s.taps
    requires Entries(CreateTap(s, id, opts), 0, |CreateTap(s, id, opts).keys|).Ok?
    ensures EntryFor(id, opts) in Entries(CreateTap(s, id, opts), 0, |CreateTap(s, id, opts).keys|).value
  {
    var t := CreateTap(s, id, opts);
    EntriesMeaning(t, 0, |t.keys|);
    var j :| 0 <= j < |t.keys| && t.keys[j] == id;
    assert EntryAt(t, 0, Entries(t, 0, |t.keys|).value, j);
  }
}
