/** Resumable listing of the registry (server/handler_list.go): a page starts just
    after the cursor, holds at most 100 taps in key order, and carries the last key
    as the next cursor unless the iterator ran out. */
module Listing {
  import opened Wrappers
  import opened Data
  import opened KeyOrder
  import opened Registry

  const PageLimit: nat := 100

  /** Where the iterator's `Seek(c)` lands: the first position whose key is not below `c`. */
  function Seek(ks: seq<string>, c: string): (r: nat)
    ensures r <= |ks|
    ensures forall i :: 0 <= i < r ==> Less(ks[i], c)
    ensures r < |ks| ==> !Less(ks[r], c)
    decreases |ks|
  {
    if ks == [] || !Less(ks[0], c) then 0 else 1 + Seek(ks[1..], c)
  }

  /** The first position a page reads: the first key for an empty cursor, otherwise
      the seek position, stepped past the cursor's own key if it is still there. */
  function StartIndex(ks: seq<string>, cursor: string): (r: nat)
    ensures r <= |ks|
  {
    if cursor == "" then 0
    else
      var i := Seek(ks, cursor);
      if i < |ks| && ks[i] == cursor then i + 1 else i
  }

  /** In key order, a non-empty cursor splits the keys into those at or below it
      and those strictly above it, whether or not the cursor is itself a key. */
  lemma StartIndexSplits(ks: seq<string>, cursor: string)
    requires Increasing(ks) && cursor != ""
    ensures forall i :: 0 <= i < StartIndex(ks, cursor) ==> !Less(cursor, ks[i])
    ensures forall i :: StartIndex(ks, cursor) <= i < |ks| ==> Less(cursor, ks[i])
  {
    var s, p := StartIndex(ks, cursor), Seek(ks, cursor);
    forall i | 0 <= i < s
      ensures !Less(cursor, ks[i])
    {
      if i < p {
        LessAsymmetric(ks[i], cursor);
      } else {
        LessIrreflexive(cursor);
      }
    }
    forall i | s <= i < |ks|
      ensures Less(cursor, ks[i])
    {
      LessTotal(cursor, ks[p]);
      if ks[p] == cursor {
        assert p < i;
      } else if p < i {
        LessTransitive(cursor, ks[p], ks[i]);
      }
    }
  }

  /** Resuming from a returned key reads on from the very next key. */
  lemma StartIndexAfterKey(ks: seq<string>, j: nat)
    requires Increasing(ks) && j < |ks| && ks[j] != ""
    ensures StartIndex(ks, ks[j]) == j + 1
  {
    var s := StartIndex(ks, ks[j]);
    StartIndexSplits(ks, ks[j]);
    LessIrreflexive(ks[j]);
    if j + 1 < |ks| {
      assert Less(ks[j], ks[j + 1]);
    }
  }

  /** Why a listing failed: the options of this tap did not decode. */
  datatype ListError = Unparseable(id: string)

  function EntryFor(id: string, opts: TapOptions): TapListEntry
  {
    TapListEntry(id, opts.name, opts.webhookURL)
  }

  /** The options of the key at position `j` decode. */
  predicate DecodesAt(s: Store, j: nat)
    requires WellFormed(s) && j < |s.keys|
  {
    Decode(s.taps[s.keys[j]].options).Some?
  }

  /** Entry `i` of `es` is the listing entry of the key at position `lo + i`: its id
      is the key, its name and webhook URL come from the key's decoded options. */
  predicate EntryAt(s: Store, lo: nat, es: seq<TapListEntry>, i: nat)
  {
    && lo + i < |s.keys| && i < |es| && s.keys[lo + i] in s.taps
    && Decode(s.taps[s.keys[lo + i]].options).Some?
    && es[i] == EntryFor(s.keys[lo + i], Decode(s.taps[s.keys[lo + i]].options).value)
  }

  /** The entries for the keys at positions `lo` up to `hi`, decoded in order; the
      first key whose options do not decode aborts the whole run. */
  function Entries(s: Store, lo: nat, hi: nat): (r: Result<seq<TapListEntry>, ListError>)
    requires WellFormed(s) && lo <= hi <= |s.keys|
    ensures r.Ok? ==> |r.value| == hi - lo
    decreases hi
  {
    if hi == lo then Ok([])
    else
      match Entries(s, lo, hi - 1)
      case Err(e) => Err(e)
      case Ok(es) =>
        var k := s.keys[hi - 1];
        match Decode(s.taps[k].options)
        case None => Err(Unparseable(k))
        case Some(o) => Ok(es + [EntryFor(k, o)])
  }

  /** Position `j` holds the first key of the run from `lo` to `hi` whose options do not decode. */
  predicate FirstUndecodable(s: Store, lo: nat, hi: nat, j: nat)
    requires WellFormed(s) && hi <= |s.keys|
  {
    lo <= j < hi && !DecodesAt(s, j) && forall k :: lo <= k < j ==> DecodesAt(s, k)
  }

  /** A run of keys decodes exactly when every key's options decode; it then yields
      one entry per key, in order, and otherwise names the first key of the run
      that does not decode. */
  lemma {:induction false} EntriesMeaning(s: Store, lo: nat, hi: nat)
    requires WellFormed(s) && lo <= hi <= |s.keys|
    ensures var r := Entries(s, lo, hi);
      && (r.Ok? <==> forall j :: lo <= j < hi ==> DecodesAt(s, j))
      && (r.Ok? ==> forall i :: 0 <= i < hi - lo ==> EntryAt(s, lo, r.value, i))
      && (r.Err? ==> exists j: nat :: FirstUndecodable(s, lo, hi, j) && s.keys[j] == r.error.id)
    decreases hi
  {
    if hi > lo {
      EntriesMeaning(s, lo, hi - 1);
      if Entries(s, lo, hi - 1).Err? {
        var j: nat :| FirstUndecodable(s, lo, hi - 1, j) && s.keys[j] == Entries(s, lo, hi - 1).error.id;
        assert FirstUndecodable(s, lo, hi, j);
      } else if !DecodesAt(s, hi - 1) {
        assert FirstUndecodable(s, lo, hi, hi - 1);
      } else {
        var es := Entries(s, lo, hi - 1).value;
        var r := Entries(s, lo, hi).value;
        assert r == es + [EntryFor(s.keys[hi - 1], Decode(s.taps[s.keys[hi - 1]].options).value)];
        forall i | 0 <= i < hi - lo ensures EntryAt(s, lo, r, i) {
          if i < hi - 1 - lo {
            assert EntryAt(s, lo, es, i);
          }
        }
      }
    }
  }

  /** The last entry of a decoded run is the entry of its last key. */
  lemma EntriesLastId(s: Store, lo: nat, hi: nat)
    requires WellFormed(s) && lo < hi <= |s.keys| && Entries(s, lo, hi).Ok?
    ensures Entries(s, lo, hi).value[hi - lo - 1].id == s.keys[hi - 1]
  {
    EntriesMeaning(s, lo, hi);
    assert EntryAt(s, lo, Entries(s, lo, hi).value, hi - lo - 1);
  }

  /** Decoding two adjacent runs one after the other is decoding them as one run. */
  lemma {:induction false} EntriesAppend(s: Store, lo: nat, mid: nat, hi: nat)
    requires WellFormed(s) && lo <= mid <= hi <= |s.keys| && Entries(s, lo, mid).Ok?
    ensures Entries(s, lo, hi) ==
      match Entries(s, mid, hi)
      case Ok(y) => Ok(Entries(s, lo, mid).value + y)
      case Err(e) => Err(e)
    decreases hi
  {
    var x := Entries(s, lo, mid).value;
    if hi == mid {
      assert x + [] == x;
    } else {
      EntriesAppend(s, lo, mid, hi - 1);
      match Entries(s, mid, hi - 1)
      case Err(e) =>
      case Ok(y) =>
        var k := s.keys[hi - 1];
        match Decode(s.taps[k].options)
        case None =>
        case Some(o) =>
          assert (x + y) + [EntryFor(k, o)] == x + (y + [EntryFor(k, o)]);
    }
  }

  /** A run that fails keeps failing, with the same error, however far it is extended. */
  lemma {:induction false} EntriesErrSticks(s: Store, lo: nat, mid: nat, hi: nat)
    requires WellFormed(s) && lo <= mid <= hi <= |s.keys| && Entries(s, lo, mid).Err?
    ensures Entries(s, lo, hi) == Entries(s, lo, mid)
    decreases hi
  {
    if hi > mid {
      EntriesErrSticks(s, lo, mid, hi - 1);
    }
  }

  /** The last position a page reads, exclusive. */
  function WindowEnd(s: Store, cursor: string): (r: nat)
    ensures StartIndex(s.keys, cursor) <= r <= |s.keys|
  {
    var start := StartIndex(s.keys, cursor);
    if |s.keys| - start < PageLimit then |s.keys| else start + PageLimit
  }

  /** One page of `GET /taps?cursor=<cursor>`. */
  function Page(s: Store, cursor: string): (r: Result<TapListPage, ListError>)
    requires WellFormed(s)
    ensures r.Ok? ==> |r.value.entries| <= PageLimit
    ensures r.Ok? && r.value.cursor != "" ==>
      |r.value.entries| == PageLimit && r.value.cursor == r.value.entries[PageLimit - 1].id
  {
    var start, end := StartIndex(s.keys, cursor), WindowEnd(s, cursor);
    match Entries(s, start, end)
    case Err(e) => Err(e)
    case Ok(es) =>
      var next := if end - start == PageLimit then s.keys[end - 1] else "";
      assert next != "" ==> es[PageLimit - 1].id == next by {
        if next != "" { EntriesLastId(s, start, end); }
      }
      Ok(TapListPage(es, next))
  }

  /** A page holds the keys right after the start position, in key order, with name
      and webhook URL taken from that key's options. */
  lemma PageEntries(s: Store, cursor: string)
    requires WellFormed(s) && Page(s, cursor).Ok?
    ensures forall i :: 0 <= i < |Page(s, cursor).value.entries| ==>
      EntryAt(s, StartIndex(s.keys, cursor), Page(s, cursor).value.entries, i)
  {
    EntriesMeaning(s, StartIndex(s.keys, cursor), WindowEnd(s, cursor));
  }

  /** Every entry of a page resumed from a cursor lies strictly above that cursor,
      also when the cursor names a tap deleted since. */
  lemma PageAboveCursor(s: Store, cursor: string)
    requires WellFormed(s) && Page(s, cursor).Ok? && cursor != ""
    ensures forall e :: e in Page(s, cursor).value.entries ==> Less(cursor, e.id)
  {
    PageEntries(s, cursor);
    StartIndexSplits(s.keys, cursor);
    var es, start := Page(s, cursor).value.entries, StartIndex(s.keys, cursor);
    forall e | e in es ensures Less(cursor, e.id) {
      var i :| 0 <= i < |es| && es[i] == e;
      assert EntryAt(s, start, es, i);
    }
  }

  /** Key `ks[j]` is the entry of page `p` at its offset from `start`, or lies above
      the page's cursor. */
  predicate OnPageOrBeyond(p: TapListPage, start: nat, ks: seq<string>, j: nat)
    requires start <= j < |ks|
  {
    || (j - start < |p.entries| && p.entries[j - start].id == ks[j])
    || (p.cursor != "" && Less(p.cursor, ks[j]))
  }

  /** Nothing above the cursor is skipped: each such key is on the page, or lies
      above the returned cursor, from which the next page resumes. */
  lemma PageSkipsNothing(s: Store, cursor: string)
    requires WellFormed(s) && Page(s, cursor).Ok?
    ensures forall j :: StartIndex(s.keys, cursor) <= j < |s.keys| ==>
      OnPageOrBeyond(Page(s, cursor).value, StartIndex(s.keys, cursor), s.keys, j)
  {
    var start, end := StartIndex(s.keys, cursor), WindowEnd(s, cursor);
    EntriesMeaning(s, start, end);
    var p := Page(s, cursor).value;
    assert p.entries == Entries(s, start, end).value;
    forall j | start <= j < |s.keys|
      ensures OnPageOrBeyond(p, start, s.keys, j)
    {
      if j < end {
        assert EntryAt(s, start, p.entries, j - start);
      } else {
        assert end - start == PageLimit && p.cursor == s.keys[end - 1];
        assert Less(s.keys[end - 1], s.keys[j]);
      }
    }
  }

  /** The returned cursor is empty exactly when fewer than a full page of keys remained. */
  lemma PageCursor(s: Store, cursor: string)
    requires WellFormed(s) && Page(s, cursor).Ok?
    ensures Page(s, cursor).value.cursor == "" <==> |s.keys| - StartIndex(s.keys, cursor) < PageLimit
  {
    var start := StartIndex(s.keys, cursor);
    if |s.keys| - start >= PageLimit {
      assert Less(s.keys[start], s.keys[start + PageLimit - 1]);
    }
  }

  /** A page fails exactly when some definition inside its window does not decode,
      and then names such a tap. */
  lemma PageFails(s: Store, cursor: string)
    requires WellFormed(s)
    ensures Page(s, cursor).Err? <==>
      exists j :: StartIndex(s.keys, cursor) <= j < WindowEnd(s, cursor) && !DecodesAt(s, j)
    ensures Page(s, cursor).Err? ==>
      Page(s, cursor).error.id in s.keys && Decode(s.taps[Page(s, cursor).error.id].options).None?
    ensures Page(s, cursor).Err? ==> exists j: nat ::
      FirstUndecodable(s, StartIndex(s.keys, cursor), WindowEnd(s, cursor), j) && s.keys[j] == Page(s, cursor).error.id
  {
    EntriesMeaning(s, StartIndex(s.keys, cursor), WindowEnd(s, cursor));
  }

  /** A page that reaches exactly the last key still hands out that key as the cursor;
      the page after it is empty and ends the listing. */
  lemma ExactlyFullLastPage(s: Store, cursor: string)
    requires WellFormed(s)
    requires |s.keys| - StartIndex(s.keys, cursor) == PageLimit
    requires Page(s, cursor).Ok?
    ensures Page(s, cursor).value.cursor == s.keys[|s.keys| - 1] != ""
    ensures Page(s, Page(s, cursor).value.cursor) == Ok(TapListPage([], ""))
  {
    var start := StartIndex(s.keys, cursor);
    assert Less(s.keys[start], s.keys[|s.keys| - 1]);
    StartIndexAfterKey(s.keys, |s.keys| - 1);
  }
}
