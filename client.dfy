/** The client's listing loop (client/list.go): request pages, starting from the
    empty cursor and resuming from each page's cursor, until a page comes back
    without one. The HTTP request behind each page is replaced by the server's page
    function over one fixed store. */
module Client {
  import opened Wrappers
  import opened Data
  import opened KeyOrder
  import opened Registry
  import opened Listing

  /** Request `i + 1` resumes from the cursor of page `i`, which was not the last. */
  ghost predicate Resumes(s: Store, requests: seq<string>, i: nat)
    requires WellFormed(s) && i + 1 < |requests|
  {
    Page(s, requests[i]).Ok? && Page(s, requests[i]).value.cursor == requests[i + 1] != ""
  }

  /** One round of the loop: the page read from `cursor` extends the decoded prefix of
      the keys, and its cursor either ends the listing at the last key or resumes
      strictly further on. */
  lemma PageExtends(s: Store, cursor: string, entries: seq<TapListEntry>)
    requires WellFormed(s) && Page(s, cursor).Ok?
    requires Entries(s, 0, StartIndex(s.keys, cursor)) == Ok(entries)
    ensures var end, p := WindowEnd(s, cursor), Page(s, cursor).value;
      && Entries(s, 0, end) == Ok(entries + p.entries)
      && (p.cursor == "" ==> end == |s.keys|)
      && (p.cursor != "" ==> StartIndex(s.keys, p.cursor) == end > StartIndex(s.keys, cursor))
  {
    var pos, end := StartIndex(s.keys, cursor), WindowEnd(s, cursor);
    PageCursor(s, cursor);
    EntriesAppend(s, 0, pos, end);
    if Page(s, cursor).value.cursor != "" {
      StartIndexAfterKey(s.keys, end - 1);
    }
  }

  /** Whether request `i` resumes into request `i + 1` depends on those two requests only. */
  lemma ResumesLocal(s: Store, a: seq<string>, b: seq<string>, i: nat)
    requires WellFormed(s) && i + 1 < |a| && i + 1 < |b| && a[i] == b[i] && a[i + 1] == b[i + 1]
    ensures Resumes(s, a, i) == Resumes(s, b, i)
  {
  }

  /** Each request after the first resumes from the cursor of the page before it. */
  ghost predicate Chain(s: Store, requests: seq<string>)
    requires WellFormed(s)
    decreases |requests|
  {
    |requests| <= 1 || (Chain(s, requests[..|requests| - 1]) && Resumes(s, requests, |requests| - 2))
  }

  /** A request that resumes from the last page's cursor extends the chain. */
  lemma ChainExtend(s: Store, requests: seq<string>, cursor: string)
    requires WellFormed(s) && Chain(s, requests)
    requires requests != [] ==>
      Page(s, requests[|requests| - 1]).Ok? && Page(s, requests[|requests| - 1]).value.cursor == cursor != ""
    ensures Chain(s, requests + [cursor])
  {
    var next := requests + [cursor];
    assert next[..|requests|] == requests;
    if requests != [] {
      assert next[|requests| - 1] == requests[|requests| - 1] && next[|requests|] == cursor;
      assert Resumes(s, next, |requests| - 1);
    }
  }

  /** A chain of requests: request `i + 1` carries the non-empty cursor of page `i`. */
  lemma {:induction false} ChainResumes(s: Store, requests: seq<string>)
    requires WellFormed(s) && Chain(s, requests)
    ensures forall i :: 0 <= i < |requests| - 1 ==> Resumes(s, requests, i)
    decreases |requests|
  {
    if |requests| > 1 {
      var prev := requests[..|requests| - 1];
      ChainResumes(s, prev);
      forall i | 0 <= i < |requests| - 2 ensures Resumes(s, requests, i) {
        ResumesLocal(s, prev, requests, i);
      }
    }
  }

  /** `(*Client).List`. Besides the entries, `requests` gives the cursor sent with each
      page request, in order. Against a store that does not change in between, every
      tap is returned exactly once, in key order. */
  method List(s: Store) returns (r: Result<seq<TapListEntry>, ListError>, requests: seq<string>)
    requires WellFormed(s)
    ensures |requests| >= 1 && requests[0] == ""
    ensures Chain(s, requests)
    ensures r.Ok? ==> Page(s, requests[|requests| - 1]).Ok? && Page(s, requests[|requests| - 1]).value.cursor == ""
    ensures r.Err? ==> Page(s, requests[|requests| - 1]) == Err(r.error)
    ensures r == Entries(s, 0, |s.keys|)
  {
    var entries: seq<TapListEntry> := [];
    var cursor := "";
    ghost var pos := 0;
    requests := [];
    while true
      invariant pos == StartIndex(s.keys, cursor) <= |s.keys|
      invariant Entries(s, 0, pos) == Ok(entries)
      invariant requests == [] <==> cursor == ""
      invariant requests != [] ==> requests[0] == ""
      invariant requests != [] ==>
        Page(s, requests[|requests| - 1]).Ok? && Page(s, requests[|requests| - 1]).value.cursor == cursor
      invariant Chain(s, requests)
      decreases |s.keys| - pos
    {
      var page := Page(s, cursor);
      ChainExtend(s, requests, cursor);
      requests := requests + [cursor];
      if page.Err? {
        EntriesAppend(s, 0, pos, WindowEnd(s, cursor));
        EntriesErrSticks(s, 0, WindowEnd(s, cursor), |s.keys|);
        r := Err(page.error);
        return;
      }
      PageExtends(s, cursor, entries);
      entries := entries + page.value.entries;
      if page.value.cursor == "" {
        break;
      }
      pos := WindowEnd(s, cursor);
      cursor := page.value.cursor;
    }
    r := Ok(entries);
  }

  /** A complete listing names the taps in strictly ascending key order, so none twice. */
  lemma ListingInOrder(s: Store)
    requires WellFormed(s) && Entries(s, 0, |s.keys|).Ok?
    ensures var es := Entries(s, 0, |s.keys|).value;
      forall i, j :: 0 <= i < j < |es| ==> Less(es[i].id, es[j].id)
  {
    EntriesMeaning(s, 0, |s.keys|);
    var es := Entries(s, 0, |s.keys|).value;
    forall i, j | 0 <= i < j < |es| ensures Less(es[i].id, es[j].id) {
      assert EntryAt(s, 0, es, i) && EntryAt(s, 0, es, j);
    }
  }
}
