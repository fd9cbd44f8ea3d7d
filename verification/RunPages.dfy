/**
 The newest-first listing of runs in pages: each page is read after the anchor in the cursor, checked,
 and handed out with the cursor of its last run when more runs follow.
 */
module RunPages {
  import opened Wrappers
  import opened RunCursor

  datatype Run = Run(startedAt: Time, runId: string) {
    function Key(): Cursor {
      Cursor(startedAt, runId)
    }
  }

  const PAGE_MAX := 20

  /* ---------- the listing order ---------- */

  /** Strings in code point order. */
  predicate Less(a: string, b: string) {
    b != "" && (a == "" || a[0] < b[0] || (a[0] == b[0] && Less(a[1..], b[1..])))
  }

  /** The first difference decides, and a proper beginning comes first. */
  lemma {:induction false} LessIs(a: string, b: string)
    ensures Less(a, b) <==> exists k :: 0 <= k <= |a| && k < |b| && a[..k] == b[..k] && (k < |a| ==> a[k] < b[k])
  {
    if b != "" && a == "" {
      assert a[..0] == b[..0];
    } else if a != "" && b != "" {
      LessIs(a[1..], b[1..]);
      if Less(a, b) {
        if a[0] < b[0] {
          assert a[..0] == b[..0];
        } else {
          var k :| 0 <= k <= |a[1..]| && k < |b[1..]| && a[1..][..k] == b[1..][..k]
                   && (k < |a[1..]| ==> a[1..][k] < b[1..][k]);
          assert a[..k + 1] == [a[0]] + a[1..][..k] && b[..k + 1] == [b[0]] + b[1..][..k];
        }
      }
      if k: nat :| k <= |a| && k < |b| && a[..k] == b[..k] && (k < |a| ==> a[k] < b[k]) {
        if k > 0 {
          assert a[..k][0] == b[..k][0] && a[..k][1..] == a[1..][..k - 1] && b[..k][1..] == b[1..][..k - 1];
          assert Less(a[1..], b[1..]);
        }
      }
    }
  }

  predicate Older(a: Cursor, b: Cursor) {
    a.startedAt < b.startedAt || (a.startedAt == b.startedAt && Less(a.runId, b.runId))
  }

  predicate Descending(runs: seq<Run>) {
    forall i, j :: 0 <= i < j < |runs| ==> Older(runs[j].Key(), runs[i].Key())
  }

  predicate AllOlder(runs: seq<Run>, anchor: Option<Cursor>) {
    anchor.Some? ==> forall i :: 0 <= i < |runs| ==> Older(runs[i].Key(), anchor.value)
  }

  lemma {:induction false} LessIsStrict(a: string)
    ensures !Less(a, a)
  {
    if a != "" {
      LessIsStrict(a[1..]);
    }
  }

  lemma {:induction false} LessChains(a: string, b: string, c: string)
    requires Less(a, b) && Less(b, c)
    ensures Less(a, c)
  {
    if a != "" && a[0] == b[0] == c[0] {
      LessChains(a[1..], b[1..], c[1..]);
    }
  }

  lemma OlderIsOrder(a: Cursor, b: Cursor, c: Cursor)
    ensures Older(a, b) && Older(b, c) ==> Older(a, c)
    ensures Older(a, b) ==> !Older(b, a) && a != b
  {
    LessIsStrict(a.runId);
    if Less(a.runId, b.runId) && Less(b.runId, c.runId) {
      LessChains(a.runId, b.runId, c.runId);
    }
    if Less(a.runId, b.runId) && Less(b.runId, a.runId) {
      LessChains(a.runId, b.runId, a.runId);
    }
  }

  // Later starts come first, and runs that started together in falling order of their ids.
  predicate Falling(runs: seq<Run>) {
    forall i, j :: 0 <= i < j < |runs| ==>
      && runs[j].startedAt <= runs[i].startedAt
      && (runs[j].startedAt == runs[i].startedAt ==> Less(runs[j].runId, runs[i].runId))
  }

  /** The listing order is newest first. */
  lemma NewestFirst(runs: seq<Run>)
    ensures Descending(runs) <==> Falling(runs)
  {
    if Descending(runs) {
      forall i, j | 0 <= i < j < |runs|
        ensures runs[j].startedAt <= runs[i].startedAt
        ensures runs[j].startedAt == runs[i].startedAt ==> Less(runs[j].runId, runs[i].runId)
      {
        assert Older(runs[j].Key(), runs[i].Key());
      }
    }
    if Falling(runs) {
      forall i, j | 0 <= i < j < |runs| ensures Older(runs[j].Key(), runs[i].Key()) {
        assert runs[j].startedAt <= runs[i].startedAt;
      }
    }
  }

  /** No run twice. */
  lemma DescendingHasNoDuplicates(runs: seq<Run>, i: nat, j: nat)
    requires Descending(runs) && i < j < |runs|
    ensures runs[i].Key() != runs[j].Key()
  {
    OlderIsOrder(runs[j].Key(), runs[i].Key(), runs[i].Key());
  }

  /* ---------- one page ---------- */

  /** The check compares neighbours only; it accepts exactly the pages the reader is allowed to return. */
  method ValidatePage(records: seq<Run>, limit: nat, anchor: Option<Cursor>) returns (valid: bool)
    ensures valid <==> |records| <= limit && Descending(records) && AllOlder(records, anchor)
  {
    if |records| > limit {
      return false;
    }
    var previous := anchor;
    var i := 0;
    while i < |records|
      invariant i <= |records| && Descending(records[..i]) && AllOlder(records[..i], anchor)
      invariant previous == if i == 0 then anchor else Some(records[i - 1].Key())
    {
      if previous.Some? && !Older(records[i].Key(), previous.value) {
        return false;
      }
      NeighboursSuffice(records, i, anchor);
      previous := Some(records[i].Key());
      i := i + 1;
    }
    assert records[..i] == records;
    valid := true;
  }

  lemma NeighboursSuffice(records: seq<Run>, i: nat, anchor: Option<Cursor>)
    requires i < |records| && Descending(records[..i]) && AllOlder(records[..i], anchor)
    requires var previous := if i == 0 then anchor else Some(records[i - 1].Key());
             previous.Some? ==> Older(records[i].Key(), previous.value)
    ensures Descending(records[..i + 1]) && AllOlder(records[..i + 1], anchor)
  {
    hide Older;
    if i > 0 {
      forall k | 0 <= k < i ensures Older(records[i].Key(), records[k].Key()) {
        OlderIsOrder(records[i].Key(), records[i - 1].Key(), records[k].Key());
        assert records[..i][k] == records[k] && records[..i][i - 1] == records[i - 1];
      }
      if anchor.Some? {
        OlderIsOrder(records[i].Key(), records[i - 1].Key(), anchor.value);
        assert records[..i][i - 1] == records[i - 1];
      }
    }
    forall a, c | 0 <= a < c < i ensures Older(records[c].Key(), records[a].Key()) {
      assert records[..i][a] == records[a] && records[..i][c] == records[c];
    }
    forall a | 0 <= a < i && anchor.Some? ensures Older(records[a].Key(), anchor.value) {
      assert records[..i][a] == records[a];
    }
  }

  datatype Page = Page(runs: seq<Run>, next: Option<string>)

  /** What the reader returned for one more than the limit becomes a page and the cursor of its last run. */
  method ReadPage(l: Library, records: seq<Run>, limit: nat, anchor: Option<Cursor>) returns (page: Option<Page>)
    requires l.Ok() && 1 <= limit <= PAGE_MAX && forall i :: 0 <= i < |records| ==> IsRunId(records[i].runId)
    ensures page.Some? <==> |records| <= limit + 1 && Descending(records) && AllOlder(records, anchor)
    ensures page.Some? ==>
              && page.value.runs == (if |records| > limit then records[..limit] else records)
              && (page.value.next.Some? <==> |records| > limit)
              && (page.value.next.Some? ==> DecodeCursor(l, page.value.next.value) == Some(records[limit - 1].Key()))
  {
    var valid := ValidatePage(records, limit + 1, anchor);
    if !valid {
      return None;
    }
    if |records| <= limit {
      return Some(Page(records, None));
    }
    var selected := records[..limit];
    var last := selected[limit - 1].Key();
    DecodeEncode(l, last);
    return Some(Page(selected, Some(EncodeCursor(last))));
  }

  /* ---------- following the cursors ---------- */

  /** A complete reader returns the newest runs older than the anchor. */
  function Newest(all: seq<Run>, limit: nat, anchor: Option<Cursor>): seq<Run> {
    if all == [] || limit == 0 then []
    else if !IsAfter(all[0], anchor) then Newest(all[1..], limit, anchor)
    else [all[0]] + Newest(all[1..], limit - 1, anchor)
  }

  function Upto(all: seq<Run>, from: nat, limit: nat): seq<Run>
    requires from <= |all|
  {
    if |all| - from > limit then all[from..from + limit] else all[from..]
  }

  // The runs after the anchor are exactly those from this position on.
  predicate SplitsAt(all: seq<Run>, from: nat, anchor: Option<Cursor>) {
    forall i :: 0 <= i < |all| ==> (IsAfter(all[i], anchor) <==> from <= i)
  }

  predicate IsAfter(run: Run, anchor: Option<Cursor>) {
    anchor.None? || Older(run.Key(), anchor.value)
  }

  lemma {:induction false} NewestFrom(all: seq<Run>, from: nat, limit: nat, anchor: Option<Cursor>)
    requires from <= |all| && SplitsAt(all, from, anchor)
    ensures Newest(all, limit, anchor) == Upto(all, from, limit)
    decreases |all|, limit
  {
    hide IsAfter;
    if all != [] && limit > 0 {
      var rest := all[1..];
      assert SplitsAt(rest, if from > 0 then from - 1 else 0, anchor) by {
        assert forall i :: 0 <= i < |rest| ==> rest[i] == all[i + 1];
      }
      if from > 0 {
        NewestFrom(rest, from - 1, limit, anchor);
        assert Upto(rest, from - 1, limit) == Upto(all, from, limit);
      } else {
        NewestFrom(rest, 0, limit - 1, anchor);
        assert [all[0]] + Upto(rest, 0, limit - 1) == Upto(all, 0, limit);
      }
    }
  }

  predicate Listed(all: seq<Run>) {
    Descending(all) && forall i :: 0 <= i < |all| ==> IsRunId(all[i].runId)
  }

  // What a complete reader returns after the first k runs is allowed, and is the next stretch of the list.
  lemma NextStretch(all: seq<Run>, k: nat, limit: nat, anchor: Option<Cursor>)
    requires Listed(all) && k <= |all|
    requires if anchor.None? then k == 0 else k > 0 && anchor == Some(all[k - 1].Key())
    ensures var records := Newest(all, limit, anchor);
            records == Upto(all, k, limit) && Descending(records) && AllOlder(records, anchor)
            && forall i :: 0 <= i < |records| ==> IsRunId(records[i].runId)
  {
    AnchorSplits(all, k, anchor);
    NewestFrom(all, k, limit, anchor);
    StretchDescends(all, k, limit);
    hide Older, IsRunId, Newest, Descending;
    var records := Upto(all, k, limit);
    forall i | 0 <= i < |records| ensures records[i] == all[k + i] && IsAfter(records[i], anchor) {
    }
  }

  lemma StretchDescends(all: seq<Run>, k: nat, limit: nat)
    requires Descending(all) && k <= |all|
    ensures Descending(Upto(all, k, limit))
  {
    hide Older;
    var records := Upto(all, k, limit);
    assert forall i :: 0 <= i < |records| ==> records[i] == all[k + i];
  }

  lemma AnchorSplits(all: seq<Run>, k: nat, anchor: Option<Cursor>)
    requires Descending(all) && k <= |all|
    requires if anchor.None? then k == 0 else k > 0 && anchor == Some(all[k - 1].Key())
    ensures SplitsAt(all, k, anchor)
  {
    hide Older;
    forall i | 0 <= i < |all| ensures IsAfter(all[i], anchor) <==> k <= i {
      if anchor.Some? {
        OlderIsOrder(all[i].Key(), all[k - 1].Key(), all[i].Key());
        OlderIsOrder(all[k - 1].Key(), all[i].Key(), all[i].Key());
      }
    }
  }

  // The anchor a token stands for; no token, the start.
  function Anchor(l: Library, token: Option<string>): Option<Cursor> {
    if token.None? then None else DecodeCursor(l, token.value)
  }

  // The token leads to the runs after the first k.
  predicate LeadsTo(l: Library, all: seq<Run>, k: nat, token: Option<string>)
    requires k <= |all|
  {
    if token.None? then k == 0 else k > 0 && Anchor(l, token) == Some(all[k - 1].Key())
  }

  method FetchPage(l: Library, all: seq<Run>, ghost k: nat, limit: nat, token: Option<string>) returns (page: Page)
    requires l.Ok() && Listed(all) && k <= |all| && LeadsTo(l, all, k, token) && 1 <= limit <= PAGE_MAX
    ensures page.runs == Upto(all, k, limit)
    ensures page.next.Some? <==> |all| - k > limit
    ensures page.next.Some? ==> LeadsTo(l, all, k + limit, page.next)
  {
    hide Library.Ok, DecodeCursor, Newest, Older, IsRunId;
    var anchor := Anchor(l, token);
    NextStretch(all, k, limit + 1, anchor);
    hide Descending, AllOlder, Listed;
    assert k < |all| - limit ==> Upto(all, k, limit + 1)[..limit] == Upto(all, k, limit);
    var read := ReadPage(l, Newest(all, limit + 1, anchor), limit, anchor);
    page := read.value;
  }

  /**
   From the first page on, with any page sizes, the cursors lead through every run exactly once, newest
   first, and come to an end.
   */
  method FollowAll(l: Library, all: seq<Run>, limits: seq<nat>) returns (seen: seq<Run>, pages: nat)
    requires l.Ok() && Listed(all)
    requires |limits| > |all| && forall i :: 0 <= i < |limits| ==> 1 <= limits[i] <= PAGE_MAX
    ensures seen == all && 1 <= pages <= |all| + 1
  {
    hide Library.Ok, Listed, DecodeCursor;
    seen, pages := [], 0;
    var token: Option<string> := None;
    var more := true;
    while more
      invariant |seen| <= |all| && seen == all[..|seen|] && pages <= |seen| + (if more then 0 else 1)
      invariant if more then LeadsTo(l, all, |seen|, token) else seen == all && pages >= 1
      decreases |all| - |seen|, more
    {
      var page := FetchPage(l, all, |seen|, limits[pages], token);
      assert all[..|seen|] + Upto(all, |seen|, limits[pages]) == all[..|seen| + |page.runs|];
      seen := seen + page.runs;
      token := page.next;
      more := token.Some?;
      pages := pages + 1;
    }
  }
}
