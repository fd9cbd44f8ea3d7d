/**
 Splitting a draft section into pages whose header contains the total number of pages. The number is
 found by repeating the split with the last total until it does not change.
 */
module ReviewPages {
  import opened Decimals
  import opened Wrappers

  const PAGE_LIMIT := 1800
  const ROUNDS := 64

  /* ---------- the split for a given width of the total ---------- */

  /** The header around the two numbers: `page: <page>/<total>`. */
  datatype Header = Header(before: string, after: string) {
    function Text(page: nat, total: nat): (r: string)
      ensures |r| == |before| + |Decimal(page)| + 1 + |Decimal(total)| + |after|
    {
      before + Decimal(page) + "/" + Decimal(total) + after
    }

    function Capacity(page: nat, width: nat): int {
      PAGE_LIMIT - (|before| + |Decimal(page)| + 1 + width + |after|)
    }
  }

  function Longer(chunk: string, rest: Option<seq<string>>): Option<seq<string>> {
    if rest.Some? then Some([chunk] + rest.value) else None
  }

  /** The chunks from this page on when the total is written with this many digits; None if a header leaves no room. */
  function Cut(h: Header, content: string, page: nat, width: nat): Option<seq<string>>
    decreases |content|
  {
    var capacity := h.Capacity(page, width);
    if capacity <= 0 then None
    else if |content| <= capacity then Some([content])
    else Longer(content[..capacity], Cut(h, content[capacity..], page + 1, width))
  }

  function Join(chunks: seq<string>): string {
    if chunks == [] then "" else chunks[0] + Join(chunks[1..])
  }

  predicate FitAll(h: Header, chunks: seq<string>, page: nat, width: nat) {
    forall i :: 0 <= i < |chunks| ==> |chunks[i]| <= h.Capacity(page + i, width)
  }

  // Every chunk but the last takes all the room its header leaves.
  predicate FullButLast(h: Header, chunks: seq<string>, page: nat, width: nat) {
    forall i :: 0 <= i < |chunks| - 1 ==> |chunks[i]| == h.Capacity(page + i, width)
  }

  function AtLeastOne(n: nat): nat {
    if n == 0 then 1 else n
  }

  /** The chunks make up the content, fit under their headers, and are no more than its characters. */
  lemma {:induction false} CutIs(h: Header, content: string, page: nat, width: nat)
    requires Cut(h, content, page, width).Some?
    ensures var chunks := Cut(h, content, page, width).value;
            && Join(chunks) == content && 1 <= |chunks| <= AtLeastOne(|content|)
            && FitAll(h, chunks, page, width) && FullButLast(h, chunks, page, width)
    decreases |content|
  {
    var capacity := h.Capacity(page, width);
    var chunks := Cut(h, content, page, width).value;
    if |content| <= capacity {
      assert Join([content]) == content + Join([]);
    } else {
      CutIs(h, content[capacity..], page + 1, width);
      OneMorePage(h, content[..capacity], Cut(h, content[capacity..], page + 1, width).value, page, width);
    }
  }

  lemma OneMorePage(h: Header, chunk: string, rest: seq<string>, page: nat, width: nat)
    requires |chunk| == h.Capacity(page, width) && rest != []
    requires FitAll(h, rest, page + 1, width) && FullButLast(h, rest, page + 1, width)
    ensures FitAll(h, [chunk] + rest, page, width) && FullButLast(h, [chunk] + rest, page, width)
    ensures Join([chunk] + rest) == chunk + Join(rest)
  {
    hide Header.Capacity, Join;
    var chunks := [chunk] + rest;
    assert chunks[1..] == rest;
    JoinHead(chunks);
    forall i | 0 <= i < |chunks|
      ensures |chunks[i]| <= h.Capacity(page + i, width)
      ensures i < |chunks| - 1 ==> |chunks[i]| == h.Capacity(page + i, width)
    {
      if i > 0 {
        assert chunks[i] == rest[i - 1];
        assert page + 1 + (i - 1) == page + i;
      }
    }
  }

  lemma JoinHead(chunks: seq<string>)
    requires chunks != []
    ensures Join(chunks) == chunks[0] + Join(chunks[1..])
  {
  }

  /** A wider total or more content never needs fewer pages, and makes room in a header no likelier. */
  lemma {:induction false} CutMonotone(h: Header, c: string, d: string, page: nat, w: nat, v: nat)
    requires |c| <= |d| && w <= v && Cut(h, d, page, v).Some?
    ensures Cut(h, c, page, w).Some? && |Cut(h, c, page, w).value| <= |Cut(h, d, page, v).value|
    decreases |d|
  {
    CutIs(h, d, page, v);
    var a, b := h.Capacity(page, w), h.Capacity(page, v);
    if |c| > a {
      CutMonotone(h, c[a..], d[b..], page + 1, w, v);
    }
  }

  /** A split fails only when some header would leave no room, so the widest header would not either. */
  lemma {:induction false} CutFails(h: Header, content: string, page: nat, width: nat, last: nat)
    requires Cut(h, content, page, width).None? && page + AtLeastOne(|content|) <= last + 1
    ensures h.Capacity(last, width) <= 0
    decreases |content|
  {
    var capacity := h.Capacity(page, width);
    if capacity <= 0 {
      WiderIfLarger(page, last);
    } else {
      CutFails(h, content[capacity..], page + 1, width, last);
    }
  }

  /* ---------- the paginator ---------- */

  datatype Outcome = Pages(chunks: seq<string>) | HeaderTooLong | NotConverged | PageTooLong | Incomplete

  function Chained(chunks: seq<string>, rest: Option<seq<string>>): Option<seq<string>> {
    if rest.Some? then Some(chunks + rest.value) else None
  }

  /** The result of the split still to come, with these chunks done. */
  function ToCome(
    h: Header, content: string, offset: nat, page: nat, width: nat, chunks: seq<string>): Option<seq<string>>
    requires offset <= |content|
  {
    if offset < |content| || chunks == [] then Chained(chunks, Cut(h, content[offset..], page, width)) else Some(chunks)
  }

  lemma CutOnce(h: Header, content: string, offset: nat, page: nat, width: nat, chunks: seq<string>, stop: nat)
    requires offset < |content| || (chunks == [] && offset <= |content|)
    requires var c := h.Capacity(page, width);
             c > 0 && stop == if offset + c <= |content| then offset + c else |content|
    ensures ToCome(h, content, stop, page + 1, width, chunks + [content[offset..stop]]) ==
            ToCome(h, content, offset, page, width, chunks)
  {
    var left, chunk := content[offset..], content[offset..stop];
    var capacity := h.Capacity(page, width);
    var rest := Cut(h, content[stop..], page + 1, width);
    if |left| <= capacity {
      assert chunk == left && Cut(h, left, page, width) == Some([chunk]);
    } else {
      assert left[..capacity] == chunk && left[capacity..] == content[stop..];
      assert Cut(h, left, page, width) == Longer(chunk, rest);
      hide Cut;
      assert rest.Some? ==> chunks + ([chunk] + rest.value) == (chunks + [chunk]) + rest.value;
    }
  }

  method SplitOnce(h: Header, content: string, totalHint: nat) returns (r: Option<seq<string>>)
    ensures r == Cut(h, content, 1, |Decimal(totalHint)|)
  {
    ghost var width := |Decimal(totalHint)|;
    ghost var whole := Cut(h, content, 1, width);
    var chunks: seq<string> := [];
    var offset, page := 0, 1;
    assert content[0..] == content;
    assert whole.Some? ==> [] + whole.value == whole.value;
    while offset < |content| || chunks == []
      invariant offset <= |content|
      invariant ToCome(h, content, offset, page, width, chunks) == whole
      decreases |content| - offset, if chunks == [] then 1 else 0
    {
      var capacity := PAGE_LIMIT - |h.Text(page, totalHint)|;
      if capacity <= 0 {
        return None;
      }
      var stop := if offset + capacity <= |content| then offset + capacity else |content|;
      CutOnce(h, content, offset, page, width, chunks, stop);
      chunks := chunks + [content[offset..stop]];
      offset := stop;
      page := page + 1;
    }
    r := Some(chunks);
  }

  /**
   The total settles in at most one round more than the content's length has digits, so the 64 rounds
   suffice for every content shorter than 10^63; the checks afterwards never fail; the pages make up the
   content, and each but the last has exactly 1800 characters together with its header. A header is found
   too long only when the one with the largest possible numbers is.
   */
  method Paginate(h: Header, content: string) returns (outcome: Outcome, rounds: nat)
    ensures match outcome
            case Pages(chunks) =>
              chunks != [] && Join(chunks) == content && WellFilled(h, chunks)
            case HeaderTooLong => |h.Text(AtLeastOne(|content|), AtLeastOne(|content|))| >= 1800
            case NotConverged => |content| >= Pow10(ROUNDS - 1)
            case _ => false
    ensures outcome.Pages? ==> rounds <= |Decimal(AtLeastOne(|content|))| + 1
  {
    hide WellFilled, FitAll, FullButLast;
    var totalHint := 1;
    var chunks: seq<string> := [];
    ghost var widest := |Decimal(AtLeastOne(|content|))|;
    // the width the current hint was computed with, when it was
    ghost var width := 1;
    rounds := 0;
    var converged := false;
    WiderIfLarger(1, AtLeastOne(|content|));
    while rounds < ROUNDS && !converged
      invariant rounds <= ROUNDS && 1 <= totalHint <= AtLeastOne(|content|)
      invariant !converged ==> rounds <= width <= |Decimal(totalHint)| <= widest
      invariant rounds == 0 ==> totalHint == 1 && !converged
      invariant !converged && rounds > 0 ==>
                  Cut(h, content, 1, width).Some? && totalHint == |Cut(h, content, 1, width).value|
      invariant converged ==> Cut(h, content, 1, |Decimal(totalHint)|) == Some(chunks) && |chunks| == totalHint
      invariant rounds <= widest + 1
      decreases ROUNDS - rounds, !converged
    {
      WiderIfLarger(totalHint, AtLeastOne(|content|));
      var split := SplitOnce(h, content, totalHint);
      if split.None? {
        NoRoom(h, content, |Decimal(totalHint)|, widest);
        CutFails(h, content, 1, widest, AtLeastOne(|content|));
        return HeaderTooLong, rounds;
      }
      chunks := split.value;
      CutIs(h, content, 1, |Decimal(totalHint)|);
      if |chunks| == totalHint {
        converged := true;
      } else {
        if rounds > 0 {
          CutMonotone(h, content, content, 1, width, |Decimal(totalHint)|);
        }
        WiderIfLarger(totalHint, |chunks|);
        width := |Decimal(totalHint)|;
        totalHint := |chunks|;
        WiderIfLarger(totalHint, AtLeastOne(|content|));
      }
      rounds := rounds + 1;
    }
    if !converged {
      WidthBound(AtLeastOne(|content|), ROUNDS - 1);
      assert |Decimal(1)| == 1;
      return NotConverged, rounds;
    }
    outcome := CheckPages(h, content, chunks);
  }

  // Each page fits, and all but the last are full.
  predicate WellFilled(h: Header, chunks: seq<string>) {
    && (forall i :: 0 <= i < |chunks| ==> |h.Text(i + 1, |chunks|) + chunks[i]| <= PAGE_LIMIT)
    && (forall i :: 0 <= i < |chunks| - 1 ==> |h.Text(i + 1, |chunks|) + chunks[i]| == 1800)
  }

  // The checks at the end.
  method CheckPages(h: Header, content: string, chunks: seq<string>) returns (outcome: Outcome)
    requires Cut(h, content, 1, |Decimal(|chunks|)|) == Some(chunks)
    ensures outcome == Pages(chunks) && chunks != [] && Join(chunks) == content && WellFilled(h, chunks)
  {
    CutIs(h, content, 1, |Decimal(|chunks|)|);
    var i := 0;
    while i < |chunks|
      invariant i <= |chunks|
    {
      assert |chunks[i]| <= h.Capacity(1 + i, |Decimal(|chunks|)|);
      if |h.Text(i + 1, |chunks|) + chunks[i]| > PAGE_LIMIT {
        return PageTooLong;
      }
      i := i + 1;
    }
    if Join(chunks) != content {
      return Incomplete;
    }
    assert forall k :: 0 <= k < |chunks| ==> |chunks[k]| <= h.Capacity(1 + k, |Decimal(|chunks|)|);
    assert forall k :: 0 <= k < |chunks| - 1 ==> |chunks[k]| == h.Capacity(1 + k, |Decimal(|chunks|)|);
    return Pages(chunks);
  }

  lemma NoRoom(h: Header, content: string, w: nat, v: nat)
    requires w <= v && Cut(h, content, 1, w).None?
    ensures Cut(h, content, 1, v).None?
  {
    if Cut(h, content, 1, v).Some? {
      CutMonotone(h, content, content, 1, w, v);
    }
  }
}
