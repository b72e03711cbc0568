/** Packing one level of the index into pages.

    Entries are taken in input order. The first entry of a page, its head,
    is written as two absolute numbers. Each later entry is written as a key
    delta and an offset delta against the entry before it, as long as the
    pair still fits into the page; otherwise the page is padded with zeros
    and the entry becomes the head of the next page.
 */
module PackLevel {
  import opened Padding
  import opened VarNumber
  import opened Pages

  /** Writer position, bytes used in the current page (`currentPageSize`), pages so far. */
  datatype PackState = PackState(pos: nat, used: nat, pages: seq<Page>)

  /** Handles one entry `e`, whose predecessor in the input is `prev`.

      A delta pair is appended exactly when the current page already has
      an entry and the pair fits into what remains of it; in every other
      case `e` opens a new page at the (padded) writer position.
   */
  function Step(enc: Encoding, pageSize: nat, st: PackState, prev: Entry, e: Entry): (r: PackState)
    requires Fits(enc, pageSize)
    requires prev.key <= e.key && prev.offset <= e.offset
    requires st.used > 0 ==> |st.pages| > 0
    ensures (st.used > 0 && st.used + PairBytes(enc, DeltaOf(prev, e)) <= pageSize)
            <==> |r.pages| == |st.pages|
    ensures |r.pages| == |st.pages| ==>
              r.pages == AppendDelta(st.pages, DeltaOf(prev, e))
              && r.pos == st.pos + PairBytes(enc, DeltaOf(prev, e))
              && r.used == st.used + PairBytes(enc, DeltaOf(prev, e))
    ensures |r.pages| == |st.pages| || |r.pages| == |st.pages| + 1
    ensures |r.pages| == |st.pages| + 1 ==>
              r.pages == st.pages + [Page(r.pages[|st.pages|].start, e, [])]
              && r.pos == r.pages[|st.pages|].start + HeadBytes(enc, e)
              && r.pages[|st.pages|].start == (if st.used == 0 then st.pos else PadToPage(st.pos, pageSize))
              && r.used == r.pos % pageSize
  {
    var afterDelta :=
      if st.used == 0 then st
      else
        var d := DeltaOf(prev, e);
        var size := PairBytes(enc, d);
        if st.used + size > pageSize then PackState(PadToPage(st.pos, pageSize), 0, st.pages)
        else PackState(st.pos + size, st.used + size, AppendDelta(st.pages, d));
    if afterDelta.used == 0 then
      var endPos := afterDelta.pos + HeadBytes(enc, e);
      PackState(endPos, endPos % pageSize, afterDelta.pages + [Page(afterDelta.pos, e, [])])
    else afterDelta
  }

  /** The state after packing all of `es`, starting at writer position `base`. */
  function Pack(enc: Encoding, pageSize: nat, base: nat, es: seq<Entry>): (st: PackState)
    requires Fits(enc, pageSize)
    requires Ordered(es)
    ensures st.used > 0 ==> |st.pages| > 0
    ensures |es| > 0 <==> |st.pages| > 0
    decreases |es|
  {
    if |es| == 0 then PackState(base, 0, [])
    else
      var n := |es| - 1;
      var prev := if n > 0 then es[n - 1] else es[n];
      Step(enc, pageSize, Pack(enc, pageSize, base, es[..n]), prev, es[n])
  }

  /** What holds of the packing state after every entry. */
  ghost predicate Layout(enc: Encoding, pageSize: nat, base: nat, es: seq<Entry>, st: PackState)
    requires pageSize > 0
  {
    && Decode(st.pages) == es
    && st.pos >= base
    && (|st.pages| == 0 ==> st.pos == base && st.used == 0)
    && (|st.pages| > 0 ==>
          && st.pages[0].start == base
          && 0 < st.used <= pageSize
          && st.used == PageBytes(enc, st.pages[|st.pages| - 1])
          && st.pos == st.pages[|st.pages| - 1].start + st.used)
    && (forall j :: 0 <= j < |st.pages| ==>
          st.pages[j].start % pageSize == 0 && PageBytes(enc, st.pages[j]) <= pageSize)
    && (forall j :: 0 < j < |st.pages| ==> st.pages[j].start == st.pages[j - 1].start + pageSize)
    && (forall j :: 0 <= j < |st.pages| - 1 ==> |st.pages[j].deltas| > 0)
  }

  lemma OpenPage(enc: Encoding, pageSize: nat, at: nat, e: Entry)
    requires Valid(enc) && Fits(enc, pageSize) && at % pageSize == 0
    ensures HeadBytes(enc, e) + 2 * MaxDeltaBytes <= pageSize
    ensures (at + HeadBytes(enc, e)) % pageSize == HeadBytes(enc, e) > 0
  {
    OffsetInPage(at, HeadBytes(enc, e), pageSize);
  }

  /** Preconditions shared by the three cases of `StepLayout`. */
  ghost predicate StepReady(enc: Encoding, pageSize: nat, base: nat, es: seq<Entry>,
                            st: PackState, prev: Entry, e: Entry)
  {
    && Valid(enc) && Fits(enc, pageSize) && base % pageSize == 0
    && prev.key <= e.key && prev.offset <= e.offset
    && (|es| > 0 ==> prev == es[|es| - 1])
    && Layout(enc, pageSize, base, es, st)
  }

  lemma StepFirst(enc: Encoding, pageSize: nat, base: nat, es: seq<Entry>,
                  st: PackState, prev: Entry, e: Entry)
    requires StepReady(enc, pageSize, base, es, st, prev, e) && st.used == 0
    ensures Layout(enc, pageSize, base, es + [e], Step(enc, pageSize, st, prev, e))
  {
    assert |st.pages| == 0 && es == [];
    OpenPage(enc, pageSize, base, e);
    DecodeSnoc([], Page(base, e, []));
  }

  lemma StepDelta(enc: Encoding, pageSize: nat, base: nat, es: seq<Entry>,
                  st: PackState, prev: Entry, e: Entry)
    requires StepReady(enc, pageSize, base, es, st, prev, e) && st.used > 0
    requires st.used + PairBytes(enc, DeltaOf(prev, e)) <= pageSize
    ensures Layout(enc, pageSize, base, es + [e], Step(enc, pageSize, st, prev, e))
  {
    var r := Step(enc, pageSize, st, prev, e);
    var d := DeltaOf(prev, e);
    var m := |st.pages|;
    var last := st.pages[m - 1];
    var last' := Page(last.start, last.head, last.deltas + [d]);
    assert r.pages == st.pages[..m - 1] + [last'];
    assert Decode(r.pages) == es + [e] by {
      DecodeAppendDelta(st.pages, d);
      assert |es| > 0 && prev == es[|es| - 1];
    }
    assert r.used == PageBytes(enc, last') by {
      PageBytesAppend(enc, last, d);
    }
    assert |r.pages| == m && r.pages[m - 1] == last';
    assert forall j :: 0 <= j < m - 1 ==> r.pages[j] == st.pages[j];
    LayoutRefill(enc, pageSize, base, es, st, es + [e], r);
  }

  /** Growing the last page in place, without exceeding the page, keeps the layout. */
  lemma LayoutRefill(enc: Encoding, pageSize: nat, base: nat, es: seq<Entry>, st: PackState,
                     es': seq<Entry>, r: PackState)
    requires pageSize > 0 && Layout(enc, pageSize, base, es, st) && |st.pages| > 0
    requires |r.pages| == |st.pages|
    requires forall j :: 0 <= j < |st.pages| - 1 ==> r.pages[j] == st.pages[j]
    requires r.pages[|st.pages| - 1].start == st.pages[|st.pages| - 1].start
    requires Decode(r.pages) == es'
    requires 0 < r.used <= pageSize && r.used == PageBytes(enc, r.pages[|r.pages| - 1])
    requires r.pos == r.pages[|r.pages| - 1].start + r.used && r.pos >= base
    ensures Layout(enc, pageSize, base, es', r)
  {
  }

  /** A page is only closed once it holds a delta: a head alone always leaves room
      for the largest delta pair. */
  lemma ClosedPageHasDelta(enc: Encoding, pageSize: nat, base: nat, es: seq<Entry>,
                           st: PackState, prev: Entry, e: Entry)
    requires StepReady(enc, pageSize, base, es, st, prev, e) && st.used > 0
    requires st.used + PairBytes(enc, DeltaOf(prev, e)) > pageSize
    ensures |st.pages[|st.pages| - 1].deltas| > 0
  {
    var last := st.pages[|st.pages| - 1];
    if |last.deltas| == 0 {
      assert PageBytes(enc, last) == HeadBytes(enc, last.head);
      OpenPage(enc, pageSize, last.start, last.head);
      assert false;
    }
  }

  /** Opening a page for `e` one page after the last page keeps the layout. */
  lemma LayoutOpen(enc: Encoding, pageSize: nat, base: nat, es: seq<Entry>, st: PackState, e: Entry,
                   r: PackState)
    requires Valid(enc) && Fits(enc, pageSize) && base % pageSize == 0
    requires Layout(enc, pageSize, base, es, st) && |st.pages| > 0
    requires |st.pages[|st.pages| - 1].deltas| > 0
    requires var at := st.pages[|st.pages| - 1].start + pageSize;
             var h := HeadBytes(enc, e);
             r == PackState(at + h, h, st.pages + [Page(at, e, [])])
    ensures Layout(enc, pageSize, base, es + [e], r)
  {
    var m := |st.pages|;
    var at := st.pages[m - 1].start + pageSize;
    var h := HeadBytes(enc, e);
    var p := Page(at, e, []);
    var pages := r.pages;
    assert at % pageSize == 0 && 0 < h < pageSize by {
      NextPageAligned(st.pages[m - 1].start, pageSize);
      OpenPage(enc, pageSize, at, e);
    }
    assert Decode(pages) == es + [e] by {
      DecodeSnoc(st.pages, p);
    }
    assert PageBytes(enc, p) == h;
    LayoutAddPage(enc, pageSize, base, es, st, es + [e], r);
  }

  /** Adding a page that fits, one page after the last one, keeps the layout. */
  lemma LayoutAddPage(enc: Encoding, pageSize: nat, base: nat, es: seq<Entry>, st: PackState,
                      es': seq<Entry>, r: PackState)
    requires pageSize > 0 && Layout(enc, pageSize, base, es, st) && |st.pages| > 0
    requires |r.pages| == |st.pages| + 1
    requires forall j :: 0 <= j < |st.pages| ==> r.pages[j] == st.pages[j]
    requires |st.pages[|st.pages| - 1].deltas| > 0
    requires r.pages[|st.pages|].start == st.pages[|st.pages| - 1].start + pageSize
    requires r.pages[|st.pages|].start % pageSize == 0
    requires Decode(r.pages) == es'
    requires 0 < r.used <= pageSize && r.used == PageBytes(enc, r.pages[|st.pages|])
    requires r.pos == r.pages[|st.pages|].start + r.used
    ensures Layout(enc, pageSize, base, es', r)
  {
  }

  lemma StepOverflow(enc: Encoding, pageSize: nat, base: nat, es: seq<Entry>,
                     st: PackState, prev: Entry, e: Entry)
    requires StepReady(enc, pageSize, base, es, st, prev, e) && st.used > 0
    requires st.used + PairBytes(enc, DeltaOf(prev, e)) > pageSize
    ensures Layout(enc, pageSize, base, es + [e], Step(enc, pageSize, st, prev, e))
  {
    var r := Step(enc, pageSize, st, prev, e);
    var m := |st.pages|;
    var last := st.pages[m - 1];
    ClosedPageHasDelta(enc, pageSize, base, es, st, prev, e);
    var at := last.start + pageSize;
    var h := HeadBytes(enc, e);
    assert |r.pages| == m + 1;
    assert r.pages[m].start == at by {
      PadAfterPage(last.start, st.used, pageSize);
    }
    assert r.used == h by {
      NextPageAligned(last.start, pageSize);
      OpenPage(enc, pageSize, at, e);
    }
    assert r == PackState(at + h, h, st.pages + [Page(at, e, [])]);
    LayoutOpen(enc, pageSize, base, es, st, e, r);
  }

  lemma StepLayout(enc: Encoding, pageSize: nat, base: nat, es: seq<Entry>,
                   st: PackState, prev: Entry, e: Entry)
    requires StepReady(enc, pageSize, base, es, st, prev, e)
    ensures Layout(enc, pageSize, base, es + [e], Step(enc, pageSize, st, prev, e))
  {
    if st.used == 0 {
      StepFirst(enc, pageSize, base, es, st, prev, e);
    } else if st.used + PairBytes(enc, DeltaOf(prev, e)) <= pageSize {
      StepDelta(enc, pageSize, base, es, st, prev, e);
    } else {
      StepOverflow(enc, pageSize, base, es, st, prev, e);
    }
  }

  lemma {:induction false} PackLayout(enc: Encoding, pageSize: nat, base: nat, es: seq<Entry>)
    requires Valid(enc) && Fits(enc, pageSize) && Ordered(es) && base % pageSize == 0
    ensures Layout(enc, pageSize, base, es, Pack(enc, pageSize, base, es))
    decreases |es|
  {
    if |es| > 0 {
      var n := |es| - 1;
      var prev := if n > 0 then es[n - 1] else es[n];
      assert es[..n] + [es[n]] == es;
      PackLayout(enc, pageSize, base, es[..n]);
      StepLayout(enc, pageSize, base, es[..n], Pack(enc, pageSize, base, es[..n]), prev, es[n]);
    }
  }

  /** Pages that follow each other at page-size steps start at base + j * pageSize. */
  lemma {:induction false} StartsAt(pages: seq<Page>, base: nat, pageSize: nat, j: nat)
    requires j < |pages| && pages[0].start == base
    requires forall i :: 0 < i < |pages| ==> pages[i].start == pages[i - 1].start + pageSize
    ensures pages[j].start == base + j * pageSize
    decreases j
  {
    if j > 0 {
      StartsAt(pages, base, pageSize, j - 1);
    }
  }

  lemma {:induction false} StartsIncrease(pages: seq<Page>, pageSize: nat, j: nat, k: nat)
    requires pageSize > 0 && j < k < |pages|
    requires forall i :: 0 < i < |pages| ==> pages[i].start == pages[i - 1].start + pageSize
    ensures pages[j].start < pages[k].start
    decreases k
  {
    if j < k - 1 {
      StartsIncrease(pages, pageSize, j, k - 1);
    }
  }

  /** Decoding the packed pages, head then running deltas, gives back the level's input. */
  lemma PackRoundTrip(enc: Encoding, pageSize: nat, base: nat, es: seq<Entry>)
    requires Valid(enc) && Fits(enc, pageSize) && Ordered(es) && base % pageSize == 0
    ensures Decode(Pack(enc, pageSize, base, es).pages) == es
  {
    PackLayout(enc, pageSize, base, es);
  }

  /** The first page starts at `base` and each later page one page after the one before. */
  lemma PackContiguous(enc: Encoding, pageSize: nat, base: nat, es: seq<Entry>)
    requires Valid(enc) && Fits(enc, pageSize) && Ordered(es) && base % pageSize == 0
    ensures var pages := Pack(enc, pageSize, base, es).pages;
            && (|pages| > 0 ==> pages[0].start == base)
            && (forall i :: 0 < i < |pages| ==> pages[i].start == pages[i - 1].start + pageSize)
  {
    PackLayout(enc, pageSize, base, es);
  }

  /** Every page is page aligned and its entries use at most pageSize bytes. */
  lemma PackPagesFit(enc: Encoding, pageSize: nat, base: nat, es: seq<Entry>)
    requires Valid(enc) && Fits(enc, pageSize) && Ordered(es) && base % pageSize == 0
    ensures var pages := Pack(enc, pageSize, base, es).pages;
            forall j :: 0 <= j < |pages| ==>
              pages[j].start % pageSize == 0 && PageBytes(enc, pages[j]) <= pageSize
  {
    PackLayout(enc, pageSize, base, es);
  }

  /** Once the state `st` is padded, the level ends one page after its last page,
      or at `base` when the level has no page. */
  ghost predicate LevelEnds(st: PackState, base: nat, pageSize: nat) {
    && pageSize > 0
    && var m := |st.pages|;
       var end := PadToPage(st.pos, pageSize);
       && (m > 0 ==> end == st.pages[m - 1].start + pageSize)
       && (m == 0 ==> end == base)
       && end >= base
  }

  /** After the final padding the level ends one page after its last page, or at
      `base` when the level is empty. */
  lemma PackEnd(enc: Encoding, pageSize: nat, base: nat, es: seq<Entry>)
    requires Valid(enc) && Fits(enc, pageSize) && Ordered(es) && base % pageSize == 0
    ensures LevelEnds(Pack(enc, pageSize, base, es), base, pageSize)
  {
    var st := Pack(enc, pageSize, base, es);
    PackLayout(enc, pageSize, base, es);
    LevelEnd(enc, pageSize, base, es, st);
  }

  /** Any state with the level layout ends where `LevelEnds` says once padded. */
  lemma LevelEnd(enc: Encoding, pageSize: nat, base: nat, es: seq<Entry>, st: PackState)
    requires pageSize > 0 && base % pageSize == 0 && Layout(enc, pageSize, base, es, st)
    ensures LevelEnds(st, base, pageSize)
  {
    var m := |st.pages|;
    if m > 0 {
      PadAfterPage(st.pages[m - 1].start, st.used, pageSize);
    }
  }

  /** Closed form of contiguous pages: page j starts j pages after the first, and the
      pages end |pages| pages after it. */
  lemma ContiguousAt(pages: seq<Page>, base: nat, pageSize: nat)
    requires |pages| > 0 && pages[0].start == base
    requires forall i :: 0 < i < |pages| ==> pages[i].start == pages[i - 1].start + pageSize
    ensures forall j :: 0 <= j < |pages| ==> pages[j].start == base + j * pageSize
    ensures pages[|pages| - 1].start + pageSize == base + |pages| * pageSize
  {
    forall j | 0 <= j < |pages|
      ensures pages[j].start == base + j * pageSize
    {
      StartsAt(pages, base, pageSize, j);
    }
    var m := |pages|;
    assert pages[m - 1].start == base + (m - 1) * pageSize;
    assert (m - 1) * pageSize + pageSize == m * pageSize;
  }

  /** Every page uses at most pageSize bytes, page j starts j pages after base, and
      after the final padding the level occupies exactly one page per page written. */
  lemma PackPages(enc: Encoding, pageSize: nat, base: nat, es: seq<Entry>)
    requires Valid(enc) && Fits(enc, pageSize) && Ordered(es) && base % pageSize == 0
    ensures var st := Pack(enc, pageSize, base, es);
            && (forall j :: 0 <= j < |st.pages| ==> PageBytes(enc, st.pages[j]) <= pageSize)
            && (forall j :: 0 <= j < |st.pages| ==> st.pages[j].start == base + j * pageSize)
            && PadToPage(st.pos, pageSize) == base + |st.pages| * pageSize
  {
    var st := Pack(enc, pageSize, base, es);
    PackPagesFit(enc, pageSize, base, es);
    PackEnd(enc, pageSize, base, es);
    if |st.pages| > 0 {
      PackContiguous(enc, pageSize, base, es);
      ContiguousAt(st.pages, base, pageSize);
    }
  }

  /** Every page is page aligned and lies between `base` and the padded end of the level. */
  lemma PackWithin(enc: Encoding, pageSize: nat, base: nat, es: seq<Entry>)
    requires Valid(enc) && Fits(enc, pageSize) && Ordered(es) && base % pageSize == 0
    ensures var st := Pack(enc, pageSize, base, es);
            forall j :: 0 <= j < |st.pages| ==>
              && st.pages[j].start % pageSize == 0
              && base <= st.pages[j].start
              && st.pages[j].start + pageSize <= PadToPage(st.pos, pageSize)
  {
    var st := Pack(enc, pageSize, base, es);
    var m := |st.pages|;
    PackPagesFit(enc, pageSize, base, es);
    PackContiguous(enc, pageSize, base, es);
    PackEnd(enc, pageSize, base, es);
    forall j | 0 <= j < m
      ensures base <= st.pages[j].start && st.pages[j].start + pageSize <= PadToPage(st.pos, pageSize)
    {
      if j > 0 {
        StartsIncrease(st.pages, pageSize, 0, j);
      }
      if j < m - 1 {
        StartsIncrease(st.pages, pageSize, j, m - 1);
      }
    }
  }

  /** A nonempty level has between one page and half its entries (rounded up) pages:
      every page but the last holds at least two entries. */
  lemma PackPageCount(enc: Encoding, pageSize: nat, base: nat, es: seq<Entry>)
    requires Valid(enc) && Fits(enc, pageSize) && Ordered(es) && base % pageSize == 0
    ensures var n := |Pack(enc, pageSize, base, es).pages|;
            (|es| == 0 ==> n == 0) && (|es| > 0 ==> 1 <= n && 2 * n <= |es| + 1)
  {
    var pages := Pack(enc, pageSize, base, es).pages;
    PackLayout(enc, pageSize, base, es);
    if |es| > 0 {
      var init := pages[..|pages| - 1];
      assert forall j :: 0 <= j < |init| ==> init[j] == pages[j];
      DecodeLengthFull(init);
    }
  }

  /** Page heads form an order-preserving subsequence of the level's entries, starting
      with the first entry. */
  lemma PackHeads(enc: Encoding, pageSize: nat, base: nat, es: seq<Entry>)
    requires Valid(enc) && Fits(enc, pageSize) && Ordered(es) && base % pageSize == 0
    ensures var pages := Pack(enc, pageSize, base, es).pages;
            && (forall j :: 0 <= j < |pages| ==>
                  HeadIndex(pages, j) < |es| && es[HeadIndex(pages, j)] == pages[j].head)
            && (forall j, k :: 0 <= j < k < |pages| ==> HeadIndex(pages, j) < HeadIndex(pages, k))
            && (|pages| > 0 ==> HeadIndex(pages, 0) == 0)
  {
    PackRoundTrip(enc, pageSize, base, es);
    HeadsInDecode(Pack(enc, pageSize, base, es).pages);
  }

  lemma SummaryPair(enc: Encoding, pageSize: nat, base: nat, es: seq<Entry>, j: nat, k: nat)
    requires Valid(enc) && Fits(enc, pageSize) && Ordered(es) && base % pageSize == 0
    requires j < k < |Pack(enc, pageSize, base, es).pages|
    ensures var pages := Pack(enc, pageSize, base, es).pages;
            pages[j].head.key <= pages[k].head.key && pages[j].start < pages[k].start
  {
    var pages := Pack(enc, pageSize, base, es).pages;
    assert pages[j].head.key <= pages[k].head.key by {
      PackRoundTrip(enc, pageSize, base, es);
      HeadAt(pages, j);
      HeadAt(pages, k);
      HeadBefore(pages, j, k);
      assert es[HeadIndex(pages, j)].key <= es[HeadIndex(pages, k)].key;
    }
    assert pages[j].start < pages[k].start by {
      PackContiguous(enc, pageSize, base, es);
      StartsIncrease(pages, pageSize, j, k);
    }
  }

  /** The next level's input (head keys with page positions) is ordered again, its
      positions strictly increasing, page aligned and not before the level's base. */
  lemma SummaryOrdered(enc: Encoding, pageSize: nat, base: nat, es: seq<Entry>)
    requires Valid(enc) && Fits(enc, pageSize) && Ordered(es) && base % pageSize == 0
    ensures var s := Summary(Pack(enc, pageSize, base, es).pages);
            && Ordered(s)
            && (forall j, k :: 0 <= j < k < |s| ==> s[j].offset < s[k].offset)
            && (forall j :: 0 <= j < |s| ==> s[j].offset >= base && s[j].offset % pageSize == 0)
  {
    var pages := Pack(enc, pageSize, base, es).pages;
    var s := Summary(pages);
    forall j, k | 0 <= j < k < |s|
      ensures s[j].key <= s[k].key && s[j].offset < s[k].offset
    {
      SummaryPair(enc, pageSize, base, es, j, k);
    }
    forall j | 0 <= j < |s|
      ensures s[j].offset >= base && s[j].offset % pageSize == 0
    {
      PackPagesFit(enc, pageSize, base, es);
      PackContiguous(enc, pageSize, base, es);
      if j > 0 {
        StartsIncrease(pages, pageSize, 0, j);
      }
    }
  }

  /** What building the parent level needs: fewer entries than this level had, in order. */
  lemma ParentReady(enc: Encoding, pageSize: nat, base: nat, es: seq<Entry>)
    requires Valid(enc) && Fits(enc, pageSize) && Ordered(es) && base % pageSize == 0
    ensures var pages := Pack(enc, pageSize, base, es).pages;
            |pages| > 1 ==> |Summary(pages)| < |es| && Ordered(Summary(pages))
  {
    PackPageCount(enc, pageSize, base, es);
    SummaryOrdered(enc, pageSize, base, es);
  }
}
