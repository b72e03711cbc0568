/** Index entries, pages and the decoding of a page.

    An index entry pairs a key with a file offset. A page stores its first
    entry (the head) as two absolute numbers and every later entry as the
    difference, key and offset separately, from the entry just before it.
    Decoding a page adds the differences up again.
 */
module Pages {
  import opened VarNumber

  datatype Entry = Entry(key: nat, offset: nat)

  /** Key and offset difference from the preceding entry of the same page. */
  datatype Delta = Delta(keyDelta: nat, offsetDelta: nat)

  /** A page written at `start`: its head and the deltas that follow it. */
  datatype Page = Page(start: nat, head: Entry, deltas: seq<Delta>)

  /** Keys and offsets never decrease along the sequence. */
  ghost predicate Ordered(es: seq<Entry>) {
    forall i, j :: 0 <= i < j < |es| ==> es[i].key <= es[j].key && es[i].offset <= es[j].offset
  }

  function Apply(prev: Entry, d: Delta): Entry {
    Entry(prev.key + d.keyDelta, prev.offset + d.offsetDelta)
  }

  /** The delta pair written for `e` after `prev`; adding it back to `prev` gives `e`. */
  function DeltaOf(prev: Entry, e: Entry): (d: Delta)
    requires prev.key <= e.key && prev.offset <= e.offset
    ensures Apply(prev, d) == e
  {
    Delta(e.key - prev.key, e.offset - prev.offset)
  }

  /** The entries a page decodes to: its head, then each delta added to the entry before. */
  function Expand(head: Entry, ds: seq<Delta>): (r: seq<Entry>)
    ensures |r| == |ds| + 1 && r[0] == head
    ensures forall i :: 0 <= i < |ds| ==> r[i + 1] == Apply(r[i], ds[i])
    decreases |ds|
  {
    if |ds| == 0 then [head]
    else
      var prior := Expand(head, ds[..|ds| - 1]);
      prior + [Apply(prior[|prior| - 1], ds[|ds| - 1])]
  }

  /** The entries of a sequence of pages, page after page. */
  function Decode(pages: seq<Page>): (r: seq<Entry>)
    ensures |r| >= |pages|
    ensures |pages| > 0 ==> r[0] == pages[0].head
    decreases |pages|
  {
    if |pages| == 0 then []
    else
      var last := pages[|pages| - 1];
      Decode(pages[..|pages| - 1]) + Expand(last.head, last.deltas)
  }

  function HeadBytes(enc: Encoding, e: Entry): nat {
    enc.numberBytes(e.key) + enc.numberBytes(e.offset)
  }

  function PairBytes(enc: Encoding, d: Delta): nat {
    enc.deltaBytes(d.keyDelta) + enc.deltaBytes(d.offsetDelta)
  }

  function DeltasBytes(enc: Encoding, ds: seq<Delta>): nat
    decreases |ds|
  {
    if |ds| == 0 then 0 else DeltasBytes(enc, ds[..|ds| - 1]) + PairBytes(enc, ds[|ds| - 1])
  }

  /** Bytes a page's entries occupy, before zero padding. */
  function PageBytes(enc: Encoding, p: Page): nat {
    HeadBytes(enc, p.head) + DeltasBytes(enc, p.deltas)
  }

  /** The pages with one more delta in the last page. */
  function AppendDelta(pages: seq<Page>, d: Delta): seq<Page>
    requires |pages| > 0
  {
    var last := pages[|pages| - 1];
    pages[..|pages| - 1] + [Page(last.start, last.head, last.deltas + [d])]
  }

  /** The next level's input: each page's head key with the page's position. */
  function Summary(pages: seq<Page>): seq<Entry> {
    seq(|pages|, j requires 0 <= j < |pages| => Entry(pages[j].head.key, pages[j].start))
  }

  lemma ExpandSnoc(head: Entry, ds: seq<Delta>, d: Delta)
    ensures Expand(head, ds + [d]) == Expand(head, ds) + [Apply(Expand(head, ds)[|ds|], d)]
  {
    assert (ds + [d])[..|ds|] == ds;
  }

  lemma DecodeSnoc(pages: seq<Page>, p: Page)
    ensures Decode(pages + [p]) == Decode(pages) + Expand(p.head, p.deltas)
  {
    assert (pages + [p])[..|pages|] == pages;
  }

  /** Appending a delta to the last page appends one decoded entry, taken against the last one. */
  lemma DecodeAppendDelta(pages: seq<Page>, d: Delta)
    requires |pages| > 0
    ensures var r := Decode(pages);
            Decode(AppendDelta(pages, d)) == r + [Apply(r[|r| - 1], d)]
  {
    var init := pages[..|pages| - 1];
    var last := pages[|pages| - 1];
    var last' := Page(last.start, last.head, last.deltas + [d]);
    assert AppendDelta(pages, d) == init + [last'];
    assert init + [last] == pages;
    DecodeSnoc(init, last');
    DecodeSnoc(init, last);
    ExpandSnoc(last.head, last.deltas, d);
    var x := Expand(last.head, last.deltas);
    var r := Decode(pages);
    assert r == Decode(init) + x;
    assert r[|r| - 1] == x[|last.deltas|];
  }

  lemma {:induction false} DecodeConcat(a: seq<Page>, b: seq<Page>)
    ensures Decode(a + b) == Decode(a) + Decode(b)
    decreases |b|
  {
    if |b| == 0 {
      assert a + b == a;
    } else {
      var b' := b[..|b| - 1];
      var p := b[|b| - 1];
      var x := Expand(p.head, p.deltas);
      assert a + b == (a + b') + [p];
      assert b == b' + [p];
      calc {
        Decode(a + b);
        { DecodeSnoc(a + b', p); }
        Decode(a + b') + x;
        { DecodeConcat(a, b'); }
        Decode(a) + Decode(b') + x;
        { DecodeSnoc(b', p); }
        Decode(a) + Decode(b);
      }
    }
  }

  lemma PageBytesAppend(enc: Encoding, p: Page, d: Delta)
    ensures PageBytes(enc, Page(p.start, p.head, p.deltas + [d])) == PageBytes(enc, p) + PairBytes(enc, d)
  {
    assert (p.deltas + [d])[..|p.deltas|] == p.deltas;
  }

  /** When every page holds at least one delta, there are at least two entries per page. */
  lemma {:induction false} DecodeLengthFull(pages: seq<Page>)
    requires forall j :: 0 <= j < |pages| ==> |pages[j].deltas| > 0
    ensures |Decode(pages)| >= 2 * |pages|
    decreases |pages|
  {
    if |pages| > 0 {
      DecodeLengthFull(pages[..|pages| - 1]);
    }
  }

  /** Position in the decoded entries at which page j's head appears. */
  ghost function HeadIndex(pages: seq<Page>, j: nat): nat
    requires j <= |pages|
  {
    |Decode(pages[..j])|
  }

  lemma HeadAt(pages: seq<Page>, j: nat)
    requires j < |pages|
    ensures HeadIndex(pages, j) < |Decode(pages)| && Decode(pages)[HeadIndex(pages, j)] == pages[j].head
  {
    assert pages[..j] + pages[j..] == pages;
    DecodeConcat(pages[..j], pages[j..]);
    assert Decode(pages[j..])[0] == pages[j].head;
  }

  lemma HeadBefore(pages: seq<Page>, j: nat, k: nat)
    requires j < k <= |pages|
    ensures HeadIndex(pages, j) < HeadIndex(pages, k)
  {
    assert pages[..k] == pages[..j] + pages[j..k];
    DecodeConcat(pages[..j], pages[j..k]);
  }

  /** Page heads occur in the decoded entries, in page order, the first at position 0. */
  lemma HeadsInDecode(pages: seq<Page>)
    ensures forall j :: 0 <= j < |pages| ==>
              HeadIndex(pages, j) < |Decode(pages)| && Decode(pages)[HeadIndex(pages, j)] == pages[j].head
    ensures forall j, k :: 0 <= j < k < |pages| ==> HeadIndex(pages, j) < HeadIndex(pages, k)
    ensures |pages| > 0 ==> HeadIndex(pages, 0) == 0
  {
    forall j | 0 <= j < |pages|
      ensures HeadIndex(pages, j) < |Decode(pages)| && Decode(pages)[HeadIndex(pages, j)] == pages[j].head
    {
      HeadAt(pages, j);
    }
    forall j, k | 0 <= j < k < |pages|
      ensures HeadIndex(pages, j) < HeadIndex(pages, k)
    {
      HeadBefore(pages, j, k);
    }
    if |pages| > 0 {
      assert pages[..0] == [];
    }
  }
}
