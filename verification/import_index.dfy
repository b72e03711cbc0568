/** The whole index build: header stub, the level tower, the header patch and
    the page-count table, with the early failure exits.

    The model abstracts the two files. The data file is its leading record
    count (absent when it cannot be read) and the records that can be read
    in order, each as its key and the scanner position before it. The index
    file is its header, the levels written and the page-count table. The
    outcome of opening, closing and of the writers' and scanner's error
    flags is given as an `Environment`.
 */
module NumericIndexImport {
  import opened Padding
  import opened VarNumber
  import opened Pages
  import opened PackLevel
  import opened Levels

  /** Width of a fixed-size file offset in the index header. */
  const FileOffsetBytes: nat := 8

  datatype Option<T> = None | Some(value: T)

  datatype DataFile = DataFile(count: Option<nat>, records: seq<Entry>)

  datatype Environment = Environment(
    indexCreated: bool,   // the index file could be created
    dataOpened: bool,     // the data file could be opened
    scannerError: bool,   // the scanner reports an error at the end
    scannerClosed: bool,  // closing the scanner succeeds
    writerError: bool,    // the writer reports an error at the end
    writerClosed: bool    // closing the writer succeeds
  )

  /** Header values: page size and record count, then the three patched fields. */
  datatype Header = Header(pageSize: nat, dataCount: nat, levelCount: nat, rootOffset: nat, tableOffset: nat)

  /** Positions of the three header fields that are written as zero and patched later. */
  datatype Slots = Slots(levelCountAt: nat, rootOffsetAt: nat, tableOffsetAt: nat)

  datatype IndexFile = IndexFile(
    header: Header,
    slots: Slots,
    dataStart: nat,             // where level 0 begins, after the padded header
    levels: seq<seq<Page>>,     // leaf level first
    tableStart: nat,            // where the page-count table is written
    pageCounts: seq<nat>        // the table, leaf level first
  )

  datatype ImportError = CannotCreateIndex | CannotOpenData | CannotReadCount | CannotReadRecord(index: nat)

  /** An early exit, with the header as far as it was written, or a finished build
      with the overall result. */
  datatype ImportResult =
    | Aborted(error: ImportError, header: Option<Header>)
    | Finished(file: IndexFile, ok: bool)

  /** The three placeholders follow the page size and record count, one file offset each. */
  function HeaderSlots(enc: Encoding, pageSize: nat, dataCount: nat): Slots {
    var at := enc.numberBytes(pageSize) + enc.numberBytes(dataCount);
    Slots(at, at + FileOffsetBytes, at + 2 * FileOffsetBytes)
  }

  /** The header as written before any level: the three placeholders are zero. */
  function HeaderStub(pageSize: nat, dataCount: nat): Header {
    Header(pageSize, dataCount, 0, 0, 0)
  }

  predicate Unpatched(h: Header) {
    h.levelCount == 0 && h.rootOffset == 0 && h.tableOffset == 0
  }

  function PageCounts(levels: seq<seq<Page>>): seq<nat> {
    seq(|levels|, k requires 0 <= k < |levels| => |levels[k]|)
  }

  lemma PageCountsSnoc(levels: seq<seq<Page>>, level: seq<Page>)
    ensures PageCounts(levels + [level]) == PageCounts(levels) + [|level|]
  {
  }

  predicate Closed(env: Environment) {
    !env.scannerError && env.scannerClosed && !env.writerError && env.writerClosed
  }

  lemma OrderedPrefix(es: seq<Entry>, n: nat)
    requires Ordered(es) && n <= |es|
    ensures Ordered(es[..n])
  {
    assert forall i :: 0 <= i < n ==> es[..n][i] == es[i];
  }

  /** The result of building the index for `data` with pages of `pageSize` bytes. */
  function ImportIndex(enc: Encoding, pageSize: nat, env: Environment, data: DataFile): ImportResult
    requires Valid(enc) && Fits(enc, pageSize) && Ordered(data.records)
  {
    if !env.indexCreated then Aborted(CannotCreateIndex, None)
    else if !env.dataOpened then Aborted(CannotOpenData, None)
    else if data.count.None? then Aborted(CannotReadCount, None)
    else
      var n := data.count.value;
      if |data.records| < n then Aborted(CannotReadRecord(|data.records|), Some(HeaderStub(pageSize, n)))
      else
        OrderedPrefix(data.records, n);
        Finished(IndexImage(enc, pageSize, data.records[..n]), Closed(env))
  }

  /** The index file written for the `|es|` records `es`. */
  function IndexImage(enc: Encoding, pageSize: nat, es: seq<Entry>): IndexFile
    requires Valid(enc) && Fits(enc, pageSize) && Ordered(es)
  {
    var slots := HeaderSlots(enc, pageSize, |es|);
    var start := DataStart(enc, pageSize, |es|);
    var t := BuildLevels(enc, pageSize, start, es);
    TowerEnd(enc, pageSize, start, es);
    var header :=
      if |es| > 0 then Header(pageSize, |es|, |t.levels|, t.levels[|t.levels| - 1][0].start, t.end)
      else HeaderStub(pageSize, |es|);
    IndexFile(header, slots, start, t.levels, t.end, PageCounts(t.levels))
  }

  /** Where level 0 starts: the first page boundary after the header. */
  function DataStart(enc: Encoding, pageSize: nat, count: nat): (start: nat)
    requires Fits(enc, pageSize)
    ensures start % pageSize == 0
    ensures HeaderSlots(enc, pageSize, count).tableOffsetAt + FileOffsetBytes <= start
            < HeaderSlots(enc, pageSize, count).tableOffsetAt + FileOffsetBytes + pageSize
  {
    PadToPage(HeaderSlots(enc, pageSize, count).tableOffsetAt + FileOffsetBytes, pageSize)
  }

  /** `st` is the state after packing the first `i` entries of `es`. */
  ghost predicate PackedPrefix(enc: Encoding, pageSize: nat, base: nat, es: seq<Entry>, i: nat, st: PackState)
  {
    && Fits(enc, pageSize) && Ordered(es) && i <= |es|
    && Ordered(es[..i]) && st == Pack(enc, pageSize, base, es[..i])
  }

  lemma PackedStart(enc: Encoding, pageSize: nat, base: nat, es: seq<Entry>)
    requires Fits(enc, pageSize) && Ordered(es)
    ensures PackedPrefix(enc, pageSize, base, es, 0, PackState(base, 0, []))
  {
    assert es[..0] == [];
  }

  /** Packing one more entry of `es` is one `Step`. */
  lemma PackedNext(enc: Encoding, pageSize: nat, base: nat, es: seq<Entry>, i: nat, st: PackState)
    requires PackedPrefix(enc, pageSize, base, es, i, st) && i < |es|
    ensures st.used > 0 ==> |st.pages| > 0
    ensures PackedPrefix(enc, pageSize, base, es, i + 1,
                         Step(enc, pageSize, st, if i > 0 then es[i - 1] else es[i], es[i]))
  {
    OrderedPrefix(es, i + 1);
    assert es[..i + 1][..i] == es[..i];
  }

  lemma PackedAll(enc: Encoding, pageSize: nat, base: nat, es: seq<Entry>, n: nat, st: PackState)
    requires PackedPrefix(enc, pageSize, base, es, n, st)
    ensures st == Pack(enc, pageSize, base, es[..n])
  {
  }

  /** One packing pass over an in-memory level: the loop that builds each parent level. */
  method PackEntries(enc: Encoding, pageSize: nat, base: nat, es: seq<Entry>) returns (st: PackState)
    requires Valid(enc) && Fits(enc, pageSize) && Ordered(es)
    ensures st == Pack(enc, pageSize, base, es)
  {
    st := PackState(base, 0, []);
    var i := 0;
    PackedStart(enc, pageSize, base, es);
    while i < |es|
      invariant PackedPrefix(enc, pageSize, base, es, i, st)
    {
      PackedNext(enc, pageSize, base, es, i, st);
      st := Step(enc, pageSize, st, if i > 0 then es[i - 1] else es[i], es[i]);
      i := i + 1;
    }
    PackedAll(enc, pageSize, base, es, i, st);
    assert es[..|es|] == es;
  }

  /** The level-0 pass, reading `count` records in order; `None` when record
      number |records| cannot be read. */
  method PackRecords(enc: Encoding, pageSize: nat, base: nat, records: seq<Entry>, count: nat)
    returns (r: Option<PackState>)
    requires Valid(enc) && Fits(enc, pageSize) && Ordered(records)
    ensures |records| < count <==> r.None?
    ensures r.Some? ==> count <= |records| && r.value == Pack(enc, pageSize, base, records[..count])
  {
    var st := PackState(base, 0, []);
    var last := Entry(0, 0);
    var d := 0;
    PackedStart(enc, pageSize, base, records);
    while d < count
      invariant d <= count && d <= |records|
      invariant PackedPrefix(enc, pageSize, base, records, d, st)
      invariant d > 0 ==> last == records[d - 1]
    {
      if d >= |records| {
        return None;
      }
      var e := records[d];
      PackedNext(enc, pageSize, base, records, d, st);
      st := Step(enc, pageSize, st, if d > 0 then last else e, e);
      last := e;
      d := d + 1;
    }
    PackedAll(enc, pageSize, base, records, d, st);
    return Some(st);
  }

  /** The loop state while parent levels are built: the last level written packs
      `input` at `base`, `pos` is the padded position after it, and the levels so
      far followed by the tower still to come for `input` give the full tower. */
  ghost predicate Building(enc: Encoding, pageSize: nat, dataStart: nat, es0: seq<Entry>,
                           levels: seq<seq<Page>>, base: nat, input: seq<Entry>, pos: nat)
  {
    && Valid(enc) && Fits(enc, pageSize) && Ordered(es0) && dataStart % pageSize == 0
    && |levels| >= 1 && Ordered(input) && base % pageSize == 0
    && levels[|levels| - 1] == Pack(enc, pageSize, base, input).pages
    && pos == PadToPage(Pack(enc, pageSize, base, input).pos, pageSize)
    && BuildLevels(enc, pageSize, dataStart, es0) ==
         var t := BuildLevels(enc, pageSize, base, input);
         Tower(levels[..|levels| - 1] + t.levels, t.end)
  }

  lemma BuildingStart(enc: Encoding, pageSize: nat, dataStart: nat, es0: seq<Entry>, level0: PackState)
    requires Valid(enc) && Fits(enc, pageSize) && Ordered(es0) && dataStart % pageSize == 0
    requires level0 == Pack(enc, pageSize, dataStart, es0)
    ensures Building(enc, pageSize, dataStart, es0, [level0.pages], dataStart, es0,
                     PadToPage(level0.pos, pageSize))
  {
    var t := BuildLevels(enc, pageSize, dataStart, es0);
    assert [level0.pages][..0] + t.levels == t.levels;
  }

  /** The heads of a last level with more than one page are ordered entries,
      fewer than the entries below, and the next level starts page aligned. */
  lemma BuildingParent(enc: Encoding, pageSize: nat, dataStart: nat, es0: seq<Entry>,
                       levels: seq<seq<Page>>, base: nat, input: seq<Entry>, pos: nat)
    requires Building(enc, pageSize, dataStart, es0, levels, base, input, pos)
    requires |levels[|levels| - 1]| > 1
    ensures Ordered(Summary(levels[|levels| - 1])) && pos % pageSize == 0
    ensures |Summary(levels[|levels| - 1])| < |input|
  {
    ParentReady(enc, pageSize, base, input);
  }

  /** One more parent level keeps the loop state, with a smaller last level. */
  lemma BuildingStep(enc: Encoding, pageSize: nat, dataStart: nat, es0: seq<Entry>,
                     levels: seq<seq<Page>>, base: nat, input: seq<Entry>, pos: nat,
                     si: seq<Entry>, next: PackState)
    requires Building(enc, pageSize, dataStart, es0, levels, base, input, pos)
    requires |levels[|levels| - 1]| > 1
    requires si == Summary(levels[|levels| - 1]) && Ordered(si) && pos % pageSize == 0
    requires next == Pack(enc, pageSize, pos, si)
    ensures |next.pages| < |levels[|levels| - 1]|
    ensures Building(enc, pageSize, dataStart, es0, levels + [next.pages], pos, si,
                     PadToPage(next.pos, pageSize))
  {
    var last := levels[|levels| - 1];
    var levels' := levels + [next.pages];
    var up := BuildLevels(enc, pageSize, pos, si);
    assert |next.pages| < |last| by {
      PackPageCount(enc, pageSize, pos, si);
    }
    assert BuildLevels(enc, pageSize, base, input) == Tower([last] + up.levels, up.end) by {
      BuildLevelsUnfold(enc, pageSize, base, input);
    }
    assert levels'[..|levels'| - 1] + up.levels == levels[..|levels| - 1] + ([last] + up.levels) by {
      SplitLast(levels, next.pages, up.levels);
    }
  }

  lemma SplitLast<T>(s: seq<T>, x: T, tail: seq<T>)
    requires |s| >= 1
    ensures (s + [x])[..|s|] + tail == s[..|s| - 1] + ([s[|s| - 1]] + tail)
  {
    assert (s + [x])[..|s|] == s;
    assert s[..|s| - 1] + [s[|s| - 1]] == s;
  }

  lemma BuildingDone(enc: Encoding, pageSize: nat, dataStart: nat, es0: seq<Entry>,
                     levels: seq<seq<Page>>, base: nat, input: seq<Entry>, pos: nat)
    requires Building(enc, pageSize, dataStart, es0, levels, base, input, pos)
    requires |levels[|levels| - 1]| <= 1
    ensures Tower(levels, pos) == BuildLevels(enc, pageSize, dataStart, es0)
  {
    BuildLevelsUnfold(enc, pageSize, base, input);
    assert levels[..|levels| - 1] + [levels[|levels| - 1]] == levels;
  }

  /** Builds parent levels above level 0 while the last level has more than one page,
      recording each level's page count. */
  method BuildParents(enc: Encoding, pageSize: nat, dataStart: nat, ghost es0: seq<Entry>, level0: PackState)
    returns (levels: seq<seq<Page>>, pageCounts: seq<nat>, pos: nat)
    requires Valid(enc) && Fits(enc, pageSize) && Ordered(es0) && dataStart % pageSize == 0
    requires level0 == Pack(enc, pageSize, dataStart, es0)
    ensures Tower(levels, pos) == BuildLevels(enc, pageSize, dataStart, es0)
    ensures pageCounts == PageCounts(levels)
  {
    levels := [level0.pages];
    pageCounts := [|level0.pages|];
    pos := PadToPage(level0.pos, pageSize);
    ghost var input: seq<Entry> := es0;
    ghost var base: nat := dataStart;
    BuildingStart(enc, pageSize, dataStart, es0, level0);
    while |levels[|levels| - 1]| > 1
      invariant Building(enc, pageSize, dataStart, es0, levels, base, input, pos)
      invariant pageCounts == PageCounts(levels)
      decreases |levels[|levels| - 1]|
    {
      var si := Summary(levels[|levels| - 1]);
      BuildingParent(enc, pageSize, dataStart, es0, levels, base, input, pos);
      var next := PackEntries(enc, pageSize, pos, si);
      BuildingStep(enc, pageSize, dataStart, es0, levels, base, input, pos, si, next);
      PageCountsSnoc(levels, next.pages);
      assert (levels + [next.pages])[|levels|] == next.pages;
      levels := levels + [next.pages];
      pageCounts := pageCounts + [|next.pages|];
      input := si;
      base := pos;
      pos := PadToPage(next.pos, pageSize);
    }
    BuildingDone(enc, pageSize, dataStart, es0, levels, base, input, pos);
  }

  /** Everything after level 0: the parent levels, the header patch and the table. */
  method FinishIndex(enc: Encoding, pageSize: nat, ghost es: seq<Entry>, dataCount: nat, level0: PackState)
    returns (file: IndexFile)
    requires Valid(enc) && Fits(enc, pageSize) && Ordered(es) && dataCount == |es|
    requires level0 == Pack(enc, pageSize, DataStart(enc, pageSize, dataCount), es)
    ensures file == IndexImage(enc, pageSize, es)
  {
    var slots := HeaderSlots(enc, pageSize, dataCount);
    var dataStart := DataStart(enc, pageSize, dataCount);
    var levels: seq<seq<Page>>, pageCounts: seq<nat>, pos: nat := BuildParents(enc, pageSize, dataStart, es, level0);
    var header := HeaderStub(pageSize, dataCount);
    if dataCount > 0 {
      TowerShrinks(enc, pageSize, dataStart, es);
      assert |levels[|levels| - 1]| == 1;
      header := Header(pageSize, dataCount, |pageCounts|, levels[|levels| - 1][0].start, pos);
    }
    file := IndexFile(header, slots, dataStart, levels, pos, pageCounts);
  }

  /** The build as the source writes it: open both files, read the record count,
      pack level 0 from the records, build the parent levels, patch the header
      when there is data, and report success only if nothing failed. */
  method Import(enc: Encoding, pageSize: nat, env: Environment, data: DataFile) returns (r: ImportResult)
    requires Valid(enc) && Fits(enc, pageSize) && Ordered(data.records)
    ensures r == ImportIndex(enc, pageSize, env, data)
  {
    if !env.indexCreated {
      return Aborted(CannotCreateIndex, None);
    }
    if !env.dataOpened {
      return Aborted(CannotOpenData, None);
    }
    if data.count.None? {
      return Aborted(CannotReadCount, None);
    }
    var dataCount := data.count.value;
    var dataStart := DataStart(enc, pageSize, dataCount);
    var level0 := PackRecords(enc, pageSize, dataStart, data.records, dataCount);
    if level0.None? {
      return Aborted(CannotReadRecord(|data.records|), Some(HeaderStub(pageSize, dataCount)));
    }
    OrderedPrefix(data.records, dataCount);
    var file := FinishIndex(enc, pageSize, data.records[..dataCount], dataCount, level0.value);
    r := Finished(file, Closed(env));
  }
}
