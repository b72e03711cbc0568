/** What a build promises about the index file it leaves behind: which
    failures stop it and what they leave in the header, the header patch
    when there is data, the empty index, the round trip through every
    level, the page-count table and the placement of the levels.
 */
module ImportFacts {
  import opened Padding
  import opened VarNumber
  import opened Pages
  import opened PackLevel
  import opened Levels
  import opened NumericIndexImport

  /** Preconditions shared by the facts below. */
  ghost predicate Setting(enc: Encoding, pageSize: nat, data: DataFile) {
    Valid(enc) && Fits(enc, pageSize) && Ordered(data.records)
  }

  /** The build gets past reading the records: both files open, the count is
      readable and that many records follow it. */
  predicate ReadsAll(env: Environment, data: DataFile) {
    env.indexCreated && env.dataOpened && data.count.Some? && data.count.value <= |data.records|
  }

  /** The records the build indexes. */
  function Indexed(data: DataFile): seq<Entry>
    requires data.count.Some? && data.count.value <= |data.records|
  {
    data.records[..data.count.value]
  }

  /** A finished build is the index image of the records it read. */
  lemma FinishedImage(enc: Encoding, pageSize: nat, env: Environment, data: DataFile)
    requires Setting(enc, pageSize, data) && ReadsAll(env, data)
    ensures Ordered(Indexed(data))
    ensures ImportIndex(enc, pageSize, env, data)
            == Finished(IndexImage(enc, pageSize, Indexed(data)), Closed(env))
  {
    OrderedPrefix(data.records, data.count.value);
  }

  /** The build stops early exactly when a file cannot be opened, the count
      cannot be read or fewer records than announced can be read, and each of
      these failures, checked in this order, reports its own error. Such a
      stop never leaves a patched header behind: before the count is read
      nothing is written, and a missing record leaves the header stub, naming
      the first record that could not be read. */
  lemma ImportStopsEarly(enc: Encoding, pageSize: nat, env: Environment, data: DataFile)
    requires Setting(enc, pageSize, data)
    ensures var r := ImportIndex(enc, pageSize, env, data);
            && (r.Aborted? <==> !ReadsAll(env, data))
            && (r.Aborted? && r.header.Some? ==>
                  && Unpatched(r.header.value)
                  && r.header.value.pageSize == pageSize
                  && r.error == CannotReadRecord(|data.records|)
                  && |data.records| < data.count.value)
            && (r.Aborted? && !r.error.CannotReadRecord? ==> r.header.None?)
            && (!env.indexCreated ==> r == Aborted(CannotCreateIndex, None))
            && (env.indexCreated && !env.dataOpened ==> r == Aborted(CannotOpenData, None))
            && (env.indexCreated && env.dataOpened && data.count.None? ==>
                  r == Aborted(CannotReadCount, None))
            && (env.indexCreated && env.dataOpened && data.count.Some?
                && |data.records| < data.count.value ==>
                  r == Aborted(CannotReadRecord(|data.records|),
                               Some(HeaderStub(pageSize, data.count.value))))
  {
  }

  /** Overall success: the build finishes and reports success exactly when it
      reads everything and both files close without error. */
  lemma ImportSucceeds(enc: Encoding, pageSize: nat, env: Environment, data: DataFile)
    requires Setting(enc, pageSize, data)
    ensures var r := ImportIndex(enc, pageSize, env, data);
            (r.Finished? && r.ok) <==>
              (ReadsAll(env, data)
               && !env.scannerError && env.scannerClosed && !env.writerError && env.writerClosed)
  {
  }

  /** No records: the header placeholders stay zero, a single empty level is
      recorded with a page count of 0, and the table follows the padded header. */
  lemma ImportEmpty(enc: Encoding, pageSize: nat, env: Environment, data: DataFile)
    requires Setting(enc, pageSize, data)
    requires env.indexCreated && env.dataOpened && data.count == Some(0)
    ensures var r := ImportIndex(enc, pageSize, env, data);
            && r.Finished?
            && Unpatched(r.file.header)
            && r.file.header.pageSize == pageSize && r.file.header.dataCount == 0
            && r.file.levels == [[]]
            && r.file.pageCounts == [0]
            && r.file.tableStart == r.file.dataStart
  {
    FinishedImage(enc, pageSize, env, data);
    var es := Indexed(data);
    var start := DataStart(enc, pageSize, 0);
    TowerShrinks(enc, pageSize, start, es);
    TowerEnd(enc, pageSize, start, es);
  }

  /** With data, every placeholder is patched and consistent: the level count is
      the number of levels and of page counts, the root offset is the start of
      the single root page, and the table offset is where the table is written,
      one page after the root. All three are non-zero. */
  lemma ImportPatchesHeader(enc: Encoding, pageSize: nat, env: Environment, data: DataFile)
    requires Setting(enc, pageSize, data) && ReadsAll(env, data) && data.count.value > 0
    ensures var f := ImportIndex(enc, pageSize, env, data).file;
            var root := f.levels[|f.levels| - 1];
            && f.header.pageSize == pageSize && f.header.dataCount == data.count.value
            && f.header.levelCount == |f.levels| == |f.pageCounts| >= 1
            && |root| == 1
            && f.header.rootOffset == root[0].start
            && f.header.tableOffset == f.tableStart == f.header.rootOffset + pageSize
            && f.header.rootOffset >= f.dataStart
            && f.header.levelCount > 0 && f.header.rootOffset > 0 && f.header.tableOffset > 0
  {
    FinishedImage(enc, pageSize, env, data);
    var es := Indexed(data);
    var start := DataStart(enc, pageSize, |es|);
    var t := BuildLevels(enc, pageSize, start, es);
    TowerShrinks(enc, pageSize, start, es);
    TowerEnd(enc, pageSize, start, es);
    assert t.levels[|t.levels| - 1][0].start >= start by {
      RootAfterStart(enc, pageSize, start, es);
    }
  }

  /** Round trip: level 0 decodes to the records read, every level above decodes
      to the page heads (key and page position) of the level below, and every
      level is in key and offset order. */
  lemma ImportRoundTrip(enc: Encoding, pageSize: nat, env: Environment, data: DataFile)
    requires Setting(enc, pageSize, data) && ReadsAll(env, data)
    ensures var f := ImportIndex(enc, pageSize, env, data).file;
            && |f.levels| >= 1
            && Decode(f.levels[0]) == data.records[..data.count.value]
            && SummarizesBelow(f.levels)
            && (forall k :: 0 <= k < |f.levels| ==> Ordered(Decode(f.levels[k])))
  {
    FinishedImage(enc, pageSize, env, data);
    var es := Indexed(data);
    var start := DataStart(enc, pageSize, |es|);
    TowerRoundTrip(enc, pageSize, start, es);
    TowerOrdered(enc, pageSize, start, es);
  }

  /** The page-count table holds each level's page count, leaf level first;
      every level below the root has more than one page and at least twice as
      many pages as the level above it, less one; with data the root count is 1
      and there are at most log2(records) + 1 levels. */
  lemma ImportPageCounts(enc: Encoding, pageSize: nat, env: Environment, data: DataFile)
    requires Setting(enc, pageSize, data) && ReadsAll(env, data)
    ensures var f := ImportIndex(enc, pageSize, env, data).file;
            var n := data.count.value;
            && |f.pageCounts| == |f.levels| >= 1
            && (forall k :: 0 <= k < |f.levels| ==> f.pageCounts[k] == |f.levels[k]|)
            && (forall k :: 0 <= k < |f.pageCounts| - 1 ==>
                  f.pageCounts[k] > 1 && 2 * f.pageCounts[k + 1] <= f.pageCounts[k] + 1)
            && (n > 0 ==> f.pageCounts[|f.pageCounts| - 1] == 1 && Pow2(|f.levels| - 1) <= n)
            && (n > 0 ==> 1 <= f.pageCounts[0] && 2 * f.pageCounts[0] <= n + 1)
  {
    FinishedImage(enc, pageSize, env, data);
    var es := Indexed(data);
    var start := DataStart(enc, pageSize, |es|);
    TowerShrinks(enc, pageSize, start, es);
  }

  /** Placement: the first placeholder follows the page size and the record
      count, the three placeholders lie one file offset apart, level 0 starts
      at the first page boundary after them, each level starts one page after
      the last page of the level below, no page holds more than pageSize
      bytes, every page lies page aligned between the header and the table,
      and the table starts page aligned after the last level. */
  lemma ImportPlacement(enc: Encoding, pageSize: nat, env: Environment, data: DataFile)
    requires Setting(enc, pageSize, data) && ReadsAll(env, data)
    ensures var f := ImportIndex(enc, pageSize, env, data).file;
            && f.slots.levelCountAt == enc.numberBytes(pageSize) + enc.numberBytes(data.count.value)
            && f.slots.rootOffsetAt == f.slots.levelCountAt + FileOffsetBytes
            && f.slots.tableOffsetAt == f.slots.rootOffsetAt + FileOffsetBytes
            && f.slots.tableOffsetAt + FileOffsetBytes <= f.dataStart
            && f.dataStart < f.slots.tableOffsetAt + FileOffsetBytes + pageSize
            && f.dataStart % pageSize == 0
            && |f.levels| >= 1
            && (|f.levels[0]| > 0 ==> f.levels[0][0].start == f.dataStart)
            && Chained(f.levels, pageSize)
            && PagesFit(enc, pageSize, f.levels)
            && f.tableStart % pageSize == 0 && f.tableStart >= f.dataStart
            && (forall k, j :: 0 <= k < |f.levels| && 0 <= j < |f.levels[k]| ==>
                  && f.levels[k][j].start % pageSize == 0
                  && f.dataStart <= f.levels[k][j].start
                  && f.levels[k][j].start + pageSize <= f.tableStart)
  {
    FinishedImage(enc, pageSize, env, data);
    var es := Indexed(data);
    var start := DataStart(enc, pageSize, |es|);
    TowerChained(enc, pageSize, start, es);
    TowerPagesFit(enc, pageSize, start, es);
    TowerEnd(enc, pageSize, start, es);
    TowerWithin(enc, pageSize, start, es);
  }
}
