# Multi-level numeric index builder

This project models `NumericIndexGenerator<N,T>::Import` from libosmscout's
import pipeline. The builder writes a static, page-oriented, B-tree-like
index over a data file whose records are sorted by a numeric key.

The build runs in this order:

1. It opens the index file and the data file, then reads the record count.
2. It writes a header stub: the page size, the record count and three zero
   placeholders. Then it pads to a page boundary.
3. It packs level 0. Each record becomes an index entry, its key paired with
   the scanner position before the record. The first entry of a page, its
   head, is written as two absolute numbers. Every later entry is written as
   a key delta and an offset delta against the entry before it, each at most
   five bytes. When the next pair would push the page past `pageSize` bytes,
   the page is padded with zeros and the entry opens the next page.
4. It builds parent levels while the last level has more than one page. A
   parent level packs the page heads of the level below, each head's key
   with the page's position, using the same rule.
5. When there is data, it patches the three placeholders: the level count,
   the root page's offset and the offset of the page-count table. In every
   case it then appends one page count per level, leaf level first.
6. The result reports success only if the scanner and the writer show no
   error and both close.

The model is functional:

- `Padding` rounds a writer position up to a page boundary. This models the
  writer's zero flush.
- `VarNumber` holds the byte sizes of the variable-length numbers. It is an
  abstract `Encoding`: absolute numbers take 1 to `maxNumberBytes` bytes,
  deltas take 1 to 5.
- `Pages` holds entries, deltas, pages, and decoding a page back into its
  entries.
- `PackLevel` is the packing of one level. `Step` handles one entry and
  `Pack` handles a whole level. The invariant `Layout` says:
  - the pages decode to the entries packed so far;
  - every page is page aligned and uses at most `pageSize` bytes;
  - pages follow each other one page apart;
  - the writer position and `currentPageSize` agree with the last page.
- `Levels` is the tower of levels, `BuildLevels`, with its round trip,
  ordering, page-count and placement lemmas.
- `NumericIndexImport` has:
  - the build's result as a function, `ImportIndex`;
  - the build written as the source does it, with loops: `PackRecords`,
    `PackEntries`, `BuildParents`, `FinishIndex` and `Import`;
  - a proof that `Import` computes `ImportIndex`.
- `ImportFacts` states what a finished or failed build leaves behind.

Files and I/O are parameters of the model:

- The data file is its record count (absent when the count cannot be read)
  and the records that can be read.
- The outcomes of the opens, closes and error flags come in an
  `Environment`.
- The index file comes out as a value: header, placeholder positions, the
  levels, where the table starts, and the page-count table.

With zero records the header stays unpatched, yet the code still records a
level-0 page count of 0 (line 205) and writes it (lines 284-287).
`ImportFacts.ImportEmpty` states this.

## Model

| member | source | states |
|---|---|---|
| Padding.PadToPage | libosmscout-import/include/osmscout/import/GenNumericIndex.h:173 | The zero flush ends on a page boundary. It adds less than one page, and nothing at all when the position is already aligned. |
| Padding.PadAfterPage | libosmscout-import/include/osmscout/import/GenNumericIndex.h:171-175 | Flushing a page that holds between 1 and pageSize bytes moves the writer to exactly one page after the page's start. |
| Pages.DeltaOf | libosmscout-import/include/osmscout/import/GenNumericIndex.h:168-169 | The delta pair is taken against the preceding entry, and adding it back to that entry gives the current entry. |
| Pages.Expand | libosmscout-import/include/osmscout/import/GenNumericIndex.h:162-198 | A page decodes to its head followed by one entry per delta. Each entry is the one before it plus that delta. |
| Pages.Summary | libosmscout-import/include/osmscout/import/GenNumericIndex.h:190-191 | The input of the next level: one entry per page, the page's head key paired with the page's position. Its contract is stated by `PackLevel.PackHeads` and `PackLevel.SummaryOrdered`: the heads are input entries in order, and the positions strictly increase and are page aligned. |
| PackLevel.Step | libosmscout-import/include/osmscout/import/GenNumericIndex.h:162-198 | A delta pair is appended exactly when the current page is non-empty and the pair fits into it, and then the position and used bytes grow by the pair's size. Otherwise the entry opens a new page: the page starts at the old position when the page was empty, or at the padded position after an overflow. |
| PackLevel.Pack | libosmscout-import/include/osmscout/import/GenNumericIndex.h:144-202 | A level has pages exactly when it has entries, and bytes are counted only in a page that exists. |
| PackLevel.OpenPage | libosmscout-import/include/osmscout/import/GenNumericIndex.h:185-197 | A head written at a page boundary leaves `currentPageSize` equal to the head's size. That size is positive and leaves room for the largest delta pair. |
| PackLevel.ClosedPageHasDelta | libosmscout-import/include/osmscout/import/GenNumericIndex.h:171-176 | A page is only closed for overflow once it holds at least one delta pair. |
| PackLevel.StepLayout | libosmscout-import/include/osmscout/import/GenNumericIndex.h:162-201 | Handling one more entry keeps the level invariant: round trip, alignment, page size bound, adjacency, and position in step with the last page. |
| PackLevel.PackLayout | libosmscout-import/include/osmscout/import/GenNumericIndex.h:144-202 | The level invariant holds after every prefix of the input. |
| PackLevel.PackRoundTrip | libosmscout-import/include/osmscout/import/GenNumericIndex.h:162-201 | Decoding the packed pages, each head followed by its running deltas, gives back the level's input exactly: every entry once, in order. |
| PackLevel.PackContiguous | libosmscout-import/include/osmscout/import/GenNumericIndex.h:171-191 | The first page starts at the level's start, and each later page starts one page after the one before. |
| PackLevel.PackPagesFit | libosmscout-import/include/osmscout/import/GenNumericIndex.h:171-182 | Every page is page aligned and holds at most pageSize bytes. |
| PackLevel.PackEnd | libosmscout-import/include/osmscout/import/GenNumericIndex.h:204 | After the final flush the level ends one page after its last page, or at its start when the level is empty. |
| PackLevel.PackPages | libosmscout-import/include/osmscout/import/GenNumericIndex.h:185-204 | Page j starts j pages after the level's start, and the padded level takes exactly one page per page written. |
| PackLevel.PackWithin | libosmscout-import/include/osmscout/import/GenNumericIndex.h:185-204 | Every page lies, page aligned, between the level's start and its padded end. |
| PackLevel.PackPageCount | libosmscout-import/include/osmscout/import/GenNumericIndex.h:185-205 | An empty level has no pages. A non-empty level has at least one page and at most half its entries, rounded up. |
| PackLevel.PackHeads | libosmscout-import/include/osmscout/import/GenNumericIndex.h:185-191 | The page heads are an order-preserving subsequence of the level's entries that starts with the first entry. |
| PackLevel.SummaryOrdered | libosmscout-import/include/osmscout/import/GenNumericIndex.h:207-212 | The next level's input is ordered: the head keys do not decrease, and the page positions strictly increase, are page aligned and are not before the level's start. |
| Levels.BuildLevelsUnfold | libosmscout-import/include/osmscout/import/GenNumericIndex.h:207-261 | A parent level is built from the page heads exactly while the last level has more than one page. The heads are fewer than the entries below and ordered, and the parent starts page aligned. |
| Levels.BuildLevels | libosmscout-import/include/osmscout/import/GenNumericIndex.h:204-261 | The level tower: level 0 is the packed input, and a parent level is packed from the page heads while the last level has more than one page. Its contract is stated by `Levels.TowerRoundTrip` (every level decodes to the heads of the one below), `Levels.TowerShrinks` (a single root page, halving page counts), `Levels.TowerChained` and `Levels.TowerEnd`. |
| Levels.TowerRoundTrip | libosmscout-import/include/osmscout/import/GenNumericIndex.h:144-261 | Level 0 decodes to the input, and every higher level decodes to the page heads (key and page position) of the level below. |
| Levels.TowerOrdered | libosmscout-import/include/osmscout/import/GenNumericIndex.h:207-261 | Every level decodes to entries in key and offset order. |
| Levels.TowerShrinks | libosmscout-import/include/osmscout/import/GenNumericIndex.h:205-265 | Zero records give one empty level. Otherwise the root is a single page, every lower level has more than one page, each level has at most half (rounded up) the pages of the one below, and there are at most log2(records) + 1 levels. |
| Levels.TowerPagesFit | libosmscout-import/include/osmscout/import/GenNumericIndex.h:171-182 | No page of any level holds more than pageSize bytes. |
| Levels.TowerEnd | libosmscout-import/include/osmscout/import/GenNumericIndex.h:259-269 | The tower ends page aligned, one page after the root page, or at its start when there is no data. |
| Levels.TowerChained | libosmscout-import/include/osmscout/import/GenNumericIndex.h:204-249 | Level 0 starts at the tower's start, and each level starts one page after the last page of the level below. |
| Levels.TowerWithin | libosmscout-import/include/osmscout/import/GenNumericIndex.h:204-261 | Every page of every level lies, page aligned, between the tower's start and its end. |
| NumericIndexImport.DataStart | libosmscout-import/include/osmscout/import/GenNumericIndex.h:123-135 | Level 0 starts at the first page boundary at or after the three header placeholders. |
| NumericIndexImport.HeaderSlots | libosmscout-import/include/osmscout/import/GenNumericIndex.h:123-133 | The first placeholder sits right after the page size and the record count as written, and the three lie one file offset apart. `ImportFacts.ImportPlacement` states both, and also that level 0 starts within one page after the last placeholder. |
| NumericIndexImport.IndexImage | libosmscout-import/include/osmscout/import/GenNumericIndex.h:123-287 | The index file written for the records read: the header, level 0 at the padded header end, the tower, the patch when there is data, and the page-count table. Its contract is stated by `ImportFacts.ImportPatchesHeader`, `ImportFacts.ImportEmpty`, `ImportFacts.ImportRoundTrip`, `ImportFacts.ImportPageCounts` and `ImportFacts.ImportPlacement`. |
| NumericIndexImport.PackRecords | libosmscout-import/include/osmscout/import/GenNumericIndex.h:144-202 | The level-0 loop fails exactly when fewer records than announced can be read. Otherwise it packs the first `count` records. |
| NumericIndexImport.PackEntries | libosmscout-import/include/osmscout/import/GenNumericIndex.h:216-257 | The in-memory packing loop of a parent level computes the level's packing. |
| NumericIndexImport.BuildParents | libosmscout-import/include/osmscout/import/GenNumericIndex.h:205-261 | The parent-level loop builds exactly the tower, and it records each level's page count. |
| NumericIndexImport.FinishIndex | libosmscout-import/include/osmscout/import/GenNumericIndex.h:204-287 | Everything after level 0 — parent levels, header patch and table — produces the index image of the records. |
| NumericIndexImport.Import | libosmscout-import/include/osmscout/import/GenNumericIndex.h:81-293 | The build, written with the source's loops and early returns, computes the specified result. |
| NumericIndexImport.ImportIndex | libosmscout-import/include/osmscout/import/GenNumericIndex.h:81-293 | The result of a build: the early failures in the source's order, or the index image with the close and error outcome. Its contract is stated by `ImportFacts.ImportStopsEarly`, `ImportFacts.ImportSucceeds` and the lemmas listed for `NumericIndexImport.IndexImage`. `NumericIndexImport.Import` is proved equal to it. |
| ImportFacts.ImportStopsEarly | libosmscout-import/include/osmscout/import/GenNumericIndex.h:108-160 | The build stops early exactly when an open fails, the count cannot be read or a record is missing. Each of these failures, checked in the source's order, yields its own error. The first three leave no header; a missing record leaves the unpatched header stub and is reported with its index. |
| ImportFacts.ImportSucceeds | libosmscout-import/include/osmscout/import/GenNumericIndex.h:289-292 | Success exactly when everything was read and neither file reports an error or fails to close. |
| ImportFacts.ImportEmpty | libosmscout-import/include/osmscout/import/GenNumericIndex.h:126-135 | With no records the placeholders stay zero, one empty level with a page count of 0 is recorded, and the table directly follows the padded header. |
| ImportFacts.ImportPatchesHeader | libosmscout-import/include/osmscout/import/GenNumericIndex.h:264-281 | With data, the header holds the number of levels (which is also the number of page counts), the start of the single root page, and the table's start one page after the root. All three are non-zero. |
| Levels.RootAfterStart | libosmscout-import/include/osmscout/import/GenNumericIndex.h:264-275 | With data the root level is a single page, and it starts no earlier than level 0. |
| ImportFacts.ImportRoundTrip | libosmscout-import/include/osmscout/import/GenNumericIndex.h:144-261 | Level 0 decodes to the records read, every higher level decodes to the page heads of the level below, and every level is ordered. |
| ImportFacts.ImportPageCounts | libosmscout-import/include/osmscout/import/GenNumericIndex.h:284-287 | The table holds each level's page count, leaf level first. The counts shrink as in `Levels.TowerShrinks`, down to a root count of 1 when there is data. |
| ImportFacts.ImportPlacement | libosmscout-import/include/osmscout/import/GenNumericIndex.h:126-135 | The placeholders lie one file offset apart, and level 0 starts at the next page boundary. Levels are chained one page apart. Pages fit, and every page lies page aligned between the header and the table. |

## Left out

- The bit layout of `WriteNumber` and `EncodeNumber` is not part of this model. Only their byte counts enter, through an abstract `Encoding`, so the round trip is stated at the level of entries, not bytes.
- PackLevel.PackRoundTrip, Levels.TowerRoundTrip, Levels.TowerOrdered, ImportFacts.ImportRoundTrip: every delta is assumed to have an encoding of at most five bytes (`VarNumber.Valid`). The source's five-byte buffers (lines 163-169 and 226-227) cannot represent every 64-bit delta, so these lemmas say nothing about what the source writes, or how it decodes, for larger gaps.
- `FileScanner` and `FileWriter` byte I/O, `GetPos`, `SetPos` and the actual zero bytes are left out. The writer is a position counter, and a flush is rounding up to the page size.
- `T::Read` record deserialisation is left out. The data file is given as the records that can be read, each with its scanner position. A read failure is the first missing record.
- Progress and log messages are left out, including the root-relative level numbering in the page-count report. They have no effect on control flow.
- The width of the patched level count (a 32-bit value written into a file-offset slot) is left out, and so is the 32-bit type of the record count and of `currentPageSize`. All integers are unbounded.
- A file offset is taken to be 8 bytes wide. `FileWriter` is not part of this model.
- NumericIndexImport.ImportIndex, NumericIndexImport.Import: they require `Pages.Ordered` input, meaning keys and offsets never decrease. The order is required of all readable records, including any beyond the record count that the source never reads, and so also of the early-failure facts `ImportFacts.ImportStopsEarly` and `ImportFacts.ImportSucceeds`. The source subtracts unsigned values unchecked and would wrap around on unsorted input.
- NumericIndexImport.ImportIndex, NumericIndexImport.Import: they require `VarNumber.Fits`, meaning a page holds the largest head plus the largest delta pair. Without it the source's parent loop need not terminate. The model does not cover smaller pages.
- Closing an open file on an early return, and the partially written index file an early return leaves, are not modelled. An aborted result carries only the error and the header as far as it was written.
