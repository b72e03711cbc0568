/** The tower of index levels.

    Level 0 packs the data file's (key, offset) entries. While the level
    just written has more than one page, the next level packs that level's
    page heads: each head key together with the position of its page. The
    last level is the root, a single page when there is any data.
 */
module Levels {
  import opened Padding
  import opened VarNumber
  import opened Pages
  import opened PackLevel

  /** The levels written, leaf level first, and the writer position after the last one. */
  datatype Tower = Tower(levels: seq<seq<Page>>, end: nat)

  function Pow2(n: nat): nat {
    if n == 0 then 1 else 2 * Pow2(n - 1)
  }

  /** Writes the level for `es` at `base`, then parent levels until one page remains. */
  function BuildLevels(enc: Encoding, pageSize: nat, base: nat, es: seq<Entry>): (t: Tower)
    requires Valid(enc) && Fits(enc, pageSize) && Ordered(es) && base % pageSize == 0
    decreases |es|
  {
    var st := Pack(enc, pageSize, base, es);
    var end := PadToPage(st.pos, pageSize);
    if |st.pages| > 1 then
      ParentReady(enc, pageSize, base, es);
      var up := BuildLevels(enc, pageSize, end, Summary(st.pages));
      Tower([st.pages] + up.levels, up.end)
    else
      Tower([st.pages], end)
  }

  /** One unfolding of `BuildLevels`. */
  lemma BuildLevelsUnfold(enc: Encoding, pageSize: nat, base: nat, es: seq<Entry>)
    requires Valid(enc) && Fits(enc, pageSize) && Ordered(es) && base % pageSize == 0
    ensures var st := Pack(enc, pageSize, base, es);
            var end := PadToPage(st.pos, pageSize);
            var t := BuildLevels(enc, pageSize, base, es);
            && (|st.pages| <= 1 ==> t == Tower([st.pages], end))
            && (|st.pages| > 1 ==>
                  && |Summary(st.pages)| < |es|
                  && Ordered(Summary(st.pages))
                  && end % pageSize == 0
                  && t == Tower([st.pages] + BuildLevels(enc, pageSize, end, Summary(st.pages)).levels,
                                BuildLevels(enc, pageSize, end, Summary(st.pages)).end))
  {
    ParentReady(enc, pageSize, base, es);
  }

  /** Every level above the first decodes to the heads of the level below it. */
  ghost predicate SummarizesBelow(levels: seq<seq<Page>>) {
    forall k :: 0 < k < |levels| ==> Decode(levels[k]) == Summary(levels[k - 1])
  }

  /** Level 0 decodes to the input and every level above decodes to the page
      heads (key and page position) of the level below it. */
  lemma {:induction false} TowerRoundTrip(enc: Encoding, pageSize: nat, base: nat, es: seq<Entry>)
    requires Valid(enc) && Fits(enc, pageSize) && Ordered(es) && base % pageSize == 0
    ensures var t := BuildLevels(enc, pageSize, base, es);
            && |t.levels| >= 1
            && Decode(t.levels[0]) == es
            && SummarizesBelow(t.levels)
    decreases |es|
  {
    var t := BuildLevels(enc, pageSize, base, es);
    var st := Pack(enc, pageSize, base, es);
    PackRoundTrip(enc, pageSize, base, es);
    BuildLevelsUnfold(enc, pageSize, base, es);
    if |st.pages| > 1 {
      var end := PadToPage(st.pos, pageSize);
      var s := Summary(st.pages);
      var up := BuildLevels(enc, pageSize, end, s);
      TowerRoundTrip(enc, pageSize, end, s);
      assert t.levels == [st.pages] + up.levels;
      forall k | 0 < k < |t.levels|
        ensures Decode(t.levels[k]) == Summary(t.levels[k - 1])
      {
        if k > 1 {
          assert t.levels[k] == up.levels[k - 1] && t.levels[k - 1] == up.levels[k - 2];
        }
      }
    }
  }

  /** The entries of every level, decoded, are in key and offset order. */
  lemma {:induction false} TowerOrdered(enc: Encoding, pageSize: nat, base: nat, es: seq<Entry>)
    requires Valid(enc) && Fits(enc, pageSize) && Ordered(es) && base % pageSize == 0
    ensures var t := BuildLevels(enc, pageSize, base, es);
            forall k :: 0 <= k < |t.levels| ==> Ordered(Decode(t.levels[k]))
    decreases |es|
  {
    var t := BuildLevels(enc, pageSize, base, es);
    var st := Pack(enc, pageSize, base, es);
    PackRoundTrip(enc, pageSize, base, es);
    BuildLevelsUnfold(enc, pageSize, base, es);
    if |st.pages| > 1 {
      var end := PadToPage(st.pos, pageSize);
      var s := Summary(st.pages);
      var up := BuildLevels(enc, pageSize, end, s);
      TowerOrdered(enc, pageSize, end, s);
      assert t.levels == [st.pages] + up.levels;
      forall k | 0 <= k < |t.levels|
        ensures Ordered(Decode(t.levels[k]))
      {
        if k > 0 {
          assert t.levels[k] == up.levels[k - 1];
        }
      }
    }
  }

  /** Page counts: zero records give one empty level; otherwise every level but
      the root has more than one page, each level has at most half (rounded up)
      the pages of the one below, the root is a single page, and there are at
      most log2(entries) + 1 levels. */
  lemma {:induction false} TowerShrinks(enc: Encoding, pageSize: nat, base: nat, es: seq<Entry>)
    requires Valid(enc) && Fits(enc, pageSize) && Ordered(es) && base % pageSize == 0
    ensures var t := BuildLevels(enc, pageSize, base, es);
            && |t.levels| >= 1
            && (|es| == 0 ==> t.levels == [[]])
            && (|es| > 0 ==> |t.levels[|t.levels| - 1]| == 1)
            && (|es| > 0 ==> 1 <= |t.levels[0]| && 2 * |t.levels[0]| <= |es| + 1)
            && (forall k :: 0 <= k < |t.levels| - 1 ==>
                  |t.levels[k]| > 1 && 2 * |t.levels[k + 1]| <= |t.levels[k]| + 1)
            && (|es| > 0 ==> Pow2(|t.levels| - 1) <= |es|)
            && (|t.levels| > 1 ==> Pow2(|t.levels| - 1) < |es|)
    decreases |es|
  {
    var t := BuildLevels(enc, pageSize, base, es);
    var st := Pack(enc, pageSize, base, es);
    PackPageCount(enc, pageSize, base, es);
    if |st.pages| > 1 {
      SummaryOrdered(enc, pageSize, base, es);
      var end := PadToPage(st.pos, pageSize);
      var s := Summary(st.pages);
      var up := BuildLevels(enc, pageSize, end, s);
      TowerShrinks(enc, pageSize, end, s);
      assert t.levels == [st.pages] + up.levels;
      assert forall k :: 0 < k < |t.levels| ==> t.levels[k] == up.levels[k - 1];
      assert |s| == |st.pages|;
      assert |t.levels| - 1 == |up.levels|;
      assert Pow2(|up.levels|) == 2 * Pow2(|up.levels| - 1);
    }
  }

  ghost predicate PagesFit(enc: Encoding, pageSize: nat, levels: seq<seq<Page>>) {
    forall k, j :: 0 <= k < |levels| && 0 <= j < |levels[k]| ==> PageBytes(enc, levels[k][j]) <= pageSize
  }

  /** Each level starts one page after the last page of the level below it. */
  ghost predicate Chained(levels: seq<seq<Page>>, pageSize: nat) {
    forall k :: 0 < k < |levels| ==> Follows(levels[k - 1], levels[k], pageSize)
  }

  /** `upper` starts one page after the last page of `lower`. */
  ghost predicate Follows(lower: seq<Page>, upper: seq<Page>, pageSize: nat) {
    |lower| > 0 && |upper| > 0 && upper[0].start == lower[|lower| - 1].start + pageSize
  }

  /** No page of any level uses more than pageSize bytes. */
  lemma {:induction false} TowerPagesFit(enc: Encoding, pageSize: nat, base: nat, es: seq<Entry>)
    requires Valid(enc) && Fits(enc, pageSize) && Ordered(es) && base % pageSize == 0
    ensures PagesFit(enc, pageSize, BuildLevels(enc, pageSize, base, es).levels)
    decreases |es|
  {
    var t := BuildLevels(enc, pageSize, base, es);
    var st := Pack(enc, pageSize, base, es);
    PackPages(enc, pageSize, base, es);
    BuildLevelsUnfold(enc, pageSize, base, es);
    if |st.pages| > 1 {
      var end := PadToPage(st.pos, pageSize);
      var s := Summary(st.pages);
      var up := BuildLevels(enc, pageSize, end, s);
      TowerPagesFit(enc, pageSize, end, s);
      assert t.levels == [st.pages] + up.levels;
      forall k, j | 0 <= k < |t.levels| && 0 <= j < |t.levels[k]|
        ensures PageBytes(enc, t.levels[k][j]) <= pageSize
      {
        if k > 0 {
          assert t.levels[k] == up.levels[k - 1];
        }
      }
    }
  }

  /** The tower `t` ends, page aligned, one page after its root page (at `base`
      when `empty`). */
  ghost predicate EndsAfterRoot(t: Tower, base: nat, pageSize: nat, empty: bool) {
    && pageSize > 0 && |t.levels| >= 1
    && t.end % pageSize == 0 && t.end >= base
    && (empty ==> t.end == base)
    && (!empty ==> var root := t.levels[|t.levels| - 1];
          |root| > 0 && t.end == root[|root| - 1].start + pageSize)
  }

  /** The tower ends, page aligned, one page after the root page (at `base` when
      there is nothing to index). */
  lemma {:induction false} TowerEnd(enc: Encoding, pageSize: nat, base: nat, es: seq<Entry>)
    requires Valid(enc) && Fits(enc, pageSize) && Ordered(es) && base % pageSize == 0
    ensures EndsAfterRoot(BuildLevels(enc, pageSize, base, es), base, pageSize, |es| == 0)
    decreases |es|
  {
    var t := BuildLevels(enc, pageSize, base, es);
    var st := Pack(enc, pageSize, base, es);
    var end := PadToPage(st.pos, pageSize);
    BuildLevelsUnfold(enc, pageSize, base, es);
    PackEnd(enc, pageSize, base, es);
    if |st.pages| > 1 {
      var s := Summary(st.pages);
      var up := BuildLevels(enc, pageSize, end, s);
      TowerEnd(enc, pageSize, end, s);
      EndsAfterParent(t, up, st.pages, base, end, pageSize, |es| == 0, |s| == 0);
    } else {
      EndsAfterSingle(t, st.pages, base, end, pageSize, |es| == 0);
    }
  }

  lemma EndsAfterParent(t: Tower, up: Tower, level: seq<Page>, base: nat, end: nat, pageSize: nat,
                        empty: bool, upEmpty: bool)
    requires t == Tower([level] + up.levels, up.end) && |level| > 1 && !empty && !upEmpty
    requires end >= base && EndsAfterRoot(up, end, pageSize, upEmpty)
    ensures EndsAfterRoot(t, base, pageSize, empty)
  {
    assert t.levels[|t.levels| - 1] == up.levels[|up.levels| - 1];
  }

  lemma EndsAfterSingle(t: Tower, level: seq<Page>, base: nat, end: nat, pageSize: nat, empty: bool)
    requires t == Tower([level], end) && |level| <= 1 && (empty <==> |level| == 0)
    requires pageSize > 0 && end % pageSize == 0 && end >= base && (empty ==> end == base)
    requires |level| > 0 ==> end == level[|level| - 1].start + pageSize
    ensures EndsAfterRoot(t, base, pageSize, empty)
  {
  }

  /** Every page of every level of `t` is page aligned and lies between `base`
      and the end of the tower. */
  ghost predicate WithinTower(t: Tower, base: nat, pageSize: nat) {
    && pageSize > 0
    && forall k, j :: 0 <= k < |t.levels| && 0 <= j < |t.levels[k]| ==>
         && t.levels[k][j].start % pageSize == 0
         && base <= t.levels[k][j].start
         && t.levels[k][j].start + pageSize <= t.end
  }

  /** Every page of every level is page aligned and lies between `base` and the
      end of the tower. */
  lemma {:induction false} TowerWithin(enc: Encoding, pageSize: nat, base: nat, es: seq<Entry>)
    requires Valid(enc) && Fits(enc, pageSize) && Ordered(es) && base % pageSize == 0
    ensures WithinTower(BuildLevels(enc, pageSize, base, es), base, pageSize)
    decreases |es|
  {
    var t := BuildLevels(enc, pageSize, base, es);
    var st := Pack(enc, pageSize, base, es);
    var end := PadToPage(st.pos, pageSize);
    PackWithin(enc, pageSize, base, es);
    BuildLevelsUnfold(enc, pageSize, base, es);
    if |st.pages| > 1 {
      var s := Summary(st.pages);
      var up := BuildLevels(enc, pageSize, end, s);
      TowerWithin(enc, pageSize, end, s);
      assert up.end >= end && end >= base by {
        TowerEnd(enc, pageSize, end, s);
        PackEnd(enc, pageSize, base, es);
      }
      WithinParent(t, up, st.pages, base, end, pageSize);
    } else {
      WithinSingle(t, st.pages, base, end, pageSize);
    }
  }

  lemma WithinParent(t: Tower, up: Tower, level: seq<Page>, base: nat, end: nat, pageSize: nat)
    requires t == Tower([level] + up.levels, up.end) && pageSize > 0
    requires end >= base && up.end >= end && WithinTower(up, end, pageSize)
    requires forall j :: 0 <= j < |level| ==>
               level[j].start % pageSize == 0 && base <= level[j].start && level[j].start + pageSize <= end
    ensures WithinTower(t, base, pageSize)
  {
    forall k, j | 0 <= k < |t.levels| && 0 <= j < |t.levels[k]|
      ensures && t.levels[k][j].start % pageSize == 0
              && base <= t.levels[k][j].start
              && t.levels[k][j].start + pageSize <= t.end
    {
      if k > 0 {
        assert t.levels[k] == up.levels[k - 1];
      }
    }
  }

  lemma WithinSingle(t: Tower, level: seq<Page>, base: nat, end: nat, pageSize: nat)
    requires t == Tower([level], end) && pageSize > 0
    requires forall j :: 0 <= j < |level| ==>
               level[j].start % pageSize == 0 && base <= level[j].start && level[j].start + pageSize <= end
    ensures WithinTower(t, base, pageSize)
  {
  }

  /** Level 0 starts at `base` and each level starts one page after the last page
      of the level below. */
  lemma {:induction false} TowerChained(enc: Encoding, pageSize: nat, base: nat, es: seq<Entry>)
    requires Valid(enc) && Fits(enc, pageSize) && Ordered(es) && base % pageSize == 0
    ensures var t := BuildLevels(enc, pageSize, base, es);
            && |t.levels| >= 1
            && (|t.levels[0]| > 0 ==> t.levels[0][0].start == base)
            && Chained(t.levels, pageSize)
    decreases |es|
  {
    var t := BuildLevels(enc, pageSize, base, es);
    var st := Pack(enc, pageSize, base, es);
    var end := PadToPage(st.pos, pageSize);
    PackEnd(enc, pageSize, base, es);
    PackContiguous(enc, pageSize, base, es);
    BuildLevelsUnfold(enc, pageSize, base, es);
    if |st.pages| > 1 {
      var s := Summary(st.pages);
      var up := BuildLevels(enc, pageSize, end, s);
      TowerChained(enc, pageSize, end, s);
      assert |up.levels[0]| > 0 by {
        assert |s| == |st.pages|;
        PackPageCount(enc, pageSize, end, s);
        BuildLevelsUnfold(enc, pageSize, end, s);
      }
      assert t.levels == [st.pages] + up.levels;
      forall k | 0 < k < |t.levels|
        ensures Follows(t.levels[k - 1], t.levels[k], pageSize)
      {
        if k > 1 {
          assert t.levels[k] == up.levels[k - 1] && t.levels[k - 1] == up.levels[k - 2];
        } else {
          assert t.levels[0] == st.pages && t.levels[1] == up.levels[0];
        }
      }
    }
  }

  /** The root page starts at or after the first page of the tower. */
  lemma RootAfterStart(enc: Encoding, pageSize: nat, base: nat, es: seq<Entry>)
    requires Valid(enc) && Fits(enc, pageSize) && Ordered(es) && base % pageSize == 0 && |es| > 0
    ensures var t := BuildLevels(enc, pageSize, base, es);
            |t.levels| >= 1 && |t.levels[|t.levels| - 1]| == 1
            && t.levels[|t.levels| - 1][0].start >= base
  {
    TowerShrinks(enc, pageSize, base, es);
    TowerWithin(enc, pageSize, base, es);
  }
}
