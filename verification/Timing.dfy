/** Chronological sorting of subtitle entries and the adjacent-pair overlap check. */
module Timing {
  import opened StableSort

  /** Times are in the clock's smallest unit. */
  datatype SubtitleEntry = SubtitleEntry(index: nat, start: nat, end: nat, text: string)

  predicate ValidTiming(e: SubtitleEntry) {
    e.start < e.end
  }

  predicate OverlapsWith(a: SubtitleEntry, b: SubtitleEntry) {
    a.start < b.end && b.start < a.end
  }

  predicate StartLe(a: SubtitleEntry, b: SubtitleEntry) {
    a.start <= b.start
  }

  function Reindexed(s: seq<SubtitleEntry>): (r: seq<SubtitleEntry>)
    ensures |r| == |s|
  {
    seq(|s|, i requires 0 <= i < |s| => s[i].(index := i + 1))
  }

  /** Some entry starts before the one right before it ends. */
  predicate AdjacentOverlap(s: seq<SubtitleEntry>) {
    exists i | 0 <= i < |s| - 1 :: s[i + 1].start < s[i].end
  }

  lemma StartReindexing(s: seq<SubtitleEntry>)
    ensures Reindexed(s)[..0] + s[0..] == s && Reindexed(s)[..|s|] + s[|s|..] == Reindexed(s)
  {
  }

  lemma ReindexStep(s: seq<SubtitleEntry>, i: nat)
    requires i < |s|
    ensures var now := Reindexed(s)[..i] + s[i..];
            && now[i] == s[i]
            && now[i := s[i].(index := i + 1)] == Reindexed(s)[..i + 1] + s[i + 1..]
  {
  }

  class Subtitle {
    var entries: seq<SubtitleEntry>

    method SortEntries()
      modifies this
      ensures entries == Reindexed(Sort(old(entries), StartLe))
    {
      entries := Sort(entries, StartLe);
      ghost var sorted := entries;
      hide Sort, StartLe, Reindexed;
      StartReindexing(sorted);
      for i := 0 to |entries|
        invariant |entries| == |sorted|
        invariant entries == Reindexed(sorted)[..i] + sorted[i..]
      {
        ReindexStep(sorted, i);
        entries := entries[i := entries[i].(index := i + 1)];
      }
    }

    method HasOverlaps() returns (found: bool)
      ensures found <==> AdjacentOverlap(entries)
    {
      if entries == [] {
        return false;
      }
      for i := 0 to |entries| - 1
        invariant forall j | 0 <= j < i :: entries[j + 1].start >= entries[j].end
      {
        if entries[i + 1].start < entries[i].end {
          return true;
        }
      }
      return false;
    }
  }

  /** After sorting, the entries are the original ones in start order, ties in their
      original order, numbered from one. */
  lemma SortEntriesIsStable(s: seq<SubtitleEntry>)
    ensures var sorted, r := Sort(s, StartLe), Reindexed(Sort(s, StartLe));
            && multiset(sorted) == multiset(s)
            && (forall y :: Ties(sorted, y, StartLe) == Ties(s, y, StartLe))
            && (forall i | 0 <= i < |r| :: r[i].index == i + 1 && r[i].(index := sorted[i].index) == sorted[i])
            && (forall i, j | 0 <= i < j < |r| :: r[i].start <= r[j].start)
  {
    SortOrdered(s, StartLe);
    forall y ensures Ties(Sort(s, StartLe), y, StartLe) == Ties(s, y, StartLe) { SortStable(s, y, StartLe); }
    var sorted := Sort(s, StartLe);
    forall i, j | 0 <= i < j < |s| ensures sorted[i].start <= sorted[j].start { assert StartLe(sorted[i], sorted[j]); }
  }

  ghost predicate AnyOverlap(s: seq<SubtitleEntry>) {
    exists i, j | 0 <= i < j < |s| :: OverlapsWith(s[i], s[j])
  }

  /** In start order the adjacent check misses no overlapping pair at any distance,
      and with valid timing it reports nothing else. */
  lemma AdjacentCheckIsComplete(s: seq<SubtitleEntry>)
    requires forall i, j | 0 <= i < j < |s| :: s[i].start <= s[j].start
    ensures AnyOverlap(s) ==> AdjacentOverlap(s)
    ensures (forall e | e in s :: ValidTiming(e)) ==> (AdjacentOverlap(s) <==> AnyOverlap(s))
  {
    if AnyOverlap(s) {
      var i, j :| 0 <= i < j < |s| && OverlapsWith(s[i], s[j]);
      assert s[i + 1].start < s[i].end;
    }
    if AdjacentOverlap(s) && forall e | e in s :: ValidTiming(e) {
      var i :| 0 <= i < |s| - 1 && s[i + 1].start < s[i].end;
      assert ValidTiming(s[i + 1]);
      assert OverlapsWith(s[i], s[i + 1]);
    }
  }

  /** In start order the adjacent check is exact, on the entries and on every stretch
      of them, exactly if each entry it reports also ends after its predecessor
      starts. */
  lemma AdjacentCheckExactly(s: seq<SubtitleEntry>)
    requires forall i, j | 0 <= i < j < |s| :: s[i].start <= s[j].start
    ensures (forall i | 0 <= i < |s| - 1 :: s[i + 1].start < s[i].end ==> s[i].start < s[i + 1].end)
            <==> (forall a, b | 0 <= a <= b <= |s| :: AdjacentOverlap(s[a..b]) <==> AnyOverlap(s[a..b]))
  {
    if forall i | 0 <= i < |s| - 1 :: s[i + 1].start < s[i].end ==> s[i].start < s[i + 1].end {
      forall a, b | 0 <= a <= b <= |s|
        ensures AdjacentOverlap(s[a..b]) <==> AnyOverlap(s[a..b])
      {
        GenuineAlarms(s[a..b]);
      }
    }
    if forall a, b | 0 <= a <= b <= |s| :: AdjacentOverlap(s[a..b]) <==> AnyOverlap(s[a..b]) {
      forall i | 0 <= i < |s| - 1 && s[i + 1].start < s[i].end
        ensures s[i].start < s[i + 1].end
      {
        var w := s[i..i + 2];
        assert w[0 + 1].start < w[0].end;
        assert AdjacentOverlap(w);
      }
    }
  }

  lemma GenuineAlarms(s: seq<SubtitleEntry>)
    requires forall i, j | 0 <= i < j < |s| :: s[i].start <= s[j].start
    requires forall i | 0 <= i < |s| - 1 :: s[i + 1].start < s[i].end ==> s[i].start < s[i + 1].end
    ensures AdjacentOverlap(s) <==> AnyOverlap(s)
  {
    AdjacentCheckIsComplete(s);
    if AdjacentOverlap(s) {
      var i :| 0 <= i < |s| - 1 && s[i + 1].start < s[i].end;
      assert OverlapsWith(s[i], s[i + 1]);
    }
  }

  /** The whole story: sort, then check. */
  lemma SortedOverlapCheck(s: seq<SubtitleEntry>)
    requires forall e | e in s :: ValidTiming(e)
    ensures var r := Reindexed(Sort(s, StartLe)); AdjacentOverlap(r) <==> AnyOverlap(r)
  {
    SortEntriesIsStable(s);
    var sorted, r := Sort(s, StartLe), Reindexed(Sort(s, StartLe));
    forall e | e in r
      ensures ValidTiming(e)
    {
      var i :| 0 <= i < |r| && r[i] == e;
      assert sorted[i] in multiset(sorted);
      assert sorted[i] in s;
    }
    AdjacentCheckIsComplete(r);
  }

  /** An empty entry makes the adjacent check report an overlap that is none. */
  lemma EmptyEntryFalseAlarm()
    ensures var s := [SubtitleEntry(1, 4, 5, "a"), SubtitleEntry(2, 4, 4, "b")];
            AdjacentOverlap(s) && !AnyOverlap(s)
  {
    var s := [SubtitleEntry(1, 4, 5, "a"), SubtitleEntry(2, 4, 4, "b")];
    assert s[0 + 1].start < s[0].end;
  }
}
