/** Which backups a plan keeps, read off the listing itself: by rank and age, ties included. */
module RetentionRanks {
  import opened Prelude
  import opened Retention

  /** The listed entries that go before the i-th: the newer ones, and of the same time those listed earlier. */
  ghost function Ahead(entries: seq<Entry>, i: nat): set<int>
    requires i < |entries|
  {
    set j | 0 <= j < |entries| &&
            (|| entries[j].observedAt > entries[i].observedAt
             || (entries[j].observedAt == entries[i].observedAt && j < i))
  }

  ghost function Since(s: seq<Entry>, v: int): set<int> {
    set j | 0 <= j < |s| && s[j].observedAt >= v
  }

  lemma {:induction false} SinceCounts(s: seq<Entry>, v: int)
    ensures |Since(s, v)| == AtLeast(s, v)
  {
    if s != [] {
      var last := |s| - 1;
      SinceCounts(Init(s), v);
      assert Since(s, v) == Since(Init(s), v) + if s[last].observedAt >= v then {last} else {};
    }
  }

  /** In a sorted list the entries since an instant come first. */
  lemma {:induction false} SinceComesFirst(s: seq<Entry>, v: int, i: nat)
    requires NewestFirst(s) && i < |s|
    ensures i < AtLeast(s, v) <==> s[i].observedAt >= v
  {
    var init := Init(s);
    AtLeastShrinks(init, v, v);
    assert forall j :: 0 <= j < |init| ==> init[j] == s[j] && init[j].observedAt >= s[|s| - 1].observedAt;
    if Last(s).observedAt >= v {
      AllAtLeast(init, v);
    } else if i < |init| {
      SinceComesFirst(init, v, i);
    }
  }

  /** A new entry is inserted behind everything that is not older. */
  lemma {:induction false} InsertedAt(s: seq<Entry>, e: Entry)
    requires NewestFirst(s)
    ensures var k := AtLeast(s, e.observedAt); k <= |s| && Insert(s, e) == s[..k] + [e] + s[k..]
  {
    AtLeastShrinks(s, e.observedAt, e.observedAt);
    if s != [] {
      var init := Init(s);
      assert forall j :: 0 <= j < |init| ==> init[j] == s[j] && init[j].observedAt >= s[|s| - 1].observedAt;
      if Last(s).observedAt >= e.observedAt {
        AllAtLeast(init, e.observedAt);
      } else {
        InsertedAt(init, e);
        var k := AtLeast(init, e.observedAt);
        assert s[..k] == init[..k] && s[k..] == init[k..] + [Last(s)];
      }
    }
  }

  /** Where the last entry of a listing goes, and what it moves. */
  lemma LastGoesTo(entries: seq<Entry>)
    requires entries != []
    ensures var init, e := Init(entries), Last(entries);
            var sorted, k := Sorted(init), |Ahead(entries, |entries| - 1)|;
            && NewestFirst(sorted) && |sorted| == |init| && k <= |init|
            && Sorted(entries) == sorted[..k] + [e] + sorted[k..]
            && forall p :: 0 <= p < |init| ==> (p < k <==> sorted[p].observedAt >= e.observedAt)
  {
    var init, e := Init(entries), Last(entries);
    SortedSorts(init);
    SameSize(Sorted(init), init);
    InsertedAt(Sorted(init), e);
    AheadOfLast(entries);
    SinceComeFirst(Sorted(init), e.observedAt);
  }

  lemma SinceComeFirst(s: seq<Entry>, v: int)
    requires NewestFirst(s)
    ensures forall p :: 0 <= p < |s| ==> (p < AtLeast(s, v) <==> s[p].observedAt >= v)
  {
    forall p | 0 <= p < |s|
      ensures p < AtLeast(s, v) <==> s[p].observedAt >= v
    {
      SinceComesFirst(s, v, p);
    }
  }

  lemma AheadOfLast(entries: seq<Entry>)
    requires entries != [] && multiset(Sorted(Init(entries))) == multiset(Init(entries))
    ensures |Ahead(entries, |entries| - 1)| == AtLeast(Sorted(Init(entries)), Last(entries).observedAt)
  {
    var init, v := Init(entries), Last(entries).observedAt;
    AtLeastUnordered(Sorted(init), init, v);
    SinceCounts(init, v);
    AheadOfLastIs(entries);
  }

  /** Everything listed before the last entry that is not older than it goes before it. */
  lemma AheadOfLastIs(entries: seq<Entry>)
    requires entries != []
    ensures Ahead(entries, |entries| - 1) == Since(Init(entries), Last(entries).observedAt)
  {
    var init, last := Init(entries), |entries| - 1;
    assert entries[last] == Last(entries);
    forall j: int
      ensures j in Ahead(entries, last) <==> j in Since(init, Last(entries).observedAt)
    {
      assert 0 <= j < last ==> entries[j] == init[j];
    }
  }

  lemma AheadGrows(entries: seq<Entry>, i: nat)
    requires i < |entries| - 1
    ensures |Ahead(entries, i)| ==
            |Ahead(Init(entries), i)| + if Last(entries).observedAt > entries[i].observedAt then 1 else 0
  {
    var last := |entries| - 1;
    assert Ahead(entries, i) ==
           Ahead(Init(entries), i) + if entries[last].observedAt > entries[i].observedAt then {last} else {};
  }

  /** Each listed entry stands in the sorted list where its rank says. */
  lemma {:induction false} StandsAtRank(entries: seq<Entry>, i: nat)
    requires i < |entries|
    ensures |Ahead(entries, i)| < |Sorted(entries)| && Sorted(entries)[|Ahead(entries, i)|] == entries[i]
  {
    LastGoesTo(entries);
    if i < |entries| - 1 {
      StandsAtRank(Init(entries), i);
      AheadGrows(entries, i);
    }
  }

  /** Every place in the sorted list is some listed entry's rank. */
  lemma {:induction false} RankOf(entries: seq<Entry>, p: nat) returns (i: nat)
    requires p < |entries|
    ensures i < |entries| && |Ahead(entries, i)| == p
  {
    LastGoesTo(entries);
    var last := |entries| - 1;
    var k := |Ahead(entries, last)|;
    if p == k {
      i := last;
    } else {
      i := RankOf(Init(entries), if p < k then p else p - 1);
      StandsAtRank(Init(entries), i);
      AheadGrows(entries, i);
    }
  }

  const DAY_IN_MS := 86_400_000

  /** The entry has a place among the first `retainMin`, or it was observed within the last `retainDays` days. */
  ghost predicate Stays(entries: seq<Entry>, i: nat, now: int, retainDays: int, retainMin: int)
    requires i < |entries|
  {
    |Ahead(entries, i)| < retainMin || now - entries[i].observedAt <= retainDays * DAY_IN_MS
  }

  /** What a plan keeps of any listing, ties and repetitions included: the objects of which some listed entry stays. All
      other objects are dropped. */
  lemma PlanKeepsRanks(entries: seq<Entry>, now: int, retainDays: int, retainMin: int, e: Entry)
    ensures var plan := PlanOf(entries, Cutoff(now, retainDays), retainMin);
            && (e in plan.keep <==> exists i :: 0 <= i < |entries| && entries[i] == e
                                                && Stays(entries, i, now, retainDays, retainMin))
            && (e in plan.drop <==> e in entries && e !in plan.keep)
  {
    var sorted, cutoff := Sorted(entries), Cutoff(now, retainDays);
    var k := KeptCount(sorted, cutoff, retainMin);
    SortedSorts(entries);
    SameSize(sorted, entries);
    assert e in entries <==> e in multiset(entries);
    assert e in sorted <==> e in multiset(sorted);
    FilterMembers(sorted, Entries(sorted[..k]), true, e);
    FilterMembers(sorted, Entries(sorted[..k]), false, e);
    if p :| 0 <= p < k && sorted[p] == e {
      var i := RankOf(entries, p);
      StandsAtRank(entries, i);
      KeptIff(sorted, cutoff, retainMin, p);
      assert Stays(entries, i, now, retainDays, retainMin);
    }
    if i :| 0 <= i < |entries| && entries[i] == e && Stays(entries, i, now, retainDays, retainMin) {
      StandsAtRank(entries, i);
      KeptIff(sorted, cutoff, retainMin, |Ahead(entries, i)|);
      assert sorted[..k][|Ahead(entries, i)|] == e;
    }
  }
}
