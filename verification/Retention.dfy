/** control-center/deploy/src/retention.ts: which backups a pruning keeps, now and over repeated prunings. */
module Retention {
  import opened Prelude

  /** A backup: the object that stands for it, its path and the millisecond at which it was observed. Two objects are
      two entries, even when path and time are the same. */
  datatype Entry = Entry(object: nat, path: string, observedAt: int)

  datatype Plan = Plan(keep: seq<Entry>, drop: seq<Entry>)

  datatype PlanError = RetentionBelowOne

  const MS_PER_DAY := 24 * 60 * 60 * 1000

  function Cutoff(now: int, retainDays: int): int {
    now - retainDays * MS_PER_DAY
  }

  // ---- Newest first ------------------------------------------------------------------------------

  predicate NewestFirst(s: seq<Entry>) {
    forall i, j :: 0 <= i < j < |s| ==> s[i].observedAt >= s[j].observedAt
  }

  /** Stable insertion by descending time: the order a stable sort with that comparator must produce. */
  function Insert(s: seq<Entry>, e: Entry): seq<Entry> {
    if s == [] || Last(s).observedAt >= e.observedAt then s + [e] else Insert(Init(s), e) + [Last(s)]
  }

  function Sorted(entries: seq<Entry>): seq<Entry> {
    if entries == [] then [] else Insert(Sorted(Init(entries)), Last(entries))
  }

  lemma {:induction false} InsertKeepsEntries(s: seq<Entry>, e: Entry)
    ensures multiset(Insert(s, e)) == multiset(s) + multiset{e}
  {
    if s != [] && Last(s).observedAt < e.observedAt {
      InsertKeepsEntries(Init(s), e);
      assert s == Init(s) + [Last(s)];
    }
  }

  lemma {:induction false} InsertSorts(s: seq<Entry>, e: Entry)
    requires NewestFirst(s)
    ensures NewestFirst(Insert(s, e))
  {
    if s != [] && Last(s).observedAt < e.observedAt {
      var init := Init(s);
      InsertSorts(init, e);
      InsertKeepsEntries(init, e);
      forall i | 0 <= i < |Insert(init, e)|
        ensures Insert(init, e)[i].observedAt >= Last(s).observedAt
      {
        assert Insert(init, e)[i] in multiset(Insert(init, e));
      }
    }
  }

  lemma {:induction false} SortedSorts(entries: seq<Entry>)
    ensures NewestFirst(Sorted(entries)) && multiset(Sorted(entries)) == multiset(entries)
  {
    if entries != [] {
      SortedSorts(Init(entries));
      InsertSorts(Sorted(Init(entries)), Last(entries));
      InsertKeepsEntries(Sorted(Init(entries)), Last(entries));
      assert entries == Init(entries) + [Last(entries)];
    }
  }

  // ---- The plan ----------------------------------------------------------------------------------

  function Entries(s: seq<Entry>): set<Entry> {
    set e | e in s
  }

  lemma EntriesAdd(s: seq<Entry>, e: Entry)
    ensures Entries(s + [e]) == Entries(s) + {e}
  {
  }

  lemma PrefixEntries(s: seq<Entry>, i: nat)
    requires i < |s|
    ensures Entries(s[..i + 1]) == Entries(s[..i]) + {s[i]}
  {
    assert s[..i + 1] == s[..i] + [s[i]];
    EntriesAdd(s[..i], s[i]);
  }

  predicate NoRepeats(s: seq<Entry>) {
    forall e <- s :: multiset(s)[e] == 1
  }

  lemma NoRepeatsIndex(s: seq<Entry>, i: nat, j: nat)
    requires NoRepeats(s) && i < j < |s|
    ensures s[i] != s[j]
  {
    var a, b := s[..j], s[j..];
    assert s == a + b && multiset(s) == multiset(a) + multiset(b);
    assert a[i] in multiset(a) && b[0] in multiset(b);
    assert s[i] in s && multiset(s)[s[i]] == 1;
  }

  function Filter(s: seq<Entry>, keep: set<Entry>, inside: bool): seq<Entry> {
    if s == [] then [] else Filter(Init(s), keep, inside) + if (Last(s) in keep) == inside then [Last(s)] else []
  }

  /** How many of the newest entries are kept: at least `retainMin`, and on while they are inside the cutoff. */
  function KeptCount(sorted: seq<Entry>, cutoff: int, retainMin: int): (k: nat)
    ensures k <= |sorted|
  {
    if sorted == [] then 0
    else if |sorted| <= retainMin || Last(sorted).observedAt >= cutoff then |sorted|
    else KeptCount(Init(sorted), cutoff, retainMin)
  }

  /** Keeping stops where it should: every entry before is among the newest or inside the cutoff, none after is. */
  lemma {:induction false} KeptIff(sorted: seq<Entry>, cutoff: int, retainMin: int, i: nat)
    requires NewestFirst(sorted) && i < |sorted|
    ensures i < KeptCount(sorted, cutoff, retainMin) <==> i < retainMin || sorted[i].observedAt >= cutoff
  {
    var init, last := Init(sorted), Last(sorted);
    assert i < |init| ==> sorted[i] == init[i] && sorted[i].observedAt >= sorted[|sorted| - 1].observedAt;
    if |sorted| > retainMin && last.observedAt < cutoff && i < |init| {
      assert NewestFirst(init) by {
        assert forall j :: 0 <= j < |init| ==> init[j] == sorted[j];
      }
      KeptIff(init, cutoff, retainMin, i);
    }
  }

  lemma {:induction false} FilterAll(s: seq<Entry>, keep: set<Entry>, inside: bool)
    requires forall i :: 0 <= i < |s| ==> (s[i] in keep) == inside
    ensures Filter(s, keep, inside) == s && Filter(s, keep, !inside) == []
  {
    if s != [] {
      var init := Init(s);
      forall i | 0 <= i < |init|
        ensures (init[i] in keep) == inside
      {
        assert init[i] == s[i];
      }
      FilterAll(init, keep, inside);
      assert (s[|s| - 1] in keep) == inside && s == init + [s[|s| - 1]];
    }
  }

  lemma {:induction false} FilterAppend(a: seq<Entry>, b: seq<Entry>, keep: set<Entry>, inside: bool)
    ensures Filter(a + b, keep, inside) == Filter(a, keep, inside) + Filter(b, keep, inside)
  {
    if b == [] {
      assert a + b == a;
    } else {
      assert Init(a + b) == a + Init(b) && Last(a + b) == Last(b);
      FilterAppend(a, Init(b), keep, inside);
    }
  }

  lemma FilterPrefix(s: seq<Entry>, keep: set<Entry>, k: nat)
    requires k <= |s| && forall i :: 0 <= i < |s| ==> (s[i] in keep <==> i < k)
    ensures Filter(s, keep, true) == s[..k] && Filter(s, keep, false) == s[k..]
  {
    assert s == s[..k] + s[k..];
    FilterAll(s[..k], keep, true);
    FilterAll(s[k..], keep, false);
    FilterAppend(s[..k], s[k..], keep, true);
    FilterAppend(s[..k], s[k..], keep, false);
  }

  /** `planRetention`: the entries that belong to the newest prefix, and the rest. */
  method PlanRetention(entries: seq<Entry>, now: int, retainDays: int, retainMin: int)
    returns (r: Result<Plan, PlanError>)
    ensures r.Err? <==> retainDays < 1 || retainMin < 1
    ensures r.Ok? ==> r.value == PlanOf(entries, Cutoff(now, retainDays), retainMin)
  {
    if retainDays < 1 || retainMin < 1 {
      return Err(RetentionBelowOne);
    }
    var sorted := Sorted(entries);
    var cutoff := Cutoff(now, retainDays);
    SortedSorts(entries);
    ghost var k := KeptCount(sorted, cutoff, retainMin);
    var keep: set<Entry> := {};
    for index := 0 to |sorted|
      invariant keep == Entries(sorted[..Min(index, k)])
    {
      KeptIff(sorted, cutoff, retainMin, index);
      if index < retainMin || sorted[index].observedAt >= cutoff {
        PrefixEntries(sorted, index);
        keep := keep + {sorted[index]};
      }
    }
    return Ok(Plan(Filter(sorted, keep, true), Filter(sorted, keep, false)));
  }

  /** Everything in the newest prefix, up to where keeping stops, and the rest, newest first. */
  function PlanOf(entries: seq<Entry>, cutoff: int, retainMin: int): Plan {
    var sorted := Sorted(entries);
    var keep := Entries(sorted[..KeptCount(sorted, cutoff, retainMin)]);
    Plan(Filter(sorted, keep, true), Filter(sorted, keep, false))
  }

  lemma {:induction false} FilterMembers(s: seq<Entry>, keep: set<Entry>, inside: bool, e: Entry)
    ensures e in Filter(s, keep, inside) <==> e in s && (e in keep) == inside
  {
    if s != [] {
      FilterMembers(Init(s), keep, inside, e);
      assert s == Init(s) + [Last(s)];
    }
  }

  /** A filter keeps every copy of an entry or none. */
  lemma {:induction false} FilterCounts(s: seq<Entry>, keep: set<Entry>, inside: bool, e: Entry)
    ensures multiset(Filter(s, keep, inside))[e] == if (e in keep) == inside then multiset(s)[e] else 0
  {
    if s != [] {
      var init, last := Init(s), Last(s);
      FilterCounts(init, keep, inside, e);
      CountLast(init, last, e);
      CountLast(Filter(init, keep, inside), last, e);
      assert s == init + [last];
      assert (last in keep) != inside ==> Filter(s, keep, inside) == Filter(init, keep, inside);
    }
  }

  lemma CountLast(s: seq<Entry>, last: Entry, e: Entry)
    ensures multiset(s + [last])[e] == multiset(s)[e] + if last == e then 1 else 0
  {
  }

  lemma FilterParts(s: seq<Entry>, keep: set<Entry>)
    ensures multiset(Filter(s, keep, true)) + multiset(Filter(s, keep, false)) == multiset(s)
  {
    var kept, dropped := multiset(Filter(s, keep, true)), multiset(Filter(s, keep, false));
    forall e: Entry
      ensures (kept + dropped)[e] == multiset(s)[e]
    {
      FilterCounts(s, keep, true, e);
      FilterCounts(s, keep, false, e);
    }
  }

  lemma FilterStarts(a: seq<Entry>, b: seq<Entry>)
    ensures |Filter(a + b, Entries(a), true)| >= |a|
  {
    assert forall i :: 0 <= i < |a| ==> a[i] in a;
    FilterAll(a, Entries(a), true);
    FilterAppend(a, b, Entries(a), true);
  }

  /** The kept part holds the whole newest prefix. */
  lemma FilterKeepsPrefix(s: seq<Entry>, k: nat)
    requires k <= |s|
    ensures |Filter(s, Entries(s[..k]), true)| >= k
  {
    var a, b := s[..k], s[k..];
    FilterStarts(a, b);
    assert a + b == s;
  }

  /** Every plan is a partition whose kept part is the newest, holds at least min(retainMin, n) entries, and drops
      nothing observed at or after the cutoff. */
  lemma PlanIsSafe(entries: seq<Entry>, cutoff: int, retainMin: int)
    ensures var plan := PlanOf(entries, cutoff, retainMin);
            && multiset(plan.keep + plan.drop) == multiset(entries)
            && |plan.keep| >= Min(retainMin, |entries|)
            && (forall i :: 0 <= i < |plan.drop| ==> plan.drop[i].observedAt < cutoff)
            && (forall i, j :: 0 <= i < |plan.keep| && 0 <= j < |plan.drop| ==>
                  plan.keep[i].observedAt >= plan.drop[j].observedAt)
  {
    var sorted, plan := Sorted(entries), PlanOf(entries, cutoff, retainMin);
    var k := KeptCount(sorted, cutoff, retainMin);
    var keep := Entries(sorted[..k]);
    SortedSorts(entries);
    SameSize(sorted, entries);
    FilterParts(sorted, keep);
    FilterKeepsPrefix(sorted, k);
    SplitIsSafe(sorted, cutoff, retainMin);
    forall j | 0 <= j < |plan.drop|
      ensures plan.drop[j].observedAt < cutoff
      ensures forall i :: 0 <= i < |plan.keep| ==> plan.keep[i].observedAt >= plan.drop[j].observedAt
    {
      DroppedIsLate(sorted, k, plan.drop[j]);
      forall i | 0 <= i < |plan.keep|
        ensures plan.keep[i].observedAt >= plan.drop[j].observedAt
      {
        KeptIsEarly(sorted, k, plan.keep[i]);
      }
    }
  }

  /** What is dropped comes after the prefix. */
  lemma DroppedIsLate(sorted: seq<Entry>, k: nat, e: Entry)
    requires k <= |sorted| && e in Filter(sorted, Entries(sorted[..k]), false)
    ensures exists j :: 0 <= j < |sorted[k..]| && sorted[k..][j] == e
  {
    FilterMembers(sorted, Entries(sorted[..k]), false, e);
    forall i | 0 <= i < k
      ensures sorted[i] in Entries(sorted[..k])
    {
      assert sorted[..k][i] == sorted[i];
    }
    var i :| 0 <= i < |sorted| && sorted[i] == e;
    assert sorted[k..][i - k] == e;
  }

  /** What is kept is in the prefix. */
  lemma KeptIsEarly(sorted: seq<Entry>, k: nat, e: Entry)
    requires k <= |sorted| && e in Filter(sorted, Entries(sorted[..k]), true)
    ensures exists i :: 0 <= i < |sorted[..k]| && sorted[..k][i] == e
  {
    FilterMembers(sorted, Entries(sorted[..k]), true, e);
  }

  /** When no object is listed twice the plan splits the sorted list where keeping stops. */
  lemma PlanIsPrefix(entries: seq<Entry>, cutoff: int, retainMin: int)
    requires NoRepeats(entries)
    ensures var sorted := Sorted(entries);
            var k := KeptCount(sorted, cutoff, retainMin);
            PlanOf(entries, cutoff, retainMin) == Plan(sorted[..k], sorted[k..])
  {
    var sorted := Sorted(entries);
    var k := KeptCount(sorted, cutoff, retainMin);
    SortedSorts(entries);
    SortedKeepsDistinct(entries);
    forall i | 0 <= i < |sorted|
      ensures sorted[i] in Entries(sorted[..k]) <==> i < k
    {
      InPrefixIff(sorted, k, i);
    }
    FilterPrefix(sorted, Entries(sorted[..k]), k);
  }

  lemma SortedKeepsDistinct(entries: seq<Entry>)
    requires NoRepeats(entries)
    ensures NoRepeats(Sorted(entries))
  {
    SortedSorts(entries);
    SameEntries(Sorted(entries), entries);
  }

  lemma InPrefixIff(s: seq<Entry>, k: nat, i: nat)
    requires NoRepeats(s) && k <= |s| && i < |s|
    ensures s[i] in Entries(s[..k]) <==> i < k
  {
    if i < k {
      assert s[..k][i] == s[i];
    } else if s[i] in s[..k] {
      var j :| 0 <= j < k && s[..k][j] == s[i];
      NoRepeatsIndex(s, j, i);
    }
  }

  lemma SplitIsSafe(sorted: seq<Entry>, cutoff: int, retainMin: int)
    requires NewestFirst(sorted)
    ensures var k := KeptCount(sorted, cutoff, retainMin);
            && sorted[..k] + sorted[k..] == sorted
            && k >= Min(retainMin, |sorted|)
            && (forall i :: 0 <= i < |sorted[k..]| ==> sorted[k..][i].observedAt < cutoff)
            && (forall i, j :: 0 <= i < |sorted[..k]| && 0 <= j < |sorted[k..]| ==>
                  sorted[..k][i].observedAt >= sorted[k..][j].observedAt)
  {
    var k := KeptCount(sorted, cutoff, retainMin);
    if k < |sorted| {
      KeptIff(sorted, cutoff, retainMin, k);
    }
    forall i | 0 <= i < |sorted[k..]|
      ensures sorted[k..][i].observedAt < cutoff
    {
      KeptIff(sorted, cutoff, retainMin, k + i);
    }
    forall i, j | 0 <= i < |sorted[..k]| && 0 <= j < |sorted[k..]|
      ensures sorted[..k][i].observedAt >= sorted[k..][j].observedAt
    {
      assert sorted[..k][i] == sorted[i] && sorted[k..][j] == sorted[k + j];
    }
  }

  lemma SameSize(a: seq<Entry>, b: seq<Entry>)
    requires multiset(a) == multiset(b)
    ensures |a| == |b|
  {
    assert |multiset(a)| == |multiset(b)|;
  }

  // ---- Repeated pruning --------------------------------------------------------------------------

  ghost function Newer(s: set<Entry>, e: Entry): set<Entry> {
    set x | x in s && x.observedAt > e.observedAt
  }

  /** What a pruning leaves of a directory: an entry stays while fewer than `retainMin` are newer or it is inside the
      cutoff. */
  ghost function Kept(s: set<Entry>, cutoff: int, retainMin: int): set<Entry> {
    set e | e in s && (|Newer(s, e)| < retainMin || e.observedAt >= cutoff)
  }

  ghost predicate DistinctTimes(s: set<Entry>) {
    forall a, b :: a in s && b in s && a.observedAt == b.observedAt ==> a == b
  }

  lemma {:induction false} PrefixSize(s: seq<Entry>, i: nat)
    requires i <= |s| && NoRepeats(s)
    ensures |Entries(s[..i])| == i
  {
    if i > 0 {
      PrefixSize(s, i - 1);
      assert s[..i] == s[..i - 1] + [s[i - 1]];
      assert Entries(s[..i]) == Entries(s[..i - 1]) + {s[i - 1]};
      forall j | 0 <= j < i - 1
        ensures s[j] != s[i - 1]
      {
        NoRepeatsIndex(s, j, i - 1);
      }
    }
  }

  lemma SameEntries(a: seq<Entry>, b: seq<Entry>)
    requires multiset(a) == multiset(b)
    ensures Entries(a) == Entries(b)
  {
    assert forall e :: e in a <==> e in multiset(a);
    assert forall e :: e in b <==> e in multiset(b);
  }

  /** With distinct times the plan keeps exactly that set. */
  lemma PlanKeeps(entries: seq<Entry>, cutoff: int, retainMin: int)
    requires NoRepeats(entries) && DistinctTimes(Entries(entries))
    ensures Entries(PlanOf(entries, cutoff, retainMin).keep) == Kept(Entries(entries), cutoff, retainMin)
  {
    var sorted := Sorted(entries);
    SortedSorts(entries);
    SameEntries(sorted, entries);
    SortedKeepsDistinct(entries);
    PlanIsPrefix(entries, cutoff, retainMin);
    PrefixIsKept(sorted, cutoff, retainMin);
  }

  lemma KeptIndex(sorted: seq<Entry>, cutoff: int, retainMin: int, i: nat)
    requires i < |sorted| && NewestFirst(sorted) && NoRepeats(sorted) && DistinctTimes(Entries(sorted))
    ensures sorted[i] in Kept(Entries(sorted), cutoff, retainMin) <==> i < KeptCount(sorted, cutoff, retainMin)
  {
    KeptIff(sorted, cutoff, retainMin, i);
    RankIs(sorted, i);
  }

  lemma PrefixIsKept(sorted: seq<Entry>, cutoff: int, retainMin: int)
    requires NewestFirst(sorted) && NoRepeats(sorted) && DistinctTimes(Entries(sorted))
    ensures Entries(sorted[..KeptCount(sorted, cutoff, retainMin)]) == Kept(Entries(sorted), cutoff, retainMin)
  {
    var k, kept := KeptCount(sorted, cutoff, retainMin), Kept(Entries(sorted), cutoff, retainMin);
    forall i | 0 <= i < |sorted|
      ensures sorted[i] in kept <==> i < k
    {
      KeptIndex(sorted, cutoff, retainMin, i);
    }
    PrefixMembers(sorted, kept, k);
  }

  /** A subset that holds exactly the first k members is the prefix. */
  lemma PrefixMembers(s: seq<Entry>, part: set<Entry>, k: nat)
    requires k <= |s| && part <= Entries(s) && forall i :: 0 <= i < |s| ==> (s[i] in part <==> i < k)
    ensures Entries(s[..k]) == part
  {
    forall e | e in part
      ensures e in s[..k]
    {
      var i :| 0 <= i < |s| && s[i] == e;
      assert s[..k][i] == e;
    }
    forall e | e in s[..k]
      ensures e in part
    {
      var i :| 0 <= i < k && s[..k][i] == e;
      assert s[i] == e;
    }
  }

  lemma RankIs(sorted: seq<Entry>, i: nat)
    requires i < |sorted| && NewestFirst(sorted) && NoRepeats(sorted) && DistinctTimes(Entries(sorted))
    ensures |Newer(Entries(sorted), sorted[i])| == i
  {
    var before := Entries(sorted[..i]);
    forall j | 0 <= j < |sorted|
      ensures sorted[j].observedAt > sorted[i].observedAt <==> j < i
    {
      if j != i {
        NoRepeatsIndex(sorted, if j < i then j else i, if j < i then i else j);
        assert sorted[i] in sorted && sorted[j] in sorted;
      }
    }
    assert forall j :: 0 <= j < i ==> sorted[..i][j] == sorted[j];
    assert Newer(Entries(sorted), sorted[i]) == before;
    PrefixSize(sorted, i);
  }

  /** An entry newer than a dropped one is kept, and the dropped one has enough kept entries above it. */
  lemma AboveDropped(s: set<Entry>, cutoff: int, retainMin: int, d: Entry)
    requires d in s && d !in Kept(s, cutoff, retainMin)
    ensures |Newer(Kept(s, cutoff, retainMin), d)| >= retainMin
    decreases |Newer(s, d)|
  {
    var kept := Kept(s, cutoff, retainMin);
    if x :| x in Newer(s, d) && x !in kept {
      assert Newer(s, x) < Newer(s, d);
      SubsetSize(Newer(s, x) + {x}, Newer(s, d));
      AboveDropped(s, cutoff, retainMin, x);
      SubsetSize(Newer(kept, x), Newer(kept, d));
    } else {
      assert Newer(s, d) == Newer(kept, d);
    }
  }

  /** Early pruning is harmless: prune at t1, add any backups, prune at t2 >= t1, and what is left is exactly what one
      prune of everything at t2 would have left. */
  lemma EarlyPruningIsHarmless(s: set<Entry>, added: set<Entry>, t1: int, t2: int, retainDays: int, retainMin: int)
    requires t1 <= t2
    ensures var c1, c2 := Cutoff(t1, retainDays), Cutoff(t2, retainDays);
            Kept(Kept(s, c1, retainMin) + added, c2, retainMin) == Kept(s + added, c2, retainMin)
  {
    var c1, c2 := Cutoff(t1, retainDays), Cutoff(t2, retainDays);
    var left := Kept(s, c1, retainMin);
    forall e | e in s + added
      ensures e in Kept(left + added, c2, retainMin) <==> e in Kept(s + added, c2, retainMin)
    {
      if d :| d in s && d !in left && (d == e || d in Newer(s, e)) {
        AboveDropped(s, c1, retainMin, d);
        SubsetSize(Newer(left, d), Newer(left + added, e));
        SubsetSize(Newer(left, d), Newer(s + added, e));
      } else {
        assert Newer(left + added, e) == Newer(s + added, e);
      }
    }
  }

  // ---- Repeated pruning with ties ----------------------------------------------------------------

  function Times(s: seq<Entry>): multiset<int> {
    if s == [] then multiset{} else Times(Init(s)) + multiset{Last(s).observedAt}
  }

  /** How many entries were observed at an instant or after it. */
  function AtLeast(s: seq<Entry>, v: int): nat {
    if s == [] then 0 else AtLeast(Init(s), v) + if Last(s).observedAt >= v then 1 else 0
  }

  lemma {:induction false} AtLeastCounts(s: seq<Entry>, v: int)
    ensures Times(s)[v] == AtLeast(s, v) - AtLeast(s, v + 1) && AtLeast(s, v) <= |s|
  {
    if s != [] {
      AtLeastCounts(Init(s), v);
    }
  }

  lemma {:induction false} AtLeastShrinks(s: seq<Entry>, v: int, w: int)
    requires v <= w
    ensures AtLeast(s, w) <= AtLeast(s, v) <= |s|
  {
    if s != [] {
      AtLeastShrinks(Init(s), v, w);
    }
  }

  lemma {:induction false} AtLeastAppend(a: seq<Entry>, b: seq<Entry>, v: int)
    ensures AtLeast(a + b, v) == AtLeast(a, v) + AtLeast(b, v)
  {
    if b == [] {
      assert a + b == a;
    } else {
      AtLeastAppend(a, Init(b), v);
      assert Init(a + b) == a + Init(b) && Last(a + b) == Last(b);
    }
  }

  /** The order of a list does not matter to the count. */
  lemma {:induction false} AtLeastUnordered(a: seq<Entry>, b: seq<Entry>, v: int)
    requires multiset(a) == multiset(b)
    ensures AtLeast(a, v) == AtLeast(b, v)
    decreases |a|
  {
    SameSize(a, b);
    if a != [] {
      var init, e := Init(a), Last(a);
      var i := Find(a, b);
      TakeOut(b, i, v);
      assert multiset(init) == multiset(b[..i] + b[i + 1..]) by {
        assert a == init + [e];
      }
      AtLeastUnordered(init, b[..i] + b[i + 1..], v);
    }
  }

  lemma Find(a: seq<Entry>, b: seq<Entry>) returns (i: nat)
    requires a != [] && multiset(a) == multiset(b)
    ensures i < |b| && b[i] == Last(a)
  {
    assert Last(a) in a && Last(a) in multiset(a);
    i :| 0 <= i < |b| && b[i] == Last(a);
  }

  lemma TakeOut(b: seq<Entry>, i: nat, v: int)
    requires i < |b|
    ensures AtLeast(b, v) == AtLeast(b[..i] + b[i + 1..], v) + if b[i].observedAt >= v then 1 else 0
    ensures multiset(b[..i] + b[i + 1..]) == multiset(b) - multiset{b[i]}
  {
    var x, e, y := b[..i], b[i], b[i + 1..];
    assert b == x + [e] + y;
    AtLeastAppend(x + [e], y, v);
    AtLeastAppend(x, y, v);
    assert Init(x + [e]) == x && Last(x + [e]) == e;
  }

  /** In a sorted list a prefix holds the newest. */
  lemma {:induction false} PrefixAtLeast(s: seq<Entry>, k: nat, v: int)
    requires NewestFirst(s) && k <= |s|
    ensures AtLeast(s[..k], v) == Min(k, AtLeast(s, v))
  {
    if k == |s| {
      assert s[..k] == s;
      AtLeastShrinks(s, v, v);
    } else {
      var init := Init(s);
      assert init[..k] == s[..k] && forall i :: 0 <= i < |init| ==>
          init[i] == s[i] && init[i].observedAt >= s[|s| - 1].observedAt;
      PrefixAtLeast(init, k, v);
      if Last(s).observedAt >= v {
        AllAtLeast(init, v);
      }
    }
  }

  lemma {:induction false} AllAtLeast(s: seq<Entry>, v: int)
    requires forall i :: 0 <= i < |s| ==> s[i].observedAt >= v
    ensures AtLeast(s, v) == |s|
  {
    if s != [] {
      assert forall i :: 0 <= i < |Init(s)| ==> Init(s)[i] == s[i];
      AllAtLeast(Init(s), v);
      assert Last(s) == s[|s| - 1];
    }
  }

  /** How many are kept depends on the times alone. */
  lemma {:induction false} KeptCountIs(s: seq<Entry>, cutoff: int, retainMin: int)
    requires NewestFirst(s)
    ensures KeptCount(s, cutoff, retainMin) == Max(Min(retainMin, |s|), AtLeast(s, cutoff))
  {
    AtLeastShrinks(s, cutoff, cutoff);
    if s != [] {
      var init := Init(s);
      assert forall i :: 0 <= i < |init| ==> init[i] == s[i] && init[i].observedAt >= s[|s| - 1].observedAt;
      if Last(s).observedAt >= cutoff {
        AllAtLeast(init, cutoff);
      } else if |s| > retainMin {
        KeptCountIs(init, cutoff, retainMin);
      }
    }
  }

  /** How many of the kept entries were observed at an instant or after it, in terms of the whole list. */
  lemma KeptAtLeast(entries: seq<Entry>, cutoff: int, retainMin: int, v: int)
    requires NoRepeats(entries)
    ensures var keep, k := PlanOf(entries, cutoff, retainMin).keep,
            Max(Min(retainMin, |entries|), AtLeast(entries, cutoff));
            |keep| == k <= |entries| && AtLeast(keep, v) == Min(k, AtLeast(entries, v))
  {
    var sorted := Sorted(entries);
    SortedSorts(entries);
    SameSize(sorted, entries);
    AtLeastUnordered(sorted, entries, v);
    AtLeastUnordered(sorted, entries, cutoff);
    PlanIsPrefix(entries, cutoff, retainMin);
    KeptCountIs(sorted, cutoff, retainMin);
    PrefixAtLeast(sorted, KeptCount(sorted, cutoff, retainMin), v);
  }

  /** The arithmetic of pruning twice: n old and a added entries, of which o and x are at an instant or after it. */
  lemma PruneTwice(retainMin: int, n: nat, a: nat, p: nat, q: nat, y: nat, o: nat, x: nat)
    requires p <= n && q <= p && y <= a && o <= n && x <= a && (o > p ==> y <= x)
    ensures var k := Max(Min(retainMin, n), p);
            Min(Max(Min(retainMin, k + a), Min(k, q) + y), Min(k, o) + x) ==
                Min(Max(Min(retainMin, n + a), q + y), o + x)
  {
  }

  /** What is listed the second time, counted. */
  lemma ListedAtLeast(earlier: seq<Entry>, added: seq<Entry>, listed: seq<Entry>, c1: int, retainMin: int, w: int)
    requires NoRepeats(earlier) && multiset(listed) == multiset(PlanOf(earlier, c1, retainMin).keep + added)
    ensures var k := Max(Min(retainMin, |earlier|), AtLeast(earlier, c1));
            && |listed| == k + |added| && k <= |earlier|
            && AtLeast(listed, w) == Min(k, AtLeast(earlier, w)) + AtLeast(added, w)
  {
    var left := PlanOf(earlier, c1, retainMin).keep;
    AtLeastUnordered(listed, left + added, w);
    AtLeastAppend(left, added, w);
    SameSize(listed, left + added);
    KeptAtLeast(earlier, c1, retainMin, w);
  }

  /** What one prune of everything sees, counted. */
  lemma WholeAtLeast(earlier: seq<Entry>, added: seq<Entry>, whole: seq<Entry>, w: int)
    requires multiset(whole) == multiset(earlier + added)
    ensures |whole| == |earlier| + |added| && AtLeast(whole, w) == AtLeast(earlier, w) + AtLeast(added, w)
  {
    AtLeastUnordered(whole, earlier + added, w);
    AtLeastAppend(earlier, added, w);
    SameSize(whole, earlier + added);
  }

  lemma EarlyPruningKeepsCounts(earlier: seq<Entry>, added: seq<Entry>, listed: seq<Entry>, whole: seq<Entry>,
          c1: int, c2: int, retainMin: int, v: int)
    requires c1 <= c2 && NoRepeats(earlier) && NoRepeats(listed) && NoRepeats(whole)
    requires multiset(listed) == multiset(PlanOf(earlier, c1, retainMin).keep + added)
    requires multiset(whole) == multiset(earlier + added)
    ensures AtLeast(PlanOf(listed, c2, retainMin).keep, v) == AtLeast(PlanOf(whole, c2, retainMin).keep, v)
  {
    KeptAtLeast(listed, c2, retainMin, v);
    KeptAtLeast(whole, c2, retainMin, v);
    ListedAtLeast(earlier, added, listed, c1, retainMin, v);
    ListedAtLeast(earlier, added, listed, c1, retainMin, c2);
    WholeAtLeast(earlier, added, whole, v);
    WholeAtLeast(earlier, added, whole, c2);
    CountsOrdered(earlier, added, c1, c2, v);
    PruneTwice(retainMin, |earlier|, |added|, AtLeast(earlier, c1), AtLeast(earlier, c2), AtLeast(added, c2),
               AtLeast(earlier, v), AtLeast(added, v));
  }

  lemma CountsOrdered(earlier: seq<Entry>, added: seq<Entry>, c1: int, c2: int, v: int)
    requires c1 <= c2
    ensures AtLeast(earlier, c2) <= AtLeast(earlier, c1) <= |earlier| && AtLeast(earlier, v) <= |earlier|
    ensures AtLeast(added, c2) <= |added| && AtLeast(added, v) <= |added|
    ensures AtLeast(earlier, v) > AtLeast(earlier, c1) ==> AtLeast(added, c2) <= AtLeast(added, v)
  {
    AtLeastShrinks(earlier, c1, c2);
    AtLeastShrinks(earlier, v, v);
    AtLeastShrinks(added, v, v);
    AtLeastShrinks(added, c2, c2);
    if v <= c2 {
      AtLeastShrinks(added, v, c2);
    } else {
      AtLeastShrinks(earlier, c1, v);
    }
  }

  /** Early pruning is harmless even among equal times, where which of them a plan keeps depends on the listing: prune
      at t1, add backups, list the directory in any order and prune at t2 >= t1, and exactly as many backups of each
      time are left as one prune of everything at t2 would have left. */
  lemma EarlyPruningKeepsTimes(earlier: seq<Entry>, added: seq<Entry>, listed: seq<Entry>, whole: seq<Entry>,
          t1: int, t2: int, retainDays: int, retainMin: int)
    requires t1 <= t2 && NoRepeats(earlier) && NoRepeats(listed) && NoRepeats(whole)
    requires multiset(listed) == multiset(PlanOf(earlier, Cutoff(t1, retainDays), retainMin).keep + added)
    requires multiset(whole) == multiset(earlier + added)
    ensures var c2 := Cutoff(t2, retainDays);
            Times(PlanOf(listed, c2, retainMin).keep) == Times(PlanOf(whole, c2, retainMin).keep)
  {
    var c1, c2 := Cutoff(t1, retainDays), Cutoff(t2, retainDays);
    var a, b := PlanOf(listed, c2, retainMin).keep, PlanOf(whole, c2, retainMin).keep;
    forall v
      ensures Times(a)[v] == Times(b)[v]
    {
      EarlyPruningKeepsCounts(earlier, added, listed, whole, c1, c2, retainMin, v);
      EarlyPruningKeepsCounts(earlier, added, listed, whole, c1, c2, retainMin, v + 1);
      AtLeastCounts(a, v);
      AtLeastCounts(b, v);
    }
  }

  // ---- The directory -----------------------------------------------------------------------------

  lemma NoRepeatsAdd(s: seq<Entry>, e: Entry)
    requires NoRepeats(s) && e !in s
    ensures NoRepeats(s + [e]) && Entries(s + [e]) == Entries(s) + {e}
  {
    assert e !in multiset(s);
  }

  /** No entry is both kept and dropped, and every entry is one or the other. */
  lemma PlanSplits(entries: seq<Entry>, cutoff: int, retainMin: int)
    ensures var plan := PlanOf(entries, cutoff, retainMin);
            Entries(plan.keep) !! Entries(plan.drop) && Entries(entries) == Entries(plan.keep) + Entries(plan.drop)
  {
    var sorted, plan := Sorted(entries), PlanOf(entries, cutoff, retainMin);
    var keep := Entries(sorted[..KeptCount(sorted, cutoff, retainMin)]);
    SortedSorts(entries);
    SameEntries(sorted, entries);
    forall e
      ensures e in plan.keep <==> e in sorted && e in keep
      ensures e in plan.drop <==> e in sorted && e !in keep
    {
      FilterMembers(sorted, keep, true, e);
      FilterMembers(sorted, keep, false, e);
    }
  }

  class BackupDir {
    var files: set<Entry>

    constructor ()
      ensures files == {}
    {
      files := {};
    }

    /** `listBackupEntries`: the directory in whatever order the file system gives. */
    method List() returns (entries: seq<Entry>)
      ensures NoRepeats(entries) && Entries(entries) == files
    {
      entries := [];
      var todo := files;
      while todo != {}
        invariant todo <= files && NoRepeats(entries) && Entries(entries) == files - todo
        decreases todo
      {
        var e :| e in todo;
        assert e !in entries by {
          assert e !in Entries(entries);
        }
        NoRepeatsAdd(entries, e);
        entries := entries + [e];
        todo := todo - {e};
      }
    }

    /** `pruneBackupDir`: plan over the listing, then delete what is dropped, file by file. */
    method Prune(now: int, retainDays: int, retainMin: int) returns (r: Result<Plan, PlanError>)
      modifies this
      ensures r.Err? <==> retainDays < 1 || retainMin < 1
      ensures r.Err? ==> files == old(files)
      ensures r.Ok? ==> files == Entries(r.value.keep) && old(files) - files == Entries(r.value.drop)
      ensures r.Ok? && DistinctTimes(old(files)) ==> files == Kept(old(files), Cutoff(now, retainDays), retainMin)
    {
      var listing := List();
      r := PlanRetention(listing, now, retainDays, retainMin);
      if r.Err? {
        return;
      }
      var plan := r.value;
      PlanSplits(listing, Cutoff(now, retainDays), retainMin);
      for i := 0 to |plan.drop|
        invariant files == old(files) - Entries(plan.drop[..i])
      {
        files := files - {plan.drop[i]};
        assert plan.drop[..i + 1] == plan.drop[..i] + [plan.drop[i]];
        EntriesAdd(plan.drop[..i], plan.drop[i]);
      }
      assert plan.drop[..|plan.drop|] == plan.drop;
      if DistinctTimes(old(files)) {
        PlanKeeps(listing, Cutoff(now, retainDays), retainMin);
      }
    }
  }
}
