/** commercial/acquisition/cycle.py: the funnel stages, and a bottleneck that does not flap. */
module Bottleneck {
  import opened Prelude

  datatype Stage = Reached | AssetVisit | UsefulAction | Monitor | Handraiser | Qco | Proposal | Won

  const CANONICAL_STAGES := [Reached, AssetVisit, UsefulAction, Monitor, Handraiser, Qco, Proposal, Won]

  datatype Freshness = Fresh | Stale | UnknownFreshness | ErrorFreshness

  datatype Row = Row(stage: Stage, observed: bool, count: Option<int>, freshness: Freshness, source: string)

  /** A row has a count exactly when it is observed, and the count is not negative. */
  predicate SoundRow(r: Row) {
    (r.observed <==> r.count.Some?) && (r.count.Some? ==> r.count.value >= 0)
  }

  // ---- Materializing the stages ------------------------------------------------------------------

  datatype SaidState = SaidObserved | SaidUnknown | SaidOtherwise

  /** A raw observation. `stage` is None when it names no canonical stage, `proxy` is the verdict on its vocabulary,
      `aged` says that it is older than the policy allows, and `identity` is its own dedupe key or else a digest of its
      fields. */
  datatype Observation = Observation(
    stage: Option<Stage>, netNewInbound: bool, proxy: bool, state: SaidState, count: Option<int>,
    freshness: Freshness, aged: bool, source: string, identity: string)

  datatype Parsed = Skipped | Rejected(stage: Stage, identity: string) | Reading(row: Row, identity: string)

  /** `explicit_stage_row`, and the ageing of its freshness. */
  function ReadRow(o: Observation): Parsed {
    var freshness := if o.aged then Stale else o.freshness;
    if o.stage.None? || !o.netNewInbound then Skipped
    else if o.proxy then Rejected(o.stage.value, o.identity)
    else if o.state.SaidObserved? && o.count.Some? && o.count.value >= 0 then
      Reading(Row(o.stage.value, true, o.count, freshness, o.source), o.identity)
    else if o.state.SaidUnknown? then Reading(Row(o.stage.value, false, None, freshness, o.source), o.identity)
    else Rejected(o.stage.value, o.identity)
  }

  function StageOf(p: Parsed): Stage
    requires !p.Skipped?
  {
    if p.Rejected? then p.stage else p.row.stage
  }

  function UnknownRow(stage: Stage): Row {
    Row(stage, false, None, UnknownFreshness, "missing")
  }

  /** What the loop carries: identities seen, and the row of every stage already filled. */
  datatype Progress = Progress(seen: set<string>, filled: map<Stage, Row>)

  const NOTHING := Progress({}, map[])

  function Take(g: Progress, p: Parsed): Progress {
    if p.Skipped? || p.identity in g.seen then g
    else if StageOf(p) in g.filled then g.(seen := g.seen + {p.identity})
    else Progress(g.seen + {p.identity}, g.filled[StageOf(p) := if p.Rejected? then UnknownRow(p.stage) else p.row])
  }

  function TakeAll(g: Progress, os: seq<Observation>): Progress {
    if os == [] then g else Take(TakeAll(g, Init(os)), ReadRow(Last(os)))
  }

  function RowFor(g: Progress, stage: Stage): Row {
    if stage in g.filled then g.filled[stage] else UnknownRow(stage)
  }

  function Materialized(os: seq<Observation>): seq<Row> {
    seq(|CANONICAL_STAGES|, i requires 0 <= i < |CANONICAL_STAGES| => RowFor(TakeAll(NOTHING, os), CANONICAL_STAGES[i]))
  }

  /** `materialize_stages`. */
  method MaterializeStages(os: seq<Observation>) returns (rows: seq<Row>)
    ensures rows == Materialized(os)
  {
    var seen: set<string>, filled: set<Stage>, byStage: map<Stage, Row> := {}, {}, map[];
    for i := 0 to |os|
      invariant filled == byStage.Keys && Progress(seen, byStage) == TakeAll(NOTHING, os[..i])
    {
      assert Init(os[..i + 1]) == os[..i] && Last(os[..i + 1]) == os[i];
      var parsed := ReadRow(os[i]);
      if parsed.Skipped? || parsed.identity in seen {
        continue;
      }
      seen := seen + {parsed.identity};
      var stage := StageOf(parsed);
      if stage in filled {
        continue;
      }
      filled := filled + {stage};
      byStage := byStage[stage := if parsed.Rejected? then UnknownRow(stage) else parsed.row];
    }
    assert os[..|os|] == os;
    rows := [];
    for i := 0 to |CANONICAL_STAGES|
      invariant rows == Materialized(os)[..i]
    {
      rows := rows + [RowFor(Progress(seen, byStage), CANONICAL_STAGES[i])];
    }
  }

  lemma {:induction false} FilledSoundly(os: seq<Observation>, stage: Stage)
    ensures var filled := TakeAll(NOTHING, os).filled;
            stage in filled ==> filled[stage].stage == stage && SoundRow(filled[stage])
  {
    if os != [] {
      FilledSoundly(Init(os), stage);
    }
  }

  /** Whatever is observed, each canonical stage has one row, in order, and only an observed row carries a count. */
  lemma MaterializedIsSound(os: seq<Observation>)
    ensures |Materialized(os)| == |CANONICAL_STAGES|
    ensures forall i :: 0 <= i < |CANONICAL_STAGES| ==>
            Materialized(os)[i].stage == CANONICAL_STAGES[i] && SoundRow(Materialized(os)[i])
  {
    forall i | 0 <= i < |CANONICAL_STAGES|
      ensures Materialized(os)[i].stage == CANONICAL_STAGES[i] && SoundRow(Materialized(os)[i])
    {
      FilledSoundly(os, CANONICAL_STAGES[i]);
    }
  }

  lemma {:induction false} TakeAppend(g: Progress, a: seq<Observation>, b: seq<Observation>)
    ensures TakeAll(g, a + b) == TakeAll(TakeAll(g, a), b)
  {
    if b == [] {
      assert a + b == a;
    } else {
      TakeAppend(g, a, Init(b));
      assert Init(a + b) == a + Init(b);
    }
  }

  lemma {:induction false} SeenGrows(g: Progress, os: seq<Observation>)
    ensures g.seen <= TakeAll(g, os).seen
    ensures forall o <- os :: !ReadRow(o).Skipped? ==> ReadRow(o).identity in TakeAll(g, os).seen
  {
    if os != [] {
      SeenGrows(g, Init(os));
      assert os == Init(os) + [Last(os)];
    }
  }

  /** Repeating an observation anywhere after its first appearance changes nothing. */
  lemma RepeatingIsHarmless(before: seq<Observation>, o: Observation, after: seq<Observation>)
    requires o in before
    ensures Materialized(before + [o] + after) == Materialized(before + after)
  {
    SeenGrows(NOTHING, before);
    TakeAppend(NOTHING, before, [o]);
    TakeAppend(NOTHING, before + [o], after);
    TakeAppend(NOTHING, before, after);
    assert Init([o]) == [] && Last([o]) == o;
    assert TakeAll(TakeAll(NOTHING, before), [o]) == Take(TakeAll(NOTHING, before), ReadRow(o));
  }

  // ---- Which observation fills a stage -----------------------------------------------------------

  /** The observation names a stage and belongs to the funnel, and no earlier such one has its identity. */
  ghost predicate FirstOfIdentity(os: seq<Observation>, i: nat)
    requires i < |os|
  {
    && os[i].stage.Some? && os[i].netNewInbound
    && forall j :: 0 <= j < i && os[j].stage.Some? && os[j].netNewInbound ==> os[j].identity != os[i].identity
  }

  /** Among those it is the first for its stage. */
  ghost predicate Fills(os: seq<Observation>, i: nat, stage: Stage)
    requires i < |os|
  {
    && FirstOfIdentity(os, i) && os[i].stage == Some(stage)
    && forall j :: 0 <= j < i && FirstOfIdentity(os, j) ==> os[j].stage != Some(stage)
  }

  /** What one observation says of its stage: a count when it reports one in canonical vocabulary, stale when it is too
      old; otherwise nothing is known. */
  ghost predicate Says(r: Row, o: Observation, stage: Stage) {
    && r.stage == stage
    && (r.observed <==> !o.proxy && o.state == SaidObserved && o.count.Some? && o.count.value >= 0)
    && (r.observed ==> r.count == o.count && r.source == o.source)
    && (!r.observed ==> r.count == None)
    && (r.freshness == Fresh <==>
          !o.aged && o.freshness == Fresh && (r.observed || (!o.proxy && o.state == SaidUnknown)))
  }

  lemma SameObservations(os: seq<Observation>)
    requires os != []
    ensures forall i: nat :: i < |os| - 1 ==> Init(os)[i] == os[i]
    ensures forall i: nat :: i < |os| - 1 ==> FirstOfIdentity(Init(os), i) == FirstOfIdentity(os, i)
    ensures forall i: nat, stage :: i < |os| - 1 ==> Fills(Init(os), i, stage) == Fills(os, i, stage)
  {
  }

  lemma {:induction false} SeenAre(os: seq<Observation>, identity: string)
    ensures identity in TakeAll(NOTHING, os).seen <==>
            exists i :: 0 <= i < |os| && os[i].stage.Some? && os[i].netNewInbound && os[i].identity == identity
  {
    if os != [] {
      SeenAre(Init(os), identity);
      assert os[|os| - 1] == Last(os);
      assert forall i :: 0 <= i < |os| - 1 ==> Init(os)[i] == os[i];
    }
  }

  lemma LastIsTaken(os: seq<Observation>)
    requires os != []
    ensures FirstOfIdentity(os, |os| - 1) <==>
            !ReadRow(Last(os)).Skipped? && ReadRow(Last(os)).identity !in TakeAll(NOTHING, Init(os)).seen
  {
    SeenAre(Init(os), Last(os).identity);
    assert forall i :: 0 <= i < |os| - 1 ==> Init(os)[i] == os[i];
  }

  ghost predicate Filled(os: seq<Observation>, stage: Stage, filled: map<Stage, Row>) {
    && (stage in filled <==> exists i: nat :: i < |os| && FirstOfIdentity(os, i) && os[i].stage == Some(stage))
    && forall i: nat :: i < |os| && Fills(os, i, stage) ==> stage in filled && Says(filled[stage], os[i], stage)
  }

  lemma {:induction false} FilledBy(os: seq<Observation>, stage: Stage)
    ensures Filled(os, stage, TakeAll(NOTHING, os).filled)
  {
    if os != [] {
      FilledBy(Init(os), stage);
      LastIsTaken(os);
      FilledGoesOn(os, stage, TakeAll(NOTHING, Init(os)), TakeAll(NOTHING, os));
    }
  }

  lemma FilledGoesOn(os: seq<Observation>, stage: Stage, before: Progress, after: Progress)
    requires os != [] && Filled(Init(os), stage, before.filled) && after == Take(before, ReadRow(Last(os)))
    requires FirstOfIdentity(os, |os| - 1) <==>
             !ReadRow(Last(os)).Skipped? && ReadRow(Last(os)).identity !in before.seen
    ensures Filled(os, stage, after.filled)
  {
    var last := |os| - 1;
    SameObservations(os);
    if !FirstOfIdentity(os, last) || os[last].stage != Some(stage) {
      assert stage in before.filled <==> stage in after.filled;
      assert !Fills(os, last, stage);
    } else {
      assert stage in after.filled;
      assert Fills(os, last, stage) <==> stage !in before.filled;
      if stage !in before.filled {
        ReadSays(os[last], stage);
      }
    }
  }

  lemma ReadSays(o: Observation, stage: Stage)
    requires o.stage == Some(stage) && o.netNewInbound
    ensures var p := ReadRow(o);
            !p.Skipped? && StageOf(p) == stage && Says(if p.Rejected? then UnknownRow(stage) else p.row, o, stage)
  {
  }

  /** A stage's row says what the first new observation of the stage says, whatever else comes before, between or after;
      and nothing when there is none. */
  lemma StageRowIs(os: seq<Observation>, k: nat)
    requires k < |CANONICAL_STAGES|
    ensures forall i: nat :: i < |os| && Fills(os, i, CANONICAL_STAGES[k]) ==>
              Says(Materialized(os)[k], os[i], CANONICAL_STAGES[k])
    ensures (forall i: nat :: i < |os| ==> !(FirstOfIdentity(os, i) && os[i].stage == Some(CANONICAL_STAGES[k]))) ==>
              Materialized(os)[k] == Row(CANONICAL_STAGES[k], false, None, UnknownFreshness, "missing")
  {
    FilledBy(os, CANONICAL_STAGES[k]);
  }

  // ---- Choosing the bottleneck -------------------------------------------------------------------

  datatype AntiNoise = AntiNoise(minAbsDelta: int, zeroIsAlwaysMaterial: bool)

  /** A delta of zero reads as the default of two. */
  function MinAbs(a: AntiNoise): int {
    if a.minAbsDelta == 0 then 2 else a.minAbsDelta
  }

  /** `materially_lower`. */
  predicate MateriallyLower(candidate: Row, current: Row, a: AntiNoise) {
    if !candidate.observed || candidate.count.None? then false
    else if !current.observed || current.count.None? then true
    else if a.zeroIsAlwaysMaterial && candidate.count.value == 0 && current.count.value != 0 then true
    else if current.count.value == 0 then false
    else current.count.value - candidate.count.value >= MinAbs(a)
  }

  predicate FreshObserved(r: Row) {
    r.observed && r.count.Some? && r.freshness == Fresh
  }

  predicate RowsOk(rows: seq<Row>) {
    && (forall r <- rows :: SoundRow(r))
    && (forall i, j :: 0 <= i < j < |rows| ==> rows[i].stage != rows[j].stage)
  }

  /** The first fresh row with the least count, which is the first zero when there is one. */
  function Lowest(rows: seq<Row>): (lowest: Option<Row>)
    ensures lowest.Some? ==> FreshObserved(lowest.value)
  {
    if rows == [] then None
    else
      var earlier, r := Lowest(Init(rows)), Last(rows);
      if !FreshObserved(r) then earlier
      else if earlier.None? || r.count.value < earlier.value.count.value then Some(r)
      else earlier
  }

  function RowNamed(rows: seq<Row>, stage: Option<Stage>): Option<Row> {
    if rows == [] || stage.None? then None
    else if RowNamed(Init(rows), stage).Some? then RowNamed(Init(rows), stage)
    else if Last(rows).stage == stage.value then Some(Last(rows)) else None
  }

  /** `select_bottleneck`: the lowest fresh stage, unless the previous bottleneck is still fresh and not materially
      higher. */
  function SelectBottleneck(rows: seq<Row>, a: AntiNoise, previous: Option<Stage>): Option<Row> {
    var candidate := Lowest(rows);
    if candidate.None? then None
    else
      var prior := RowNamed(rows, previous);
      if prior.None? || !FreshObserved(prior.value) then candidate
      else if prior.value.stage == candidate.value.stage then candidate
      else if !MateriallyLower(candidate.value, prior.value, a) then prior
      else candidate
  }

  lemma {:induction false} LowestIs(rows: seq<Row>)
    ensures Lowest(rows).None? <==> forall r <- rows :: !FreshObserved(r)
    ensures Lowest(rows).Some? ==> Lowest(rows).value in rows && FreshObserved(Lowest(rows).value)
    ensures Lowest(rows).Some? ==> forall r <- rows :: FreshObserved(r) ==>
            Lowest(rows).value.count.value <= r.count.value
  {
    if rows != [] {
      LowestIs(Init(rows));
      assert rows == Init(rows) + [Last(rows)];
    }
  }

  ghost predicate NothingAsLow(earlier: seq<Row>, r: Row)
    requires r.count.Some?
  {
    forall e <- earlier :: FreshObserved(e) ==> e.count.value > r.count.value
  }

  /** And it is the first of them. */
  lemma {:induction false} LowestIsFirst(rows: seq<Row>)
    requires Lowest(rows).Some?
    ensures exists i :: 0 <= i < |rows| && rows[i] == Lowest(rows).value && NothingAsLow(rows[..i], rows[i])
  {
    var init, last := Init(rows), |rows| - 1;
    LowestIs(init);
    assert forall i :: 0 <= i < last ==> rows[i] == init[i] && rows[i] in init;
    if Lowest(init) == Lowest(rows) {
      LowestIsFirst(init);
    } else {
      assert rows[last] == Lowest(rows).value;
    }
  }

  lemma {:induction false} RowNamedIs(rows: seq<Row>, r: Row)
    requires RowsOk(rows) && r in rows
    ensures RowNamed(rows, Some(r.stage)) == Some(r)
  {
    var init, last := Init(rows), Last(rows);
    assert rows == init + [last];
    if r in init {
      RowNamedIs(init, r);
    } else {
      RowNamedAbsent(init, r.stage);
    }
  }

  lemma {:induction false} RowNamedAbsent(rows: seq<Row>, stage: Stage)
    ensures RowNamed(rows, Some(stage)).None? <==> forall r <- rows :: r.stage != stage
    ensures RowNamed(rows, Some(stage)).Some? ==> RowNamed(rows, Some(stage)).value in rows
  {
    if rows != [] {
      RowNamedAbsent(Init(rows), stage);
      assert rows == Init(rows) + [Last(rows)];
    }
  }

  /** Fed its own answer, the choice repeats it. */
  lemma ChoiceIsStable(rows: seq<Row>, a: AntiNoise, previous: Option<Stage>)
    requires RowsOk(rows) && SelectBottleneck(rows, a, previous).Some?
    ensures var chosen := SelectBottleneck(rows, a, previous);
            SelectBottleneck(rows, a, Some(chosen.value.stage)) == chosen
  {
    LowestIs(rows);
    if previous.Some? {
      RowNamedAbsent(rows, previous.value);
    }
    RowNamedIs(rows, SelectBottleneck(rows, a, previous).value);
  }

  /** The choice is a fresh row. When zero always counts, it is a zero whenever a fresh zero exists; in any case it is
      less than the smallest material delta above the fresh minimum. */
  lemma ChoiceIsNearMinimum(rows: seq<Row>, a: AntiNoise, previous: Option<Stage>, r: Row)
    requires RowsOk(rows) && r in rows && FreshObserved(r)
    ensures var chosen := SelectBottleneck(rows, a, previous);
            && chosen.Some? && chosen.value in rows && FreshObserved(chosen.value)
            && (a.zeroIsAlwaysMaterial && r.count.value == 0 ==> chosen.value.count.value == 0)
            && chosen.value.count.value <= r.count.value + Max(0, MinAbs(a) - 1)
  {
    LowestIs(rows);
    if previous.Some? {
      RowNamedAbsent(rows, previous.value);
    }
  }

  /** The least difference that counts. */
  function LeastDelta(a: AntiNoise): int {
    if a.minAbsDelta != 0 then a.minAbsDelta else 2
  }

  /** No fresh row is materially below this one: none by the least difference, unless this one is at zero already, and
      no zero breaks it. */
  ghost predicate Withstands(rows: seq<Row>, a: AntiNoise, prior: Row)
    requires prior.count.Some?
  {
    forall r <- rows :: FreshObserved(r) ==>
      && (prior.count.value == 0 || prior.count.value - r.count.value < LeastDelta(a))
      && !(a.zeroIsAlwaysMaterial && r.count.value == 0 && prior.count.value != 0)
  }

  /** A fresh previous bottleneck stays exactly when it is the first of the lowest itself, or nothing is materially
      below it; otherwise the first of the lowest takes its place. */
  lemma PriorStaysIff(rows: seq<Row>, a: AntiNoise, prior: Row)
    requires RowsOk(rows) && prior in rows && FreshObserved(prior)
    ensures SelectBottleneck(rows, a, Some(prior.stage)) ==
            if Withstands(rows, a, prior) then Some(prior) else Lowest(rows)
  {
    LowestIs(rows);
    RowNamedIs(rows, prior);
    var lowest := Lowest(rows).value;
    if !Withstands(rows, a, prior) && lowest.stage != prior.stage {
      var r :| r in rows && FreshObserved(r)
               && !(&& (prior.count.value == 0 || prior.count.value - r.count.value < LeastDelta(a))
                    && !(a.zeroIsAlwaysMaterial && r.count.value == 0 && prior.count.value != 0));
      assert SoundRow(r) && SoundRow(lowest);
    }
    if lowest.stage == prior.stage {
      RowNamedIs(rows, lowest);
    }
  }

  /** Something is chosen exactly when some row is observed, counted and fresh, and what is chosen is such a row. */
  lemma ChosenIsFresh(rows: seq<Row>, a: AntiNoise, previous: Option<Stage>)
    ensures var chosen := SelectBottleneck(rows, a, previous);
            && (chosen.Some? <==> exists r :: r in rows && r.observed && r.count.Some? && r.freshness == Fresh)
            && (chosen.Some? ==>
                  chosen.value in rows && chosen.value.observed && chosen.value.count.Some?
                  && chosen.value.freshness == Fresh)
  {
    LowestIs(rows);
    if previous.Some? && RowNamed(rows, previous).Some? {
      NamedIsNamed(rows, previous.value);
    }
  }

  /** Without a fresh previous bottleneck the first of the lowest is chosen, if any stage is fresh at all. */
  lemma NoPriorChoosesLowest(rows: seq<Row>, a: AntiNoise, previous: Option<Stage>)
    requires forall r <- rows :: FreshObserved(r) ==> previous != Some(r.stage)
    ensures SelectBottleneck(rows, a, previous) == Lowest(rows)
  {
    if previous.Some? && RowNamed(rows, previous).Some? {
      NamedIsNamed(rows, previous.value);
    }
  }

  lemma {:induction false} NamedIsNamed(rows: seq<Row>, stage: Stage)
    requires RowNamed(rows, Some(stage)).Some?
    ensures var r := RowNamed(rows, Some(stage)).value; r in rows && r.stage == stage
  {
    if rows != [] {
      assert rows == Init(rows) + [Last(rows)];
      if RowNamed(Init(rows), Some(stage)).Some? {
        NamedIsNamed(Init(rows), stage);
      }
    }
  }

  lemma MaterializedRowsOk(os: seq<Observation>)
    ensures RowsOk(Materialized(os))
  {
    MaterializedIsSound(os);
    var rows := Materialized(os);
    forall i, j | 0 <= i < j < |rows|
      ensures rows[i].stage != rows[j].stage
    {
      StagesDistinct(i, j);
    }
  }

  lemma StagesDistinct(i: nat, j: nat)
    requires i < j < |CANONICAL_STAGES|
    ensures CANONICAL_STAGES[i] != CANONICAL_STAGES[j]
  {
  }

  /** Over what was materialized the choice settles at once: the answer of one evaluation, fed back to the next over the
      same observations however often repeated, comes back unchanged. */
  lemma RepeatedObservationsKeepChoice(before: seq<Observation>, o: Observation, after: seq<Observation>, a: AntiNoise,
          previous: Option<Stage>)
    requires o in before && SelectBottleneck(Materialized(before + after), a, previous).Some?
    ensures var chosen := SelectBottleneck(Materialized(before + after), a, previous);
            SelectBottleneck(Materialized(before + [o] + after), a, Some(chosen.value.stage)) == chosen
  {
    RepeatingIsHarmless(before, o, after);
    MaterializedRowsOk(before + after);
    ChoiceIsStable(Materialized(before + after), a, previous);
  }
}
