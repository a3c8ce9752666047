/** Work-order rows as both evaluators and the ledger projection read them. */
module WorkOrders {
  import opened Prelude
  import opened Decisions

  datatype Stage =
    | AwaitingInputs | Ready | InProgress | Blocked | Qa | ReadyToDeliver | Delivered | Accepted | ReworkRequired
    | Closed | Cancelled

  /** A field is None when the row lacks it or holds a value outside its domain; an entry that is no object has no
      fields. */
  datatype WorkOrder = WorkOrder(id: Option<string>, stage: Option<Stage>, units: Option<int>)

  predicate Terminal(stage: Stage) {
    stage in {Closed, Cancelled}
  }

  /** The row carries an id and a known stage. */
  predicate Named(w: WorkOrder) {
    w.id.Some? && w.id.value != "" && w.stage.Some?
  }

  predicate Positive(units: Option<int>) {
    units.Some? && units.value > 0
  }

  /** Ids already taken by the rows read so far. */
  function Seen(rows: seq<WorkOrder>): set<string> {
    set i | 0 <= i < |rows| && Named(rows[i]) :: rows[i].id.value
  }

  /** A row that may be counted: named, and not a repetition of an earlier id. */
  predicate Identified(earlier: seq<WorkOrder>, w: WorkOrder) {
    Named(w) && w.id.value !in Seen(earlier)
  }

  predicate Active(earlier: seq<WorkOrder>, w: WorkOrder) {
    Identified(earlier, w) && !Terminal(w.stage.value)
  }

  /** Problems the rows raise, in row order. */
  function RowCodes(earlier: seq<WorkOrder>, w: WorkOrder): seq<Code> {
    if !Identified(earlier, w) then [ActiveWipInvalid]
    else if Active(earlier, w) && !Positive(w.units) then [ActiveWipEffortUnknown]
    else []
  }

  function WipCodes(rows: seq<WorkOrder>): seq<Code> {
    if rows == [] then [] else WipCodes(Init(rows)) + RowCodes(Init(rows), Last(rows))
  }

  function UnitsOf(earlier: seq<WorkOrder>, w: WorkOrder): nat {
    if Active(earlier, w) && Positive(w.units) then w.units.value else 0
  }

  /** Effort of the active rows. */
  function ActiveUnits(rows: seq<WorkOrder>): nat {
    if rows == [] then 0
    else ActiveUnits(Init(rows)) + UnitsOf(Init(rows), Last(rows))
  }

  /** Ids of the active rows. */
  function ActiveRefs(rows: seq<WorkOrder>): seq<string> {
    if rows == [] then []
    else ActiveRefs(Init(rows)) + if Active(Init(rows), Last(rows)) then [Last(rows).id.value] else []
  }

  /** Every row is identified and every active row is estimated. */
  predicate Sound(rows: seq<WorkOrder>) {
    WipCodes(rows) == []
  }

  lemma NewIdIff(earlier: seq<WorkOrder>, w: WorkOrder)
    requires Named(w) && forall i :: 0 <= i < |earlier| ==> Named(earlier[i])
    ensures w.id.value !in Seen(earlier) <==> forall i :: 0 <= i < |earlier| ==> earlier[i].id != w.id
  {
    if w.id.value !in Seen(earlier) {
      forall i | 0 <= i < |earlier|
        ensures earlier[i].id != w.id
      {
        assert earlier[i].id.value in Seen(earlier);
      }
    }
  }

  /** Soundness row by row: distinct named ids, and positive estimates on all that is not terminal. */
  lemma {:induction false} SoundIff(rows: seq<WorkOrder>)
    ensures Sound(rows) <==>
            && (forall i :: 0 <= i < |rows| ==>
                  Named(rows[i]) && (Terminal(rows[i].stage.value) || Positive(rows[i].units)))
            && (forall i, j :: 0 <= i < j < |rows| ==> rows[i].id != rows[j].id)
  {
    if rows != [] {
      var init, last := Init(rows), rows[|rows| - 1];
      assert last == Last(rows) && forall i :: 0 <= i < |init| ==> rows[i] == init[i];
      SoundIff(init);
      if Sound(init) && Named(last) {
        NewIdIff(init, last);
      }
    }
  }

  /** Reading one more row of a list. */
  lemma ReadOne(rows: seq<WorkOrder>, i: nat)
    requires i < |rows|
    ensures var earlier, next, w := rows[..i], rows[..i + 1], rows[i];
            && WipCodes(next) == WipCodes(earlier) + RowCodes(earlier, w)
            && ActiveUnits(next) == ActiveUnits(earlier) + UnitsOf(earlier, w)
            && ActiveRefs(next) == ActiveRefs(earlier) + (if Active(earlier, w) then [w.id.value] else [])
            && Seen(next) == Seen(earlier) + if Named(w) then {w.id.value} else {}
  {
    assert Init(rows[..i + 1]) == rows[..i] && Last(rows[..i + 1]) == rows[i];
    SeenOne(rows[..i], rows[i]);
    assert rows[..i] + [rows[i]] == rows[..i + 1];
  }

  lemma SeenOne(earlier: seq<WorkOrder>, w: WorkOrder)
    ensures Seen(earlier + [w]) == Seen(earlier) + if Named(w) then {w.id.value} else {}
  {
    var next := earlier + [w];
    assert forall i :: 0 <= i < |earlier| ==> next[i] == earlier[i];
    assert next[|earlier|] == w;
  }

  // ---- Row by row --------------------------------------------------------------------------------

  /** The row has an id and a known stage, and no earlier row that has a known stage has this id. */
  ghost predicate FirstOfItsId(rows: seq<WorkOrder>, i: nat)
    requires i < |rows|
  {
    && rows[i].id.Some? && rows[i].id.value != "" && rows[i].stage.Some?
    && forall j :: 0 <= j < i && rows[j].id == rows[i].id ==> rows[j].stage.None?
  }

  /** And its work is neither closed nor cancelled. */
  ghost predicate Ongoing(rows: seq<WorkOrder>, i: nat)
    requires i < |rows|
  {
    FirstOfItsId(rows, i) && rows[i].stage.value != Closed && rows[i].stage.value != Cancelled
  }

  /** The row estimates at least one unit. */
  ghost predicate Estimated(w: WorkOrder) {
    w.units.Some? && 1 <= w.units.value
  }

  ghost predicate AnyUnidentified(rows: seq<WorkOrder>) {
    exists i: nat :: i < |rows| && !FirstOfItsId(rows, i)
  }

  ghost predicate AnyUnestimated(rows: seq<WorkOrder>) {
    exists i: nat :: i < |rows| && Ongoing(rows, i) && !Estimated(rows[i])
  }

  lemma IdentifiedIff(rows: seq<WorkOrder>, i: nat)
    requires i < |rows|
    ensures Identified(rows[..i], rows[i]) <==> FirstOfItsId(rows, i)
    ensures Active(rows[..i], rows[i]) <==> Ongoing(rows, i)
  {
    var earlier := rows[..i];
    if Named(rows[i]) && rows[i].id.value !in Seen(earlier) {
      forall j | 0 <= j < i && Named(rows[j])
        ensures rows[j].id != rows[i].id
      {
        assert earlier[j] == rows[j] && earlier[j].id.value in Seen(earlier);
      }
    }
    assert forall j :: 0 <= j < i ==> earlier[j] == rows[j];
  }

  lemma SamePrefix(rows: seq<WorkOrder>, i: nat)
    requires i < |rows| - 1
    ensures Init(rows)[i] == rows[i] && FirstOfItsId(Init(rows), i) == FirstOfItsId(rows, i)
    ensures Ongoing(Init(rows), i) == Ongoing(rows, i)
  {
  }

  lemma OneMoreRow(rows: seq<WorkOrder>)
    requires rows != []
    ensures Identified(Init(rows), Last(rows)) <==> FirstOfItsId(rows, |rows| - 1)
    ensures Active(Init(rows), Last(rows)) <==> Ongoing(rows, |rows| - 1)
    ensures forall i: nat :: i < |rows| - 1 ==> Init(rows)[i] == rows[i]
    ensures forall i: nat :: i < |rows| - 1 ==> FirstOfItsId(Init(rows), i) == FirstOfItsId(rows, i)
    ensures forall i: nat :: i < |rows| - 1 ==> Ongoing(Init(rows), i) == Ongoing(rows, i)
  {
    IdentifiedIff(rows, |rows| - 1);
    forall i: nat | i < |rows| - 1
      ensures Init(rows)[i] == rows[i] && FirstOfItsId(Init(rows), i) == FirstOfItsId(rows, i)
      ensures Ongoing(Init(rows), i) == Ongoing(rows, i)
    {
      SamePrefix(rows, i);
    }
  }

  /** Which problems a list raises, in terms of its rows. */
  lemma {:induction false} WipCodesIff(rows: seq<WorkOrder>)
    ensures ActiveWipInvalid in WipCodes(rows) <==> AnyUnidentified(rows)
    ensures ActiveWipEffortUnknown in WipCodes(rows) <==> AnyUnestimated(rows)
    ensures forall c <- WipCodes(rows) :: c == ActiveWipInvalid || c == ActiveWipEffortUnknown
  {
    if rows != [] {
      var last := |rows| - 1;
      WipCodesIff(Init(rows));
      OneMoreRow(rows);
      assert FirstOfItsId(rows, last) || !FirstOfItsId(rows, last);
      assert Ongoing(rows, last) || !Ongoing(rows, last);
    }
  }

  /** The first problem of a list is that of its first bad row. */
  lemma FirstProblem(rows: seq<WorkOrder>, i: nat)
    requires i < |rows| && Sound(rows[..i])
    ensures !FirstOfItsId(rows, i) ==> WipCodes(rows) != [] && WipCodes(rows)[0] == ActiveWipInvalid
    ensures Ongoing(rows, i) && !Estimated(rows[i]) ==>
              WipCodes(rows) != [] && WipCodes(rows)[0] == ActiveWipEffortUnknown
  {
    ReadOne(rows, i);
    IdentifiedIff(rows, i);
    CodesExtend(rows, i + 1);
  }

  /** Problems found in a prefix are the first problems of the whole. */
  lemma {:induction false} CodesExtend(rows: seq<WorkOrder>, n: nat)
    requires n <= |rows|
    ensures WipCodes(rows[..n]) <= WipCodes(rows)
    decreases |rows|
  {
    if n == |rows| {
      assert rows[..n] == rows;
    } else {
      CodesExtend(Init(rows), n);
      assert Init(rows)[..n] == rows[..n];
    }
  }

  /** The estimates of the rows that are counted as work in progress. */
  ghost function Estimates(rows: seq<WorkOrder>): map<int, nat> {
    map i | 0 <= i < |rows| && Ongoing(rows, i) && Estimated(rows[i]) :: rows[i].units.value
  }

  lemma EstimatesGrow(rows: seq<WorkOrder>)
    requires rows != []
    ensures var last := |rows| - 1;
            Estimates(rows) == if Ongoing(rows, last) && Estimated(rows[last])
                               then Estimates(Init(rows))[last := rows[last].units.value] else Estimates(Init(rows))
  {
    OneMoreRow(rows);
  }

  /** WIP is the sum of the estimates of all ongoing rows, each counted once. */
  lemma {:induction false} ActiveUnitsIs(rows: seq<WorkOrder>)
    ensures ActiveUnits(rows) == Total(Estimates(rows))
  {
    if rows == [] {
      assert Estimates(rows) == map[];
    } else {
      var init, last := Init(rows), |rows| - 1;
      ActiveUnitsIs(init);
      OneMoreRow(rows);
      EstimatesGrow(rows);
      if Ongoing(rows, last) && Estimated(rows[last]) {
        TotalInsert(Estimates(init), last, rows[last].units.value);
      }
    }
  }

  /** The ids reported as active are those of the ongoing rows. */
  lemma {:induction false} ActiveRefsIff(rows: seq<WorkOrder>, id: string)
    ensures id in ActiveRefs(rows) <==> exists i: nat :: i < |rows| && Ongoing(rows, i) && rows[i].id == Some(id)
  {
    if rows != [] {
      var last := |rows| - 1;
      ActiveRefsIff(Init(rows), id);
      OneMoreRow(rows);
      assert Ongoing(rows, last) || !Ongoing(rows, last);
    }
  }
}
