/** scripts/validate_agent_outreach_batch.py: the accounts of one batch, and reservations that never overlap across
    batches. */
module OutreachBatches {
  import opened Prelude

  // ---- One document ------------------------------------------------------------------------------

  datatype Lane = Observed | NoMatch | LaneError

  datatype Reconciliation = Corroborated | DatalakeOnly | WebOnly | Conflict | UnknownReconciliation

  datatype Outcome = Imported | Blocked | Duplicated | Invalid | RetryRequired

  /** `expected_idempotency_key`: a digest of run, lead and versions, so different leads have different keys. */
  datatype BatchKey = BatchKey(runId: string, runHash: string, lead: string, keyVersion: string,
    evidenceVersion: string, templateVersion: string, policyVersion: string)

  /** `wellFormed` stands for the checks on exact keys, tokens and digests; `receipt` is the import receipt of a
      draft. */
  datatype Member = Member(lead: string, newlyProcessed: bool, datalake: Lane, web: Lane,
    reconciliation: Reconciliation, criticalConflict: bool, outcome: Outcome, key: BatchKey, receipt: string,
    wellFormed: bool)

  datatype Summary = Summary(
    reserved: int, completed: int, newlyProcessed: int, datalakeAttempted: int, webAttempted: int, reconciled: int,
    draftGenerated: int, imported: int, blocked: int, duplicate: int, invalid: int, retryRequired: int)

  datatype Universe = Universe(total: int, reserved: int, processedBefore: int, processedAfter: int, remaining: int)

  datatype Document = Document(
    wellFormed: bool, batchId: string, runId: string, runHash: string,
    keyVersion: string, evidenceVersion: string, templateVersion: string, policyVersion: string,
    started: int, completed: int, expires: int, universe: Universe, members: seq<Member>, summary: Summary)

  datatype ValidationError =
    | Malformed | BadWindow | BadUniverse | BadMembers | LeadRepeated | BadReconciliation | KeyMismatch | KeyRepeated
    | UnsafeImport | ReceiptReused | SummaryDiverges | DeltaDiverges
    | BatchRepeated | SourceRunDiverges | ReservationsOverlap | KeyImportedTwice | ReceiptImportedTwice

  const MAX_MEMBERS := 500

  function ExpectedKey(d: Document, lead: string): BatchKey {
    BatchKey(d.runId, d.runHash, lead, d.keyVersion, d.evidenceVersion, d.templateVersion, d.policyVersion)
  }

  predicate WindowOk(d: Document) {
    d.started <= d.completed <= d.expires
  }

  predicate UniverseOk(u: Universe) {
    && u.reserved >= 0 && u.processedBefore >= 0 && u.processedAfter >= 0 && u.remaining >= 0
    && u.reserved <= u.total && u.processedBefore <= u.processedAfter <= u.total
    && u.remaining == u.total - u.processedAfter
  }

  /** What the two lanes must have returned for a reconciliation status to be claimed. */
  predicate ReconciliationOk(m: Member) {
    && (m.datalake == LaneError || m.web == LaneError ==> m.reconciliation == UnknownReconciliation)
    && (m.reconciliation in {Corroborated, Conflict} ==> m.datalake == Observed && m.web == Observed)
    && (m.reconciliation == DatalakeOnly ==> m.datalake == Observed && m.web == NoMatch)
    && (m.reconciliation == WebOnly ==> m.datalake == NoMatch && m.web == Observed)
    && (m.criticalConflict ==> m.reconciliation == Conflict)
  }

  predicate ImportSafe(m: Member) {
    m.outcome == Imported ==>
      m.datalake != LaneError && m.web != LaneError && m.reconciliation !in {Conflict, UnknownReconciliation}
          && !m.criticalConflict
  }

  function CountOutcome(ms: seq<Member>, o: Outcome): nat {
    if ms == [] then 0 else CountOutcome(Init(ms), o) + if Last(ms).outcome == o then 1 else 0
  }

  function CountNew(ms: seq<Member>): nat {
    if ms == [] then 0 else CountNew(Init(ms)) + if Last(ms).newlyProcessed then 1 else 0
  }

  function CountReconciled(ms: seq<Member>): nat {
    if ms == [] then 0
    else CountReconciled(Init(ms)) + if Last(ms).reconciliation !in {Conflict, UnknownReconciliation} then 1 else 0
  }

  function ExpectedSummary(ms: seq<Member>): Summary {
    Summary(|ms|, |ms|, CountNew(ms), |ms|, |ms|, CountReconciled(ms), CountOutcome(ms, Imported),
            CountOutcome(ms, Imported), CountOutcome(ms, Blocked), CountOutcome(ms, Duplicated),
            CountOutcome(ms, Invalid), CountOutcome(ms, RetryRequired))
  }

  predicate MemberOk(d: Document, m: Member) {
    m.wellFormed && ReconciliationOk(m) && m.key == ExpectedKey(d, m.lead) && ImportSafe(m)
  }

  predicate DistinctLeads(ms: seq<Member>) {
    forall i, j :: 0 <= i < j < |ms| ==> ms[i].lead != ms[j].lead
  }

  predicate DistinctReceipts(ms: seq<Member>) {
    forall i, j :: 0 <= i < j < |ms| && ms[i].outcome == Imported && ms[j].outcome == Imported ==>
        ms[i].receipt != ms[j].receipt
  }

  predicate MembersOk(d: Document, ms: seq<Member>) {
    (forall m <- ms :: MemberOk(d, m)) && DistinctLeads(ms) && DistinctReceipts(ms)
  }

  predicate DocumentOk(d: Document) {
    && d.wellFormed && WindowOk(d) && UniverseOk(d.universe)
    && 1 <= |d.members| <= MAX_MEMBERS && d.universe.reserved == |d.members|
    && MembersOk(d, d.members)
    && d.summary == ExpectedSummary(d.members)
    && d.universe.processedAfter == d.universe.processedBefore + CountNew(d.members)
  }

  /** The counters of the member loop. */
  datatype Counts = Counts(newly: nat, reconciled: nat, imported: nat, blocked: nat, duplicate: nat, invalid: nat,
    retry: nat)

  function CountsOf(ms: seq<Member>): Counts {
    Counts(CountNew(ms), CountReconciled(ms), CountOutcome(ms, Imported), CountOutcome(ms, Blocked),
           CountOutcome(ms, Duplicated), CountOutcome(ms, Invalid), CountOutcome(ms, RetryRequired))
  }

  lemma CountsGrow(earlier: seq<Member>, m: Member, o: Outcome)
    ensures CountOutcome(earlier + [m], o) == CountOutcome(earlier, o) + if m.outcome == o then 1 else 0
    ensures CountNew(earlier + [m]) == CountNew(earlier) + if m.newlyProcessed then 1 else 0
    ensures CountReconciled(earlier + [m]) ==
            CountReconciled(earlier) + if m.reconciliation !in {Conflict, UnknownReconciliation} then 1 else 0
  {
    assert Init(earlier + [m]) == earlier && Last(earlier + [m]) == m;
  }

  /** One member's contribution to the counters. */
  method CountMember(c: Counts, m: Member, ghost earlier: seq<Member>) returns (next: Counts)
    requires c == CountsOf(earlier)
    ensures next == CountsOf(earlier + [m])
  {
    CountsGrow(earlier, m, Imported);
    CountsGrow(earlier, m, Blocked);
    CountsGrow(earlier, m, Duplicated);
    CountsGrow(earlier, m, Invalid);
    CountsGrow(earlier, m, RetryRequired);
    next := c.(newly := c.newly + if m.newlyProcessed then 1 else 0,
               reconciled := c.reconciled + if m.reconciliation !in {Conflict, UnknownReconciliation} then 1 else 0);
    match m.outcome {
      case Imported => next := next.(imported := c.imported + 1);
      case Blocked => next := next.(blocked := c.blocked + 1);
      case Duplicated => next := next.(duplicate := c.duplicate + 1);
      case Invalid => next := next.(invalid := c.invalid + 1);
      case RetryRequired => next := next.(retry := c.retry + 1);
    }
  }

  function Leads(ms: seq<Member>): set<string> {
    set i | 0 <= i < |ms| :: ms[i].lead
  }

  function Keys(ms: seq<Member>): set<BatchKey> {
    set i | 0 <= i < |ms| :: ms[i].key
  }

  function Receipts(ms: seq<Member>): set<string> {
    set i | 0 <= i < |ms| && ms[i].outcome == Imported :: ms[i].receipt
  }

  lemma SeenGrow(earlier: seq<Member>, m: Member)
    ensures Leads(earlier + [m]) == Leads(earlier) + {m.lead} && Keys(earlier + [m]) == Keys(earlier) + {m.key}
    ensures Receipts(earlier + [m]) == Receipts(earlier) + if m.outcome == Imported then {m.receipt} else {}
  {
    var next := earlier + [m];
    assert next[|earlier|] == m && forall i :: 0 <= i < |earlier| ==> next[i] == earlier[i];
  }

  /** One more member keeps the list in order exactly when it is sound itself and repeats no lead and no receipt. */
  lemma MembersGrow(d: Document, earlier: seq<Member>, m: Member)
    requires MembersOk(d, earlier)
    ensures MembersOk(d, earlier + [m]) <==>
            MemberOk(d, m) && m.lead !in Leads(earlier) && (m.outcome == Imported ==> m.receipt !in Receipts(earlier))
  {
    var next := earlier + [m];
    assert next[|earlier|] == m && forall i :: 0 <= i < |earlier| ==> next[i] == earlier[i];
    if MembersOk(d, next) {
      assert m in next;
      assert forall i :: 0 <= i < |earlier| ==> next[i].lead != next[|earlier|].lead;
      assert forall i :: 0 <= i < |earlier| && next[i].outcome == Imported && m.outcome == Imported ==>
                           next[i].receipt != next[|earlier|].receipt;
    }
  }

  lemma MembersPrefix(d: Document, ms: seq<Member>, n: nat)
    requires n <= |ms| && MembersOk(d, ms)
    ensures MembersOk(d, ms[..n])
  {
    assert forall i :: 0 <= i < n ==> ms[..n][i] == ms[i];
    assert forall m <- ms[..n] :: m in ms;
  }

  /** A member with a new lead cannot repeat an earlier key, so the duplicate-key check never fires. */
  lemma KeysFollowLeads(d: Document, earlier: seq<Member>, lead: string)
    requires MembersOk(d, earlier) && lead !in Leads(earlier)
    ensures ExpectedKey(d, lead) !in Keys(earlier)
  {
    forall i | 0 <= i < |earlier|
      ensures earlier[i].key != ExpectedKey(d, lead)
    {
      assert earlier[i] in earlier && MemberOk(d, earlier[i]);
    }
  }

  /** The member loop: sets of what was seen, and running counts. */
  method CheckMembers(d: Document) returns (r: Result<Summary, ValidationError>)
    ensures r.Ok? <==> MembersOk(d, d.members)
    ensures r.Ok? ==> r.value == ExpectedSummary(d.members)
  {
    var ms := d.members;
    var leads: set<string>, keys: set<BatchKey>, receipts: set<string> := {}, {}, {};
    var counts := Counts(0, 0, 0, 0, 0, 0, 0);
    for i := 0 to |ms|
      invariant MembersOk(d, ms[..i]) && counts == CountsOf(ms[..i])
      invariant leads == Leads(ms[..i]) && keys == Keys(ms[..i]) && receipts == Receipts(ms[..i])
    {
      var m := ms[i];
      ghost var earlier := ms[..i];
      assert ms[..i + 1] == earlier + [m];
      MembersGrow(d, earlier, m);
      SeenGrow(earlier, m);
      if MembersOk(d, ms) {
        MembersPrefix(d, ms, i + 1);
      }
      if !m.wellFormed {
        return Err(Malformed);
      }
      if m.lead in leads {
        return Err(LeadRepeated);
      }
      leads := leads + {m.lead};
      if !ReconciliationOk(m) {
        return Err(BadReconciliation);
      }
      counts := CountMember(counts, m, earlier);
      if m.key != ExpectedKey(d, m.lead) {
        return Err(KeyMismatch);
      }
      KeysFollowLeads(d, earlier, m.lead);
      if m.key in keys {
        assert false;
        return Err(KeyRepeated);
      }
      keys := keys + {m.key};
      if m.outcome == Imported {
        if !ImportSafe(m) {
          return Err(UnsafeImport);
        }
        if m.receipt in receipts {
          return Err(ReceiptReused);
        }
        receipts := receipts + {m.receipt};
      }
    }
    assert ms[..|ms|] == ms;
    return Ok(Summary(|ms|, |ms|, counts.newly, |ms|, |ms|, counts.reconciled, counts.imported, counts.imported,
                      counts.blocked, counts.duplicate, counts.invalid, counts.retry));
  }

  method ValidateDocument(d: Document) returns (r: Result<(), ValidationError>)
    ensures r.Ok? <==> DocumentOk(d)
  {
    if !d.wellFormed {
      return Err(Malformed);
    }
    if !WindowOk(d) {
      return Err(BadWindow);
    }
    if !UniverseOk(d.universe) {
      return Err(BadUniverse);
    }
    if d.members == [] || |d.members| > MAX_MEMBERS || d.universe.reserved != |d.members| {
      return Err(BadMembers);
    }
    var expected := CheckMembers(d);
    if expected.Err? {
      return Err(expected.error);
    }
    if d.summary != expected.value {
      return Err(SummaryDiverges);
    }
    if d.universe.processedAfter != d.universe.processedBefore + expected.value.newlyProcessed {
      return Err(DeltaDiverges);
    }
    return Ok(());
  }

  lemma {:induction false} CountsPartition(ms: seq<Member>)
    ensures CountOutcome(ms, Imported) + CountOutcome(ms, Blocked) + CountOutcome(ms, Duplicated)
            + CountOutcome(ms, Invalid) + CountOutcome(ms, RetryRequired) == |ms|
    ensures CountNew(ms) <= |ms| && CountReconciled(ms) <= |ms|
  {
    if ms != [] {
      CountsPartition(Init(ms));
      match Last(ms).outcome
      case Imported | Blocked | Duplicated | Invalid | RetryRequired =>
    }
  }

  lemma {:induction false} ImportsAreReconciled(d: Document, ms: seq<Member>)
    requires forall m <- ms :: MemberOk(d, m)
    ensures CountOutcome(ms, Imported) <= CountReconciled(ms)
  {
    if ms != [] {
      assert Last(ms) in ms;
      ImportsAreReconciled(d, Init(ms));
    }
  }

  /** In every accepted batch the five outcomes account for every member, nothing unreconciled was imported, and the
      processed and remaining totals balance the denominator before and after. */
  lemma AccountsBalance(d: Document)
    requires DocumentOk(d)
    ensures var s, u := d.summary, d.universe;
            && s.imported + s.blocked + s.duplicate + s.invalid + s.retryRequired == |d.members| == u.reserved
            && s.imported == s.draftGenerated <= s.reconciled <= s.reserved
            && u.processedAfter + u.remaining == u.total
            && u.processedBefore + s.newlyProcessed + u.remaining == u.total
            && s.newlyProcessed <= u.reserved
  {
    CountsPartition(d.members);
    ImportsAreReconciled(d, d.members);
  }

  /** Which statuses may be claimed after which lane results: none but UNKNOWN unless a lane observed something and the
      other did not fail. */
  function Claimable(datalake: Lane, web: Lane): set<Reconciliation> {
    match (datalake, web)
    case (Observed, Observed) => {Corroborated, Conflict, UnknownReconciliation}
    case (Observed, NoMatch) => {DatalakeOnly, UnknownReconciliation}
    case (NoMatch, Observed) => {WebOnly, UnknownReconciliation}
    case (_, _) => {UnknownReconciliation}
  }

  lemma ClaimableIff(m: Member)
    ensures ReconciliationOk(m) <==>
            m.reconciliation in Claimable(m.datalake, m.web) && (m.criticalConflict ==> m.reconciliation == Conflict)
  {
  }

  /** A sound member may have been imported exactly when what its lanes observed agrees, or only one of them observed
      anything. */
  lemma ImportableIff(d: Document, m: Member)
    requires m.wellFormed && ReconciliationOk(m) && m.key == ExpectedKey(d, m.lead) && m.outcome == Imported
    ensures MemberOk(d, m) <==> m.reconciliation in {Corroborated, DatalakeOnly, WebOnly}
    ensures MemberOk(d, m) ==> m.datalake == Observed || m.web == Observed
  {
  }

  ghost function WithOutcome(ms: seq<Member>, o: Outcome): set<int> {
    set i | 0 <= i < |ms| && ms[i].outcome == o
  }

  ghost function Newly(ms: seq<Member>): set<int> {
    set i | 0 <= i < |ms| && ms[i].newlyProcessed
  }

  ghost function Reconciled(ms: seq<Member>): set<int> {
    set i | 0 <= i < |ms| && ms[i].reconciliation in {Corroborated, DatalakeOnly, WebOnly}
  }

  lemma {:induction false} OutcomesAre(ms: seq<Member>, o: Outcome)
    ensures CountOutcome(ms, o) == |WithOutcome(ms, o)|
  {
    if ms != [] {
      var init, last := Init(ms), |ms| - 1;
      OutcomesAre(init, o);
      assert WithOutcome(ms, o) == WithOutcome(init, o) + if ms[last].outcome == o then {last} else {};
    }
  }

  lemma {:induction false} NewlyAre(ms: seq<Member>)
    ensures CountNew(ms) == |Newly(ms)|
  {
    if ms != [] {
      var init, last := Init(ms), |ms| - 1;
      NewlyAre(init);
      assert Newly(ms) == Newly(init) + if ms[last].newlyProcessed then {last} else {};
    }
  }

  lemma AgreedIff(r: Reconciliation)
    ensures r in {Corroborated, DatalakeOnly, WebOnly} <==> r !in {Conflict, UnknownReconciliation}
  {
    match r {
      case Corroborated | DatalakeOnly | WebOnly | Conflict | UnknownReconciliation =>
    }
  }

  lemma ReconciledGrows(ms: seq<Member>)
    requires ms != []
    ensures var last := |ms| - 1;
            var agreed := ms[last].reconciliation in {Corroborated, DatalakeOnly, WebOnly};
            Reconciled(ms) == Reconciled(Init(ms)) + if agreed then {last} else {}
  {
    assert forall i :: 0 <= i < |ms| - 1 ==> Init(ms)[i] == ms[i];
  }

  lemma {:induction false} ReconciledAre(ms: seq<Member>)
    ensures CountReconciled(ms) == |Reconciled(ms)|
  {
    if ms != [] {
      ReconciledAre(Init(ms));
      AgreedIff(Last(ms).reconciliation);
      ReconciledGrows(ms);
    }
  }

  /** Every figure of an accepted summary is the number of members of which it is true. */
  lemma SummaryCounts(d: Document)
    requires DocumentOk(d)
    ensures 1 <= |d.members| <= 500
    ensures var s, ms := d.summary, d.members;
            && s.reserved == s.completed == s.datalakeAttempted == s.webAttempted == |ms|
            && s.newlyProcessed == |Newly(ms)| && s.reconciled == |Reconciled(ms)|
            && s.imported == s.draftGenerated == |WithOutcome(ms, Imported)|
            && s.blocked == |WithOutcome(ms, Blocked)| && s.duplicate == |WithOutcome(ms, Duplicated)|
            && s.invalid == |WithOutcome(ms, Invalid)| && s.retryRequired == |WithOutcome(ms, RetryRequired)|
  {
    NewlyAre(d.members);
    ReconciledAre(d.members);
    OutcomesAre(d.members, Imported);
    OutcomesAre(d.members, Blocked);
    OutcomesAre(d.members, Duplicated);
    OutcomesAre(d.members, Invalid);
    OutcomesAre(d.members, RetryRequired);
  }

  /** Two documents give a lead the same key exactly when run, versions and lead are the same. */
  lemma SameKeyIff(d: Document, e: Document, lead: string, other: string)
    ensures ExpectedKey(d, lead) == ExpectedKey(e, other) <==>
            && lead == other && d.runId == e.runId && d.runHash == e.runHash && d.keyVersion == e.keyVersion
            && d.evidenceVersion == e.evidenceVersion && d.templateVersion == e.templateVersion
            && d.policyVersion == e.policyVersion
  {
  }

  // ---- Many documents ----------------------------------------------------------------------------

  /** One member's reservation of its lead, and what it imported. */
  datatype Slot = Slot(lead: string, start: int, expiry: int, imported: bool, key: BatchKey, receipt: string)

  function SlotOf(d: Document, m: Member): Slot {
    Slot(m.lead, d.started, d.expires, m.outcome == Imported, m.key, m.receipt)
  }

  function SlotsOf(d: Document, ms: seq<Member>): seq<Slot> {
    if ms == [] then [] else SlotsOf(d, Init(ms)) + [SlotOf(d, Last(ms))]
  }

  function Slots(ds: seq<Document>): seq<Slot> {
    if ds == [] then [] else Slots(Init(ds)) + SlotsOf(Last(ds), Last(ds).members)
  }

  predicate Overlap(a: Slot, b: Slot) {
    a.lead == b.lead && a.start < b.expiry && b.start < a.expiry
  }

  /** Two slots of a batch list are at odds when they overlap on a lead or import the same key or receipt. */
  predicate AtOdds(a: Slot, b: Slot) {
    Overlap(a, b) || (a.imported && b.imported && (a.key == b.key || a.receipt == b.receipt))
  }

  predicate Compatible(slots: seq<Slot>) {
    forall i, j :: 0 <= i < j < |slots| ==> !AtOdds(slots[i], slots[j])
  }

  /** Two batches of one source run must agree on the run's hash, its denominator and the key version. */
  predicate SameRunAgrees(a: Document, b: Document) {
    a.runId == b.runId ==>
        a.runHash == b.runHash && a.universe.total == b.universe.total && a.keyVersion == b.keyVersion
  }

  predicate HeadsOk(ds: seq<Document>) {
    forall i, j :: 0 <= i < j < |ds| ==> ds[i].batchId != ds[j].batchId && SameRunAgrees(ds[i], ds[j])
  }

  predicate AllDocumentsOk(ds: seq<Document>) {
    forall d <- ds :: DocumentOk(d)
  }

  lemma {:induction false} SlotsOfPrefix(d: Document, ms: seq<Member>, n: nat)
    requires n <= |ms|
    ensures SlotsOf(d, ms[..n]) <= SlotsOf(d, ms)
    decreases |ms|
  {
    if n == |ms| {
      assert ms[..n] == ms;
    } else {
      SlotsOfPrefix(d, Init(ms), n);
      assert Init(ms)[..n] == ms[..n];
    }
  }

  lemma {:induction false} SlotsPrefix(ds: seq<Document>, n: nat)
    requires n <= |ds|
    ensures Slots(ds[..n]) <= Slots(ds)
    decreases |ds|
  {
    if n == |ds| {
      assert ds[..n] == ds;
    } else {
      SlotsPrefix(Init(ds), n);
      assert Init(ds)[..n] == ds[..n];
    }
  }

  lemma PrefixCompatible(a: seq<Slot>, b: seq<Slot>)
    requires a <= b && Compatible(b)
    ensures Compatible(a)
  {
    assert forall i :: 0 <= i < |a| ==> a[i] == b[i];
  }

  lemma CompatibleGrows(slots: seq<Slot>, s: Slot)
    requires Compatible(slots)
    ensures Compatible(slots + [s]) <==> forall i :: 0 <= i < |slots| ==> !AtOdds(slots[i], s)
  {
    var next := slots + [s];
    assert next[|slots|] == s;
    assert forall i :: 0 <= i < |slots| ==> next[i] == slots[i];
    if Compatible(next) {
      assert forall i :: 0 <= i < |slots| ==> !AtOdds(next[i], next[|slots|]);
    }
  }

  /** What the incremental check remembers: every window of every lead, and every key and receipt imported. */
  datatype Memory = Memory(windows: map<string, seq<(int, int)>>, keys: set<BatchKey>, receipts: set<string>)

  ghost predicate RemembersWindows(windows: map<string, seq<(int, int)>>, slots: seq<Slot>) {
    && (forall i :: 0 <= i < |slots| ==>
          slots[i].lead in windows && (slots[i].start, slots[i].expiry) in windows[slots[i].lead])
    && (forall lead <- windows :: forall w <- windows[lead] ::
          exists i :: 0 <= i < |slots| && slots[i].lead == lead && (slots[i].start, slots[i].expiry) == w)
  }

  function ImportedKeys(slots: seq<Slot>): set<BatchKey> {
    set i | 0 <= i < |slots| && slots[i].imported :: slots[i].key
  }

  function ImportedReceipts(slots: seq<Slot>): set<string> {
    set i | 0 <= i < |slots| && slots[i].imported :: slots[i].receipt
  }

  ghost predicate Remembers(m: Memory, slots: seq<Slot>) {
    RemembersWindows(m.windows, slots) && m.keys == ImportedKeys(slots) && m.receipts == ImportedReceipts(slots)
  }

  /** One member against everything remembered, then into the memory. */
  method Reserve(m: Memory, s: Slot, ghost slots: seq<Slot>) returns (r: Result<Memory, ValidationError>)
    requires Remembers(m, slots)
    ensures r.Ok? <==> forall i :: 0 <= i < |slots| ==> !AtOdds(slots[i], s)
    ensures r.Ok? ==> Remembers(r.value, slots + [s])
  {
    var windows := if s.lead in m.windows then m.windows[s.lead] else [];
    for i := 0 to |windows|
      invariant forall j :: 0 <= j < i ==> !(s.start < windows[j].1 && windows[j].0 < s.expiry)
    {
      if s.start < windows[i].1 && windows[i].0 < s.expiry {
        assert windows[i] in m.windows[s.lead];
        ghost var k :| 0 <= k < |slots| && slots[k].lead == s.lead && (slots[k].start, slots[k].expiry) == windows[i];
        assert AtOdds(slots[k], s);
        return Err(ReservationsOverlap);
      }
    }
    forall k | 0 <= k < |slots|
      ensures !Overlap(slots[k], s)
    {
      if slots[k].lead == s.lead {
        assert (slots[k].start, slots[k].expiry) in windows;
      }
    }
    if s.imported && s.key in m.keys {
      ghost var k :| 0 <= k < |slots| && slots[k].imported && slots[k].key == s.key;
      assert AtOdds(slots[k], s);
      return Err(KeyImportedTwice);
    }
    if s.imported && s.receipt in m.receipts {
      ghost var k :| 0 <= k < |slots| && slots[k].imported && slots[k].receipt == s.receipt;
      assert AtOdds(slots[k], s);
      return Err(ReceiptImportedTwice);
    }
    var next := Memory(m.windows[s.lead := windows + [(s.start, s.expiry)]],
                       if s.imported then m.keys + {s.key} else m.keys, if s.imported then m.receipts + {s.receipt}
                           else m.receipts);
    RemembersWindow(m.windows, s, slots, windows);
    ImportsGrow(slots, s);
    return Ok(next);
  }

  lemma RemembersWindow(before: map<string, seq<(int, int)>>, s: Slot, slots: seq<Slot>, windows: seq<(int, int)>)
    requires RemembersWindows(before, slots) && windows == if s.lead in before then before[s.lead] else []
    ensures RemembersWindows(before[s.lead := windows + [(s.start, s.expiry)]], slots + [s])
  {
    var all, after := slots + [s], before[s.lead := windows + [(s.start, s.expiry)]];
    assert all[|slots|] == s && forall i :: 0 <= i < |slots| ==> all[i] == slots[i];
    forall lead, w | lead in after && w in after[lead]
      ensures exists i :: 0 <= i < |all| && all[i].lead == lead && (all[i].start, all[i].expiry) == w
    {
      if lead == s.lead && w == (s.start, s.expiry) {
        assert all[|slots|].lead == lead;
      } else {
        var i :| 0 <= i < |slots| && slots[i].lead == lead && (slots[i].start, slots[i].expiry) == w;
        assert all[i].lead == lead;
      }
    }
  }

  lemma ImportsGrow(slots: seq<Slot>, s: Slot)
    ensures ImportedKeys(slots + [s]) == if s.imported then ImportedKeys(slots) + {s.key} else ImportedKeys(slots)
    ensures ImportedReceipts(slots + [s]) == if s.imported then ImportedReceipts(slots) + {s.receipt}
            else ImportedReceipts(slots)
  {
    var all := slots + [s];
    assert all[|slots|] == s && forall i :: 0 <= i < |slots| ==> all[i] == slots[i];
  }

  /** The ids and source runs of the first n documents. */
  ghost predicate Tracks(ds: seq<Document>, n: nat, batchIds: set<string>, runs: map<string, Document>)
    requires n <= |ds|
  {
    && batchIds == (set i | 0 <= i < n :: ds[i].batchId)
    && (forall i :: 0 <= i < n ==> ds[i].runId in runs && SameRunAgrees(runs[ds[i].runId], ds[i]))
    && (forall id <- runs :: runs[id].runId == id && exists i :: 0 <= i < n && ds[i] == runs[id])
  }

  predicate AgreesWithEarlier(ds: seq<Document>, n: nat)
    requires n < |ds|
  {
    forall i :: 0 <= i < n ==> ds[i].batchId != ds[n].batchId && SameRunAgrees(ds[i], ds[n])
  }

  lemma HeadsPrefix(ds: seq<Document>, n: nat)
    requires n < |ds|
    ensures HeadsOk(ds[..n + 1]) <==> HeadsOk(ds[..n]) && AgreesWithEarlier(ds, n)
    ensures HeadsOk(ds) ==> HeadsOk(ds[..n + 1])
  {
    var next := ds[..n + 1];
    assert forall i :: 0 <= i <= n ==> next[i] == ds[i];
    assert forall i :: 0 <= i < n ==> ds[..n][i] == ds[i];
    if HeadsOk(next) {
      assert forall i :: 0 <= i < n ==> next[i].batchId != next[n].batchId && SameRunAgrees(next[i], next[n]);
    }
  }

  /** Comparing with the remembered run is comparing with every earlier document of that run. */
  lemma TrackedAgrees(ds: seq<Document>, n: nat, batchIds: set<string>, runs: map<string, Document>)
    requires n < |ds| && Tracks(ds, n, batchIds, runs)
    ensures AgreesWithEarlier(ds, n) <==>
            ds[n].batchId !in batchIds && (ds[n].runId in runs ==> SameRunAgrees(runs[ds[n].runId], ds[n]))
  {
  }

  /** One more document agrees with all before it exactly when its id is new and its source run, if seen, is the
      same. */
  lemma HeadsGrow(ds: seq<Document>, n: nat, batchIds: set<string>, runs: map<string, Document>)
    requires n < |ds| && HeadsOk(ds[..n]) && Tracks(ds, n, batchIds, runs)
    ensures HeadsOk(ds[..n + 1]) <==>
            ds[n].batchId !in batchIds && (ds[n].runId in runs ==> SameRunAgrees(runs[ds[n].runId], ds[n]))
    ensures HeadsOk(ds) ==> HeadsOk(ds[..n + 1])
    ensures HeadsOk(ds[..n + 1]) ==> Tracks(ds, n + 1, batchIds + {ds[n].batchId}, runs[ds[n].runId := ds[n]])
  {
    HeadsPrefix(ds, n);
    TrackedAgrees(ds, n, batchIds, runs);
  }

  method ValidateEach(ds: seq<Document>) returns (r: Result<(), ValidationError>)
    ensures r.Ok? <==> AllDocumentsOk(ds)
  {
    for i := 0 to |ds|
      invariant forall j :: 0 <= j < i ==> DocumentOk(ds[j])
    {
      var one := ValidateDocument(ds[i]);
      if one.Err? {
        assert ds[i] in ds;
        return one;
      }
    }
    return Ok(());
  }

  /** Slots that are at odds within the first documents are at odds in the whole list. */
  lemma SlotsStayCompatible(ds: seq<Document>, n: nat)
    requires n < |ds|
    ensures Slots(ds[..n + 1]) == Slots(ds[..n]) + SlotsOf(ds[n], ds[n].members)
    ensures Compatible(Slots(ds)) ==> Compatible(Slots(ds[..n + 1]))
  {
    assert Init(ds[..n + 1]) == ds[..n] && Last(ds[..n + 1]) == ds[n];
    SlotsPrefix(ds, n + 1);
    if Compatible(Slots(ds)) {
      PrefixCompatible(Slots(ds[..n + 1]), Slots(ds));
    }
  }

  /** `validate_documents` accepts exactly the lists of valid documents whose heads agree and whose slots are pairwise
      compatible: no two reservations of a lead overlap, and no key or receipt is imported twice. */
  method ValidateDocuments(ds: seq<Document>) returns (r: Result<(), ValidationError>)
    ensures r.Ok? <==> AllDocumentsOk(ds) && HeadsOk(ds) && Compatible(Slots(ds))
  {
    r := ValidateEach(ds);
    if r.Err? {
      return;
    }
    var memory := Memory(map[], {}, {});
    var batchIds: set<string>, runs: map<string, Document> := {}, map[];
    for n := 0 to |ds|
      invariant HeadsOk(ds[..n]) && Tracks(ds, n, batchIds, runs)
      invariant Compatible(Slots(ds[..n])) && Remembers(memory, Slots(ds[..n]))
    {
      var d := ds[n];
      HeadsGrow(ds, n, batchIds, runs);
      SlotsStayCompatible(ds, n);
      if d.batchId in batchIds {
        return Err(BatchRepeated);
      }
      batchIds := batchIds + {d.batchId};
      if d.runId in runs && !SameRunAgrees(runs[d.runId], d) {
        return Err(SourceRunDiverges);
      }
      runs := runs[d.runId := d];
      var next := ReserveAll(memory, d, Slots(ds[..n]));
      if next.Err? {
        return Err(next.error);
      }
      memory := next.value;
    }
    assert ds[..|ds|] == ds;
    return Ok(());
  }

  /** The inner loop over one document's members. */
  method ReserveAll(m: Memory, d: Document, ghost slots: seq<Slot>) returns (r: Result<Memory, ValidationError>)
    requires Remembers(m, slots) && Compatible(slots)
    ensures r.Ok? <==> Compatible(slots + SlotsOf(d, d.members))
    ensures r.Ok? ==> Remembers(r.value, slots + SlotsOf(d, d.members))
  {
    var ms, memory := d.members, m;
    ghost var all := slots + SlotsOf(d, ms);
    assert slots + [] == slots;
    for i := 0 to |ms|
      invariant Compatible(slots + SlotsOf(d, ms[..i])) && Remembers(memory, slots + SlotsOf(d, ms[..i]))
    {
      ghost var before := slots + SlotsOf(d, ms[..i]);
      var s := SlotOf(d, ms[i]);
      assert Init(ms[..i + 1]) == ms[..i] && Last(ms[..i + 1]) == ms[i];
      assert slots + SlotsOf(d, ms[..i + 1]) == before + [s];
      CompatibleGrows(before, s);
      var next := Reserve(memory, s, before);
      if next.Err? {
        SlotsOfPrefix(d, ms, i + 1);
        if Compatible(all) {
          PrefixCompatible(before + [s], all);
        }
        return Err(next.error);
      }
      memory := next.value;
    }
    assert ms[..|ms|] == ms;
    return Ok(memory);
  }

  predicate Holds(s: Slot, instant: int) {
    s.start <= instant < s.expiry
  }

  /** In an accepted list no instant of a lead is reserved twice. */
  lemma InstantReservedOnce(slots: seq<Slot>, i: nat, j: nat, instant: int)
    requires Compatible(slots) && i < |slots| && j < |slots| && i != j && slots[i].lead == slots[j].lead
    ensures !(Holds(slots[i], instant) && Holds(slots[j], instant))
  {
    assert !AtOdds(slots[Min(i, j)], slots[Max(i, j)]);
  }

  /** For windows that are not empty the overlap test is exact: it fires when and only when they share an instant. */
  lemma OverlapIff(a: Slot, b: Slot)
    requires a.lead == b.lead && a.start < a.expiry && b.start < b.expiry
    ensures Overlap(a, b) <==> exists instant :: Holds(a, instant) && Holds(b, instant)
  {
    if Overlap(a, b) {
      assert Holds(a, Max(a.start, b.start)) && Holds(b, Max(a.start, b.start));
    }
  }

  // ---- What is accepted, in terms of documents and members ---------------------------------------

  /** The denominator is what was processed before, what was newly processed and what remains, none of it negative, and
      no more is reserved than there is. */
  lemma TotalsIff(u: Universe)
    ensures UniverseOk(u) <==>
            && 0 <= u.reserved <= u.total && 0 <= u.processedBefore && 0 <= u.remaining
            && exists newly: nat :: Splits(u, newly)
  {
    if UniverseOk(u) {
      var newly: nat := u.processedAfter - u.processedBefore;
      assert Splits(u, newly);
    }
  }

  ghost predicate Splits(u: Universe, newly: nat) {
    u.processedBefore + newly == u.processedAfter && u.processedBefore + newly + u.remaining == u.total
  }

  /** No member is at fault by itself: its status follows from its lanes, its key is the expected one, and it was
      imported only when what was observed agrees. */
  ghost predicate Faultless(d: Document, m: Member) {
    && m.wellFormed && m.key == ExpectedKey(d, m.lead)
    && m.reconciliation in Claimable(m.datalake, m.web) && (m.criticalConflict ==> m.reconciliation == Conflict)
    && (m.outcome == Imported ==> m.reconciliation in {Corroborated, DatalakeOnly, WebOnly})
  }

  lemma FaultlessIff(d: Document, m: Member)
    ensures MemberOk(d, m) <==> Faultless(d, m)
  {
    ClaimableIff(m);
  }

  /** When a document is accepted, in full. */
  lemma DocumentIff(d: Document)
    ensures DocumentOk(d) <==>
            && d.wellFormed && d.started <= d.completed && d.completed <= d.expires && UniverseOk(d.universe)
            && 1 <= |d.members| <= 500 && d.universe.reserved == |d.members|
            && (forall i :: 0 <= i < |d.members| ==> Faultless(d, d.members[i]))
            && (forall i, j :: 0 <= i < j < |d.members| ==> d.members[i].lead != d.members[j].lead)
            && (forall i, j :: 0 <= i < j < |d.members| && d.members[i].outcome == d.members[j].outcome == Imported ==>
                  d.members[i].receipt != d.members[j].receipt)
            && d.summary == ExpectedSummary(d.members)
            && d.universe.processedAfter - d.universe.processedBefore == |Newly(d.members)|
  {
    NewlyAre(d.members);
    var ms := d.members;
    assert forall i :: 0 <= i < |ms| ==> ms[i] in ms;
    forall m | m in ms
      ensures MemberOk(d, m) <==> Faultless(d, m)
    {
      FaultlessIff(d, m);
    }
  }

  /** Two members of two documents, or of one, cannot both stand: one lead is reserved at overlapping times, or both
      were imported under one key or with one receipt. */
  ghost predicate Clash(d: Document, m: Member, e: Document, n: Member) {
    || (m.lead == n.lead && d.started < e.expires && e.started < d.expires)
    || (m.outcome == n.outcome == Imported && (m.key == n.key || m.receipt == n.receipt))
  }

  ghost predicate At(ds: seq<Document>, i: int, a: int) {
    0 <= i < |ds| && 0 <= a < |ds[i].members|
  }

  lemma {:induction false} SlotsOfAt(d: Document, ms: seq<Member>)
    ensures |SlotsOf(d, ms)| == |ms|
    ensures forall a :: 0 <= a < |ms| ==> SlotsOf(d, ms)[a] == SlotOf(d, ms[a])
  {
    if ms != [] {
      SlotsOfAt(d, Init(ms));
    }
  }

  /** The place of a member's slot among all slots. */
  ghost function Place(ds: seq<Document>, i: nat, a: nat): nat
    requires i <= |ds|
  {
    |Slots(ds[..i])| + a
  }

  lemma SlotAt(ds: seq<Document>, i: nat, a: nat)
    requires At(ds, i, a)
    ensures Place(ds, i, a) < |Slots(ds)| && Slots(ds)[Place(ds, i, a)] == SlotOf(ds[i], ds[i].members[a])
    ensures |Slots(ds[..i + 1])| == |Slots(ds[..i])| + |ds[i].members|
  {
    SlotsPrefix(ds, i + 1);
    assert Init(ds[..i + 1]) == ds[..i] && Last(ds[..i + 1]) == ds[i];
    SlotsOfAt(ds[i], ds[i].members);
  }

  /** Every slot is some member's. */
  lemma {:induction false} MemberOf(ds: seq<Document>, k: nat) returns (i: nat, a: nat)
    requires k < |Slots(ds)|
    ensures At(ds, i, a) && Place(ds, i, a) == k
  {
    var init, last := Init(ds), |ds| - 1;
    SlotsOfAt(Last(ds), Last(ds).members);
    assert ds[..last] == init;
    if k < |Slots(init)| {
      i, a := MemberOf(init, k);
      assert init[..i] == ds[..i];
    } else {
      i, a := last, k - |Slots(init)|;
    }
  }

  /** Slots are in the order of documents and members. */
  lemma {:induction false} PlacesGrow(ds: seq<Document>, i: nat, a: nat, j: nat)
    requires At(ds, i, a) && i < j <= |ds|
    ensures Place(ds, i, a) < |Slots(ds[..j])|
    decreases j - i
  {
    SlotAt(ds, i, a);
    if i + 1 < j {
      PlacesGrow(ds, i, a, j - 1);
      assert Init(ds[..j]) == ds[..j - 1];
    }
  }

  lemma PlacesDiffer(ds: seq<Document>, i: nat, a: nat, j: nat, b: nat)
    requires At(ds, i, a) && At(ds, j, b) && (i, a) != (j, b)
    ensures Place(ds, i, a) != Place(ds, j, b)
  {
    if i < j {
      PlacesGrow(ds, i, a, j);
    } else if j < i {
      PlacesGrow(ds, j, b, i);
    }
  }

  /** The slots of a list are compatible exactly when no two of its members clash, within one document or across two. */
  lemma CompatibleIff(ds: seq<Document>)
    ensures Compatible(Slots(ds)) <==>
            forall i, a, j, b :: At(ds, i, a) && At(ds, j, b) && (i, a) != (j, b) ==>
              !Clash(ds[i], ds[i].members[a], ds[j], ds[j].members[b])
  {
    if Compatible(Slots(ds)) {
      forall i, a, j, b | At(ds, i, a) && At(ds, j, b) && (i, a) != (j, b)
        ensures !Clash(ds[i], ds[i].members[a], ds[j], ds[j].members[b])
      {
        SlotAt(ds, i, a);
        SlotAt(ds, j, b);
        PlacesDiffer(ds, i, a, j, b);
        var p, q := Place(ds, i, a), Place(ds, j, b);
        assert !AtOdds(Slots(ds)[Min(p, q)], Slots(ds)[Max(p, q)]);
      }
    } else {
      var p, q :| 0 <= p < q < |Slots(ds)| && AtOdds(Slots(ds)[p], Slots(ds)[q]);
      var i, a := MemberOf(ds, p);
      var j, b := MemberOf(ds, q);
      SlotAt(ds, i, a);
      SlotAt(ds, j, b);
      assert Clash(ds[i], ds[i].members[a], ds[j], ds[j].members[b]);
    }
  }

  /** What the heads of an accepted list have in common: no batch id is used twice, and documents of one source run
      agree on its hash, its denominator and its key version. */
  lemma HeadsIff(ds: seq<Document>)
    ensures HeadsOk(ds) <==>
            forall i, j :: 0 <= i < |ds| && 0 <= j < |ds| && i != j ==>
              && ds[i].batchId != ds[j].batchId
              && (ds[i].runId == ds[j].runId ==>
                    (ds[i].runHash, ds[i].universe.total, ds[i].keyVersion) ==
                    (ds[j].runHash, ds[j].universe.total, ds[j].keyVersion))
  {
    if HeadsOk(ds) {
      forall i, j | 0 <= i < |ds| && 0 <= j < |ds| && i != j
        ensures ds[i].batchId != ds[j].batchId && SameRunAgrees(ds[i], ds[j])
      {
        assert ds[Min(i, j)].batchId != ds[Max(i, j)].batchId && SameRunAgrees(ds[Min(i, j)], ds[Max(i, j)]);
      }
    }
  }
}
