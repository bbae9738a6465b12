/**
 Corrections of scripts/billing_reconcile.py: judging meter lines, applying
 corrections at most once with lost-acknowledgement recovery, and reconciliation
 passes whose rerun is a fixpoint.
 */
module Corrections {
  import opened Basics

  datatype Key = Key(month: string, workspace: string, meter: string)

  datatype Kind = MeterAdjustment | CreditNote | DraftAmendment

  predicate Money(k: Kind) { !k.MeterAdjustment? }

  datatype Suffix = UnitsFix | MoneyDraft | MoneyNext

  /** A correction's identity: the line and the sort of fix; other callers may use ids of their own. */
  datatype Id = LineId(key: Key, suffix: Suffix) | OtherId(name: string)

  datatype Correction = Correction(
    id: Id, kind: Kind, key: Key, currency: string, units: int, minor: int, approver: string, at: int)

  // ---------------------------------------------------------- judging one line

  datatype LocalLine = LocalLine(units: int, minor: int, currency: string)

  datatype InvoiceState = Draft | Finalized

  datatype ProviderLine = ProviderLine(
    ready: bool, units: Option<int>, currency: string, invoice: Option<int>, state: Option<InvoiceState>)

  datatype Inputs = Inputs(
    local: map<Key, LocalLine>,
    provider: map<Key, ProviderLine>,
    inFlight: map<Key, int>,
    actions: set<Kind>,
    now: nat,
    deadline: Option<int>,
    approver: string)

  function LocalOf(inp: Inputs, k: Key): LocalLine {
    if k in inp.local then inp.local[k] else LocalLine(0, 0, "")
  }

  function ProviderOf(inp: Inputs, k: Key): ProviderLine {
    if k in inp.provider then inp.provider[k] else ProviderLine(false, None, "", None, None)
  }

  function FlightOf(inp: Inputs, k: Key): int { if k in inp.inFlight then inp.inFlight[k] else 0 }

  function CurrencyOf(inp: Inputs, k: Key): string {
    if ProviderOf(inp, k).currency != "" then ProviderOf(inp, k).currency else LocalOf(inp, k).currency
  }

  predicate AtLeastZero(x: Option<int>) { x.Some? ==> x.value >= 0 }

  /** A line whose row or judgment raises a value error, which ends the pass. */
  predicate Malformed(inp: Inputs, k: Key) {
    var l, p := LocalOf(inp, k), ProviderOf(inp, k);
    || k.month == "" || k.workspace == "" || k.meter == "" || CurrencyOf(inp, k) == ""
    || l.units < 0 || l.minor < 0 || FlightOf(inp, k) < 0
    || !AtLeastZero(p.units) || !AtLeastZero(p.invoice)
    || (p.ready && p.units.None?)
  }

  function UnitsGap(inp: Inputs, k: Key): int
    requires !Malformed(inp, k) && ProviderOf(inp, k).ready
  {
    LocalOf(inp, k).units - (ProviderOf(inp, k).units.value + FlightOf(inp, k))
  }

  /** What the invoice still charges after the credits, against the expected amount. */
  function MoneyGap(inp: Inputs, k: Key, credits: int): Option<int> {
    match ProviderOf(inp, k).invoice
    case None => None
    case Some(invoice) => Some(LocalOf(inp, k).minor - (invoice - credits))
  }

  datatype Judgment = UnitsMismatch(gap: int) | NoInvoice | MoneyMismatch(gap: int) | Match | Waiting

  /** Pending aggregates are never judged, credits never repair units. */
  function Diff(inp: Inputs, k: Key, credits: int): Judgment
    requires !Malformed(inp, k)
  {
    if !ProviderOf(inp, k).ready then Waiting
    else if UnitsGap(inp, k) != 0 then UnitsMismatch(UnitsGap(inp, k))
    else
      match MoneyGap(inp, k, credits)
      case None => NoInvoice
      case Some(gap) => if gap != 0 then MoneyMismatch(gap) else Match
  }

  function MoneyKind(inp: Inputs, k: Key): Kind {
    if ProviderOf(inp, k).state == Some(Draft) then DraftAmendment else CreditNote
  }

  function IdOf(inp: Inputs, k: Key, j: Judgment): Id {
    LineId(k, if j.UnitsMismatch? then UnitsFix else if MoneyKind(inp, k).DraftAmendment? then MoneyDraft else MoneyNext)
  }

  predicate Mismatch(j: Judgment) { j.UnitsMismatch? || j.MoneyMismatch? }

  function Build(inp: Inputs, k: Key, j: Judgment): Correction
    requires Mismatch(j)
  {
    if j.UnitsMismatch? then
      Correction(IdOf(inp, k, j), MeterAdjustment, k, CurrencyOf(inp, k), j.gap, 0, inp.approver, inp.now)
    else
      Correction(IdOf(inp, k, j), MoneyKind(inp, k), k, CurrencyOf(inp, k), 0, -j.gap, inp.approver, inp.now)
  }

  // ---------------------------------------------------------- provider and ledger

  datatype Receipt = Receipt(provider: nat, id: Id, kind: Kind, units: int, minor: int)

  /** The provider: one effect per correction id; arrived lists the writes it saw, attempts counts the writes sent to it. */
  datatype Provider = Provider(receipts: map<Id, Receipt>, effects: nat, arrived: seq<Id>, attempts: nat)

  /** What becomes of one write: it never arrives, it takes effect but the answer is lost, or it is answered. */
  datatype Fate = NeverArrived | LostAck | Acked

  datatype Status = Applied | Recovered

  datatype Entry = Entry(correction: Correction, receipt: Receipt, status: Status, at: int)

  /** Entries in the order they were recorded. */
  type Ledger = seq<Entry>

  /** The entry recorded under an id. */
  function EntryOf(ledger: Ledger, id: Id): (e: Option<Entry>)
    ensures e.Some? <==> KnownId(ledger, id)
    ensures e.Some? ==> e.value in ledger && e.value.correction.id == id
  {
    if ledger == [] then None
    else if ledger[|ledger| - 1].correction.id == id then Some(ledger[|ledger| - 1])
    else EntryOf(ledger[..|ledger| - 1], id)
  }

  predicate KnownId(ledger: Ledger, id: Id) { exists i :: 0 <= i < |ledger| && ledger[i].correction.id == id }

  function CreditOf(e: Entry, k: Key): int { if Money(e.correction.kind) && e.correction.key == k then e.correction.minor else 0 }

  /** Net money already recorded for a line. */
  function CreditsFor(ledger: Ledger, k: Key): int {
    if ledger == [] then 0 else CreditsFor(ledger[..|ledger| - 1], k) + CreditOf(ledger[|ledger| - 1], k)
  }

  /** asks: whether the ledger's status query reads the provider, or is the default that knows nothing. */
  datatype World = World(ledger: Ledger, provider: Provider, asks: bool)

  datatype Outcome = Refused | AlreadyApplied(receipt: Receipt) | RecoveredNow(receipt: Receipt) | AppliedNow(receipt: Receipt) | Failed

  /** The idempotent read keyed by the correction id. */
  function RemoteReceipt(w: World, id: Id): Option<Receipt> {
    if w.asks && id in w.provider.receipts then Some(w.provider.receipts[id]) else None
  }

  function Act(p: Provider, c: Correction, fate: Fate): (Provider, Option<Receipt>) {
    var sent := p.(attempts := p.attempts + 1);
    if fate.NeverArrived? then (sent, None)
    else
      var seen := sent.(arrived := p.arrived + [c.id]);
      var booked :=
        if c.id in p.receipts then seen
        else seen.(effects := p.effects + 1, receipts := p.receipts[c.id := Receipt(p.effects + 1, c.id, c.kind, c.units, c.minor)]);
      (booked, if fate.LostAck? then None else Some(booked.receipts[c.id]))
  }

  /** apply: approval gate, known id, remote receipt, and only then the action; a raising action records nothing. */
  function Apply(w: World, c: Correction, now: int, fates: nat -> Fate): (World, Outcome) {
    if c.approver == "" then (w, Refused)
    else if EntryOf(w.ledger, c.id).Some? then (w, AlreadyApplied(EntryOf(w.ledger, c.id).value.receipt))
    else if RemoteReceipt(w, c.id).Some? then
      var r := RemoteReceipt(w, c.id).value;
      (w.(ledger := w.ledger + [Entry(c, r, Recovered, now)]), RecoveredNow(r))
    else
      var (p, receipt) := Act(w.provider, c, fates(w.provider.attempts));
      match receipt
      case None => (w.(provider := p), Failed)
      case Some(r) => (w.(ledger := w.ledger + [Entry(c, r, Applied, now)], provider := p), AppliedNow(r))
  }

  // ---------------------------------------------------------- one pass

  datatype RowOutcome = Untouched | Proposed | NoAction | Dispatched(outcome: Outcome)

  datatype Row = Row(key: Key, judgment: Judgment, credits: int, outcome: RowOutcome)

  function Dispatch(w: World, inp: Inputs, k: Key, j: Judgment, fates: nat -> Fate): (World, RowOutcome)
    requires Mismatch(j)
  {
    var c := Build(inp, k, j);
    if inp.approver == "" then (w, Proposed)
    else if c.kind !in inp.actions then (w, NoAction)
    else
      var (next, outcome) := Apply(w, c, inp.now, fates);
      (next, Dispatched(outcome))
  }

  function PassRow(w: World, inp: Inputs, k: Key, fates: nat -> Fate): (World, Row)
    requires !Malformed(inp, k)
  {
    var credits := CreditsFor(w.ledger, k);
    var j := Diff(inp, k, credits);
    if Mismatch(j) then
      var (next, outcome) := Dispatch(w, inp, k, j, fates);
      (next, Row(k, j, credits, outcome))
    else (w, Row(k, j, credits, Untouched))
  }

  /** How the report names a row; a pending aggregate stalls once its deadline has passed. */
  datatype RowKind = UnitsMismatchRow | MoneyMismatchRow | NoInvoiceRow | MatchRow | AwaitingRow | StalledRow

  function KindOf(row: Row, inp: Inputs): RowKind {
    match row.judgment
    case UnitsMismatch(_) => UnitsMismatchRow
    case MoneyMismatch(_) => MoneyMismatchRow
    case NoInvoice => NoInvoiceRow
    case Match => MatchRow
    case Waiting => if inp.deadline.Some? && inp.now >= inp.deadline.value then StalledRow else AwaitingRow
  }

  function CountKind(rows: seq<Row>, inp: Inputs, kind: RowKind): nat {
    if rows == [] then 0
    else CountKind(rows[..|rows| - 1], inp, kind) + (if KindOf(rows[|rows| - 1], inp) == kind then 1 else 0)
  }

  datatype Pass = Pass(world: World, rows: seq<Row>, raised: bool)

  /** One reconciliation pass over the lines in the given order; a malformed line ends it with a value error. */
  function Reconcile(w: World, inp: Inputs, keys: seq<Key>, fates: nat -> Fate): Pass {
    if keys == [] then Pass(w, [], false)
    else
      var before, k := Reconcile(w, inp, keys[..|keys| - 1], fates), keys[|keys| - 1];
      if before.raised then before
      else if Malformed(inp, k) then before.(raised := true)
      else
        var (next, row) := PassRow(before.world, inp, k, fates);
        Pass(next, before.rows + [row], false)
  }

  /** The lines of a pass, each once, in whatever order the sort gives them. */
  ghost predicate CoversLines(keys: seq<Key>, inp: Inputs) {
    && (forall i, j :: 0 <= i < j < |keys| ==> keys[i] != keys[j])
    && (forall k :: k in keys <==> k in inp.local.Keys + inp.provider.Keys)
  }
}
