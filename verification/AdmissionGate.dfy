/**
 The atomic admission of scripts/budget_gates.py: eligibility and budget increment in
 one critical section.  The payment verdict of the billing rules comes in as a value.
 */
module AdmissionGate {
  import opened Basics

  /** What a caller presents about an account; paymentAllows is the billing rules' verdict on the action. */
  datatype Account = Account(paymentAllows: bool, blocked: bool, spend: nat, limit: Option<nat>)

  datatype Verdict = Allowed | PaymentDenied | StickyBlock | AtLimit | BlockNewZone | NoHeadroom

  function CeilDiv(n: int, d: int): int
    requires d > 0
  {
    -(-n / d)
  }

  function BlockNewAt(limit: nat, pct: nat): int { CeilDiv(limit * pct, 100) }

  /** check on the spend committed so far. */
  function Check(a: Account, spend: nat, pct: nat): Verdict {
    if !a.paymentAllows then PaymentDenied
    else if a.blocked then StickyBlock
    else if a.limit.None? then Allowed
    else if spend >= a.limit.value then AtLimit
    else if spend >= BlockNewAt(a.limit.value, pct) then BlockNewZone
    else Allowed
  }

  function Base(committed: map<string, nat>, id: string, a: Account): nat {
    if id in committed then committed[id] else a.spend
  }

  function Admit(committed: map<string, nat>, id: string, a: Account, cost: nat, pct: nat): (map<string, nat>, Verdict) {
    var base := Base(committed, id, a);
    var seen := committed[id := base];
    var verdict := Check(a, base, pct);
    if !verdict.Allowed? then (seen, verdict)
    else if a.limit.Some? && base + cost >= a.limit.value then (seen, NoHeadroom)
    else (seen[id := base + cost], Allowed)
  }

  function Release(committed: map<string, nat>, id: string, cost: nat): map<string, nat> {
    committed[id := Max(0, (if id in committed then committed[id] else 0) - cost)]
  }

  datatype Action = DoAdmit(id: string, account: Account, cost: nat) | DoRelease(id: string, back: nat)

  function Step(committed: map<string, nat>, act: Action, pct: nat): map<string, nat> {
    match act
    case DoAdmit(id, a, cost) => Admit(committed, id, a, cost, pct).0
    case DoRelease(id, back) => Release(committed, id, back)
  }

  function Run(acts: seq<Action>, pct: nat): map<string, nat> {
    if acts == [] then map[] else Step(Run(acts[..|acts| - 1], pct), acts[|acts| - 1], pct)
  }

  /**
   One call decides alone: it is allowed exactly when payment allows the action, nothing
   blocks the account and, where it shows a limit, the commitment is still below the
   block-new line and stays below the limit with the cost; only then the cost is added.
   */
  lemma AdmittedExactly(committed: map<string, nat>, id: string, a: Account, cost: nat, pct: nat)
    ensures var base := if id in committed then committed[id] else a.spend; var (next, verdict) := Admit(committed, id, a, cost, pct);
            && (verdict.Allowed? <==>
                  a.paymentAllows && !a.blocked &&
                  (a.limit.Some? ==> 100 * base < a.limit.value * pct && base + cost < a.limit.value))
            && next == committed[id := if verdict.Allowed? then base + cost else base]
            && (verdict.Allowed? && a.limit.Some? ==> next[id] < a.limit.value)
  {
  }

  /** The most one account's commitment can be, from what its calls showed, whatever the gate answered. */
  function Ceiling(acts: seq<Action>, id: string): nat {
    if acts == [] then 0
    else
      var before, last := Ceiling(acts[..|acts| - 1], id), acts[|acts| - 1];
      if last.DoRelease? || last.id != id then before
      else
        var base := Max(before, last.account.spend);
        match last.account.limit
        case None => base + last.cost
        case Some(limit) => Max(base, limit - 1)
  }

  /** However many creates and releases race for the gate, only a call without a limit can lift the commitment past one. */
  lemma {:induction false} CommitmentUnderCeiling(acts: seq<Action>, id: string, pct: nat)
    ensures id in Run(acts, pct) ==> Run(acts, pct)[id] <= Ceiling(acts, id)
  {
    if acts != [] {
      CommitmentUnderCeiling(acts[..|acts| - 1], id, pct);
    }
  }

  /** Every request for this account shows a limit of at most cap and a spend below cap. */
  predicate Capped(acts: seq<Action>, id: string, cap: nat) {
    forall i :: 0 <= i < |acts| && acts[i].DoAdmit? && acts[i].id == id ==>
      acts[i].account.limit.Some? && acts[i].account.limit.value <= cap && acts[i].account.spend < cap
  }

  lemma {:induction false} CeilingUnderCap(acts: seq<Action>, id: string, cap: nat)
    requires Capped(acts, id, cap) && cap > 0
    ensures Ceiling(acts, id) < cap
  {
    if acts != [] {
      CeilingUnderCap(acts[..|acts| - 1], id, cap);
    }
  }

  /** With limits that may change from call to call but never pass the cap, the commitment never reaches the cap. */
  lemma CommitmentStaysBelowLimit(acts: seq<Action>, id: string, cap: nat, pct: nat)
    requires Capped(acts, id, cap) && cap > 0
    ensures id in Run(acts, pct) ==> Run(acts, pct)[id] < cap
  {
    CommitmentUnderCeiling(acts, id, pct);
    CeilingUnderCap(acts, id, cap);
  }

  /** A release gives back what was reserved, never more than there is, and undoes the admission it belongs to. */
  lemma ReleaseUndoesAdmission(committed: map<string, nat>, id: string, a: Account, cost: nat, pct: nat, back: nat)
    requires id in committed
    ensures Release(committed, id, back) == committed[id := if back <= committed[id] then committed[id] - back else 0]
    ensures var (next, verdict) := Admit(committed, id, a, cost, pct); verdict.Allowed? ==> Release(next, id, cost) == committed
  {
    assert committed[id := committed[id]] == committed;
  }

  class EligibilityGate {
    var committed: map<string, nat>
    const pct: nat

    constructor (pct: nat)
      ensures this.pct == pct && committed == map[]
    {
      this.pct := pct;
      committed := map[];
    }

    method AdmitAtomically(id: string, a: Account, cost: nat) returns (verdict: Verdict)
      modifies this
      ensures (committed, verdict) == Admit(old(committed), id, a, cost, pct)
    {
      if id !in committed { committed := committed[id := a.spend]; }
      var base := committed[id];
      assert committed == old(committed)[id := base];
      verdict := Check(a, base, pct);
      if !verdict.Allowed? { return; }
      if a.limit.Some? && base + cost >= a.limit.value { return NoHeadroom; }
      committed := committed[id := base + cost];
    }

    method ReleaseBudget(id: string, cost: nat)
      modifies this
      ensures committed == Release(old(committed), id, cost)
    {
      committed := committed[id := Max(0, (if id in committed then committed[id] else 0) - cost)];
    }
  }
}
