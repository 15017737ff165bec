/** What the vault still owes after claimed cards discarded their credit. */
module LedgerDebt {
  import opened Machine
  import opened FeeMath
  import opened State
  import opened Accounting
  import opened Sums
  import opened Ledger
  import opened LedgerInvariant
  import opened LedgerSteps
  import opened LedgerCloses
  import opened LedgerTheorems
  import opened LedgerFees

  // ---- The claims, summed ----

  /** One position's claim falls by `gone`, and no other rises. */
  lemma {:induction false} ClaimsFall(accEqual: nat, accTier: nat, ps: seq<Position>, qs: seq<Position>,
                                      j: nat, gone: nat)
    requires |ps| == |qs|
    requires forall k :: 0 <= k < |ps| ==>
               Claim(accEqual, accTier, qs[k]) + (if k == j then gone else 0) <= Claim(accEqual, accTier, ps[k])
    ensures SumBy(ClaimOf(accEqual, accTier), qs) + (if j < |ps| then gone else 0)
         <= SumBy(ClaimOf(accEqual, accTier), ps)
    decreases |ps|
  {
    hide Claim;
    if ps != [] {
      var n := |ps| - 1;
      assert Claim(accEqual, accTier, qs[n]) + (if n == j then gone else 0) <= Claim(accEqual, accTier, ps[n]);
      ClaimsFall(accEqual, accTier, ps[..n], qs[..n], j, gone);
    }
  }

  lemma SettledClaims(l: Ledger, after: Ledger, j: nat, gone: nat)
    requires AllSettle(l, after, j, gone)
    ensures SumBy(ClaimOf(after.pool.accEqual, after.accTier), after.positions)
            + (if j < |l.positions| then gone else 0)
         <= SumBy(ClaimOf(l.pool.accEqual, l.accTier), l.positions)
  {
    hide Claim;
    ClaimsFall(l.pool.accEqual, l.accTier, l.positions, after.positions, j, gone);
  }

  ghost function Claims(l: Ledger): nat {
    SumBy(ClaimOf(l.pool.accEqual, l.accTier), l.positions)
  }

  /** The credit one transaction discards, whoever it belonged to. */
  ghost function DiscardedBy(l: Ledger, a: Action): nat
    requires Inv(l)
  {
    ShapeOf(l);
    if a.ReleasePosition? && Handle(l, a).Ok? then l.positions[a.i].accrued else 0
  }

  lemma DepositClaims(l: Ledger, depositor: nat)
    requires Deposit(l, depositor).Ok?
    ensures Claims(Deposit(l, depositor).value) == Claims(l)
  {
    SumAppend(ClaimOf(l.pool.accEqual, l.accTier), l.positions, NewPosition(depositor, |l.positions|));
  }

  lemma AccrueClaims(l: Ledger, fee: u64)
    requires Inv(l) && |l.pool.blanks| == 3 && Accrue(l, fee).Ok?
    ensures Claims(Accrue(l, fee).value)
         <= Claims(l) + (BpsShare(fee, l.pool.allocEqualBps) + BpsShare(fee, l.pool.allocTierBps)) * ACC_PRECISION
  {
    ActiveCounted(l);
    AccrueOwed(l, fee);
    var equalUnit, tierUnit, shares := AccrualEffect(l, fee);
    CheckpointsOf(l);
    AccrualGrowth(l.pool.accEqual, l.accTier, equalUnit, tierUnit, l.positions);
    hide Accrue;
    hide BpsShare;
    hide Inv;
    hide Claim;
    hide CheckpointsOk;
  }

  lemma CheckpointsOf(l: Ledger)
    requires Inv(l)
    ensures forall i :: 0 <= i < |l.positions| ==> CheckpointsOk(l.pool.accEqual, l.accTier, l.positions[i])
  {
  }

  /** A withdrawal's payment and a claimed card's discard leave the claims; only an accrual adds. */
  lemma StepClaims(l: Ledger, a: Action)
    requires Inv(l)
    ensures Claims(Step(l, a)) + ACC_PRECISION * (Payment(l, a) + DiscardedBy(l, a))
         <= Claims(l) + ACC_PRECISION * Credit(l, a)
  {
    ShapeOf(l);
    hide Inv;
    hide Shape;
    hide Claims;
    hide BpsShare;
    hide Deposit;
    hide Accrue;
    hide Withdraw;
    if Handle(l, a).Ok? {
      if a.DepositBy? {
        DepositClaims(l, a.depositor);
      } else if a.AccrueFee? {
        AccrueClaims(l, a.fee);
      } else {
        HandledClaims(l, a);
        hide Handle;
      }
    }
  }

  lemma HandledClaims(l: Ledger, a: Action)
    requires Inv(l) && Shape(l) && |l.pool.blanks| == 3 && Handle(l, a).Ok? && !a.DepositBy? && !a.AccrueFee?
    ensures Claims(Handle(l, a).value) + ACC_PRECISION * (Payment(l, a) + DiscardedBy(l, a)) <= Claims(l)
    ensures Credit(l, a) == 0
  {
    HandledSettles(l, a);
    TargetOutflowIs(l, a);
    hide Inv;
    hide Settles;
    SettledClaims(l, Handle(l, a).value, Target(l, a), ACC_PRECISION * TargetOutflow(l, a));
    hide Handle;
    hide TargetOutflow;
    hide AllSettle;
  }

  // ---- Whole runs ----

  ghost function DiscardedOver(pool: Pool, capacity: u32, actions: seq<Action>): nat
    requires ValidConfig(pool)
    decreases |actions|
  {
    if actions == [] then 0
    else
      var front := actions[..|actions| - 1];
      DiscardedOver(pool, capacity, front) + DiscardedBy(Run(pool, capacity, front), actions[|actions| - 1])
  }

  /** Over any run the vault goes on owing every unit a claimed card ever discarded, on top of every
      remaining claim: no instruction discharges it. */
  lemma {:induction false} DiscardsStayOwed(pool: Pool, capacity: u32, actions: seq<Action>)
    requires ValidConfig(pool)
    ensures var l := Run(pool, capacity, actions);
            Claims(l) + ACC_PRECISION * DiscardedOver(pool, capacity, actions) <= ACC_PRECISION * l.pool.owedFees
    decreases |actions|
  {
    hide Claim;
    hide Credit;
    hide Payment;
    hide DiscardedBy;
    hide Step;
    if actions != [] {
      var front, a := actions[..|actions| - 1], actions[|actions| - 1];
      DiscardsStayOwed(pool, capacity, front);
      StepClaims(Run(pool, capacity, front), a);
      StepConserves(Run(pool, capacity, front), a);
      hide Claims;
    }
  }
}
