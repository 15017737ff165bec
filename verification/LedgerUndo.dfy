/** A withdrawal undoes the approval before it. */
module LedgerUndo {
  import opened Machine
  import opened FeeMath
  import opened Accounting
  import opened TierSpec
  import opened Ledger
  import opened LedgerInvariant
  import opened LedgerSteps
  import LedgerEffects
  import Index = IndexSpec

  /** What a crossing does to the crossing position itself: at most its membership starts now. */
  lemma CrossedPosition(l: Ledger, i: nat, supplied: seq<nat>)
    requires 0 < l.pool.tierSize && i < |l.positions| && Cross(l, i, supplied).Ok?
    requires !l.positions[i].inTier && l.positions[i].equalCheckpoint == l.pool.accEqual
    ensures var after := Cross(l, i, supplied).value.0;
            && after == l.(tier := after.tier, positions := after.positions)
            && |after.positions| == |l.positions|
            && SameCore(l.positions[i], after.positions[i])
            && ExitPayout(l.pool, after.positions[i], l.accTier) == Ok(l.positions[i].accrued)
  {
    hide Promote;
  }

  /** The parts of an approval a later exit reads back. */
  lemma ApprovalEffect(l: Ledger, i: nat, att: Attestation, now: i64, supplied: seq<nat>)
    requires Inv(l) && Approve(l, i, att, now, supplied).Ok?
    ensures Activatable(l, i, att.value)
    ensures var a := Approve(l, i, att, now, supplied).value;
            var activated := ActivatedLedger(l, i, att, now);
            && |a.positions| == |l.positions|
            && a.index == activated.index && a.wallets == activated.wallets
            && a.pool == activated.pool.(blanks := a.pool.blanks)
            && SameCore(activated.positions[i], a.positions[i])
            && ExitPayout(a.pool, a.positions[i], a.accTier) == Ok(l.positions[i].accrued)
  {
    ShapeOf(l);
    ApproveIsCross(l, i, att, now, supplied);
    var activated := ActivatedLedger(l, i, att, now);
    assert !activated.positions[i].inTier;
    CrossedPosition(activated, i, supplied);
    hide Inv;
    hide Approve;
    hide Cross;
    hide Index.Insert;
    hide PositionFeePayout;
    RebalancedKeeps(activated.pool);
    hide Rebalanced;
  }

  /** Approving a deposit and withdrawing it with nothing accrued in between puts the pool's weight,
      its count, every leaf and every wallet back, recycles the slot next, and pays only what the
      position already held. */
  lemma WithdrawUndoesApprove(l: Ledger, i: nat, att: Attestation, now: i64, supplied: seq<nat>,
                              later: i64, successor: seq<nat>)
    requires Inv(l) && Approve(l, i, att, now, supplied).Ok?
    requires Shape(Approve(l, i, att, now, supplied).value)
    requires Withdraw(Approve(l, i, att, now, supplied).value, i, later, successor).Ok?
    ensures var a := Approve(l, i, att, now, supplied).value;
            var b := Withdraw(a, i, later, successor).value;
            && b.index.leaves == l.index.leaves
            && Index.NextSlot(b.index) == Some(a.positions[i].slotIndex)
            && b.pool.wReal == l.pool.wReal && b.pool.nReal == l.pool.nReal
            && b.pool.owedFees + l.positions[i].accrued == l.pool.owedFees
            && forall owner :: WalletOf(b.wallets, owner) == WalletOf(l.wallets, owner)
  {
    hide Approve;
    hide Withdraw;
    hide ExitPayout;
    hide LedgerEffects.Due;
    hide LedgerEffects.HandsOver;
    hide LedgerEffects.ClosesAs;
    hide WeightOf;
    ApprovalEffect(l, i, att, now, supplied);
    ApproveKeeps(l, i, att, now, supplied);
    var a := Approve(l, i, att, now, supplied).value;
    Index.RemoveUndoesInsert(l.index, att.value, a.pool.wReal);
    LedgerEffects.WithdrawalLeaves(a, i, later, successor);
    LedgerEffects.LegsRead(a, i);
    hide Inv;
    hide Index.Insert;
    LedgerEffects.ExitPaysDue(a.pool, a.positions[i], a.accTier);
  }
}
