/** The money side of the storefront: fiat withdrawal requests debited from
    the wallet balance, and the royalty payouts with their running balance.
    All amounts are in hundredths of SOL. */
module Ledger {
  import opened Base
  import Text
  import Amounts

  datatype WithdrawalStatus = Processing | Paid

  /** A fiat withdrawal request; `eta` and `ts` come from the clock. */
  datatype FiatWithdrawal = FiatWithdrawal(id: string, amount: int, eta: string, status: WithdrawalStatus, accountMasked: string, ts: int)

  datatype Payout = Payout(date: string, amount: int)

  /** First-launch values (App.tsx:162-165, 321-325). */
  const InitialWalletBalance: int := 2500
  const InitialRoyalty: int := 2000
  const InitialPayouts: seq<Payout> := [Payout("2025-09-01", 500), Payout("2025-09-02", 1500)]

  datatype WithdrawError = SignInRequired | InvalidAmount | MissingBeneficiary

  /** The refusals of `confirmFiatWithdraw` (App.tsx:604-615), in the order
      the handler tests them. */
  function CheckWithdrawal(signedIn: bool, amount: int, balance: int, name: string, iban: string): (r: Option<WithdrawError>)
    ensures r == None <==> signedIn && 0 < amount <= balance && !Text.AllSpace(name) && !Text.AllSpace(iban)
    ensures !signedIn ==> r == Some(SignInRequired)
    ensures signedIn && (amount <= 0 || amount > balance) ==> r == Some(InvalidAmount)
    ensures signedIn && 0 < amount <= balance && (Text.AllSpace(name) || Text.AllSpace(iban)) ==> r == Some(MissingBeneficiary)
  {
    if !signedIn then Some(SignInRequired)
    else if amount <= 0 || amount > balance then Some(InvalidAmount)
    else if Text.Trim(name) == [] || Text.Trim(iban) == [] then Some(MissingBeneficiary)
    else None
  }

  /** The record a confirmed withdrawal appends (App.tsx:618-634). */
  function NewWithdrawal(id: string, amount: int, eta: string, iban: string, ts: int): (w: FiatWithdrawal)
    ensures w.status == Processing && w.amount == amount && w.id == id
    ensures w.eta == eta && w.ts == ts && w.accountMasked == Text.MaskAccount(iban)
    ensures |iban| >= 4 ==> |w.accountMasked| == 12 && w.accountMasked[..4] == iban[..4] && w.accountMasked[4..8] == "****" && w.accountMasked[8..] == iban[|iban| - 4..]
    ensures |iban| < 4 ==> w.accountMasked == iban + "****" + iban
  {
    FiatWithdrawal(id, amount, eta, Processing, Text.MaskAccount(iban), ts)
  }

  /** A withdrawal the checks let through leaves a non-negative balance and
      debits at least the 0.1 SOL minimum. */
  lemma WithdrawalKeepsBalance(signedIn: bool, draft: string, balance: int, name: string, iban: string)
    requires CheckWithdrawal(signedIn, Amounts.WithdrawAmount(draft), balance, name, iban) == None
    ensures 0 <= balance - Amounts.WithdrawAmount(draft) <= balance - 10
  {
  }

  /** `payouts.reduce((s, p) => s + p.amount, 0)`, folded from the left. */
  function PaidToFans(ps: seq<Payout>): (r: int)
    ensures ps == [] ==> r == 0
    ensures |ps| == 1 ==> r == ps[0].amount
  {
    if ps == [] then 0
    else PaidToFans(ps[..|ps| - 1]) + ps[|ps| - 1].amount
  }

  /** No payout is negative, so neither is the total. */
  lemma {:induction false} PaidToFansNonNegative(ps: seq<Payout>)
    requires forall i :: 0 <= i < |ps| ==> ps[i].amount >= 0
    ensures PaidToFans(ps) >= 0
    decreases |ps|
  {
    if ps != [] {
      var init := ps[..|ps| - 1];
      assert forall i :: 0 <= i < |init| ==> init[i] == ps[i];
      PaidToFansNonNegative(init);
    }
  }

  /** Appending a payout raises the total by exactly its amount. */
  lemma PaidToFansAppend(ps: seq<Payout>, p: Payout)
    ensures PaidToFans(ps + [p]) == PaidToFans(ps) + p.amount
  {
    assert (ps + [p])[..|ps|] == ps;
  }

  /** With only positive payouts the total is positive whenever there is a
      payout, and never below any single payout. */
  lemma {:induction false} PaidToFansBounds(ps: seq<Payout>)
    requires forall i :: 0 <= i < |ps| ==> ps[i].amount > 0
    ensures ps != [] ==> PaidToFans(ps) > 0
    ensures forall i :: 0 <= i < |ps| ==> ps[i].amount <= PaidToFans(ps)
    decreases |ps|
  {
    if ps != [] {
      var init := ps[..|ps| - 1];
      PaidToFansBounds(init);
      assert forall i :: 0 <= i < |init| ==> init[i] == ps[i];
    }
  }
}
