/** The credit store (src/stores/credit-store.ts): a user's paid balance and
    bonus credits, the total the UI checks before spending, and the local
    deduction that mirrors a charge. Credit amounts are integers. */
module CreditStore {
  import opened Common

  datatype UserCredit = UserCredit(
    id: string,
    userId: string,
    balance: int,
    bonusCredits: Option<int>,
    updatedAt: string)

  datatype CreditState = CreditState(
    credits: Option<UserCredit>,
    isLoading: bool,
    error: Option<string>)

  function Max(a: int, b: int): int {
    if a >= b then a else b
  }

  /** `credits.bonusCredits || 0` */
  function Bonus(c: UserCredit): int {
    c.bonusCredits.GetOr(0)
  }

  /** Balance plus bonus; nothing when there is no credit record. */
  function TotalCredits(st: CreditState): (t: int)
    ensures st.credits.None? ==> t == 0
    ensures st.credits.Some? ==> t == st.credits.value.balance + Bonus(st.credits.value)
  {
    match st.credits
    case None => 0
    case Some(c) => c.balance + Bonus(c)
  }

  predicate HasEnoughCredits(st: CreditState, amount: int) {
    TotalCredits(st) >= amount
  }

  /** A fresh record also ends loading and clears the error. */
  function SetCredits(st: CreditState, c: UserCredit): (r: CreditState)
    ensures r.credits == Some(c) && !r.isLoading && r.error.None?
    ensures TotalCredits(r) == c.balance + Bonus(c)
  {
    CreditState(Some(c), false, None)
  }

  function SetLoading(st: CreditState, loading: bool): (r: CreditState)
    ensures r.isLoading == loading && r.(isLoading := st.isLoading) == st
  {
    st.(isLoading := loading)
  }

  function SetError(st: CreditState, error: Option<string>): (r: CreditState)
    ensures r.error == error && !r.isLoading && r.credits == st.credits
  {
    st.(error := error, isLoading := false)
  }

  /** Spends the bonus first and takes only the remainder from the
      balance, never letting either go below zero; without a record
      nothing happens. */
  function DeductCredits(st: CreditState, amount: int): (r: CreditState)
    ensures st.credits.None? ==> r == st
    ensures st.credits.Some? ==>
              && r.credits.Some?
              && r.credits.value.bonusCredits.Some?
              && r.credits.value.bonusCredits.value >= 0
              && r.credits.value.balance >= 0
              && r.credits.value.(balance := st.credits.value.balance,
                                  bonusCredits := st.credits.value.bonusCredits) == st.credits.value
    ensures st.credits.Some? && amount <= Bonus(st.credits.value) && st.credits.value.balance >= 0 ==>
              r.credits.value.balance == st.credits.value.balance
              && r.credits.value.bonusCredits == Some(Bonus(st.credits.value) - amount)
    ensures st.credits.Some? && amount >= Bonus(st.credits.value) ==>
              r.credits.value.bonusCredits == Some(0)
    ensures r.isLoading == st.isLoading && r.error == st.error
  {
    match st.credits
    case None => st
    case Some(c) =>
      var bonus := Bonus(c);
      var newBonus := Max(0, bonus - amount);
      var remaining := amount - bonus;
      var newBalance := Max(0, c.balance - Max(0, remaining));
      st.(credits := Some(c.(bonusCredits := Some(newBonus), balance := newBalance)))
  }

  /** For a non-negative amount and non-negative fields, the total after a
      deduction is the old total less the amount, floored at zero. */
  lemma DeductTotal(st: CreditState, amount: int)
    requires amount >= 0
    requires st.credits.Some? ==> st.credits.value.balance >= 0 && Bonus(st.credits.value) >= 0
    ensures TotalCredits(DeductCredits(st, amount)) == Max(0, TotalCredits(st) - amount)
  {
  }

  /** Whenever the check passes, the deduction takes the whole amount:
      nothing is clamped away. */
  lemma DeductWhenEnough(st: CreditState, amount: int)
    requires amount >= 0 && HasEnoughCredits(st, amount)
    requires st.credits.Some? ==> st.credits.value.balance >= 0 && Bonus(st.credits.value) >= 0
    ensures TotalCredits(DeductCredits(st, amount)) == TotalCredits(st) - amount
  {
    DeductTotal(st, amount);
  }

  /** Only the bonus rises, by exactly the amount. */
  function AddCredits(st: CreditState, amount: int): (r: CreditState)
    ensures st.credits.None? ==> r == st
    ensures st.credits.Some? ==>
              && r.credits.Some?
              && r.credits.value.bonusCredits == Some(Bonus(st.credits.value) + amount)
              && r.credits.value.(bonusCredits := st.credits.value.bonusCredits) == st.credits.value
    ensures TotalCredits(r) == TotalCredits(st) + (if st.credits.Some? then amount else 0)
    ensures r.isLoading == st.isLoading && r.error == st.error
  {
    match st.credits
    case None => st
    case Some(c) => st.(credits := Some(c.(bonusCredits := Some(Bonus(c) + amount))))
  }

  /** Deducting what was just added restores the record, with a missing
      bonus now written as an explicit number. */
  lemma DeductUndoesAdd(st: CreditState, amount: int)
    requires amount >= 0
    requires st.credits.Some? ==> st.credits.value.balance >= 0 && Bonus(st.credits.value) >= 0
    ensures st.credits.None? ==> DeductCredits(AddCredits(st, amount), amount) == st
    ensures st.credits.Some? ==>
              DeductCredits(AddCredits(st, amount), amount)
              == st.(credits := Some(st.credits.value.(bonusCredits := Some(Bonus(st.credits.value)))))
  {
  }
}
