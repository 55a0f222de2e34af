/** The isotope currency (Core/Economy/EconomyManager.cs). */
module EconomyManager {

  /** The Isotopes setter: a negative value is stored as zero. */
  function Floored(value: int): (r: nat)
    ensures value >= 0 ==> r == value
    ensures value < 0 ==> r == 0
  {
    if value < 0 then 0 else value
  }

  /** One change to the balance, as the three entry points make it. */
  datatype IsotopeOp = AddOp(amount: int) | SpendOp(amount: int) | LoadOp(saved: int)

  /** The balance after one operation; a refused or ignored one leaves it. */
  function Apply(balance: int, op: IsotopeOp): int
  {
    match op
    case AddOp(amount) => if amount <= 0 then balance else Floored(balance + amount)
    case SpendOp(amount) => if amount <= 0 || balance < amount then balance else Floored(balance - amount)
    case LoadOp(saved) => Floored(saved)
  }

  function ApplyAll(balance: int, ops: seq<IsotopeOp>): int
    decreases |ops|
  {
    if |ops| == 0 then balance else ApplyAll(Apply(balance, ops[0]), ops[1..])
  }

  /** Whatever is added, spent or loaded, the balance never goes negative. */
  lemma {:induction false} NeverNegative(balance: int, ops: seq<IsotopeOp>)
    requires balance >= 0
    ensures ApplyAll(balance, ops) >= 0
    decreases |ops|
  {
    if |ops| > 0 {
      NeverNegative(Apply(balance, ops[0]), ops[1..]);
    }
  }

  /** Spending what was just added gives back the starting balance. */
  lemma AddThenSpendRestores(balance: int, amount: int)
    requires balance >= 0 && amount > 0
    ensures Apply(Apply(balance, AddOp(amount)), SpendOp(amount)) == balance
  {
  }

  class EconomyManager {
    var isotopes: int
    /** IsotopesChanged invocations, with the total each carried. */
    var changes: seq<int>

    constructor ()
      ensures isotopes == 0 && changes == []
    {
      isotopes := 0;
      changes := [];
    }

    /** AddIsotopes: a non-positive amount is ignored; otherwise the total grows and is announced. */
    method AddIsotopes(amount: int)
      modifies this
      ensures isotopes == Apply(old(isotopes), AddOp(amount))
      ensures changes == old(changes) + (if amount <= 0 then [] else [isotopes])
    {
      if amount <= 0 {
        return;
      }
      isotopes := Floored(isotopes + amount);
      changes := changes + [isotopes];
    }

    /** SpendIsotopes: refused for a non-positive amount or more than the balance. */
    method SpendIsotopes(amount: int) returns (ok: bool)
      modifies this
      ensures ok <==> amount > 0 && old(isotopes) >= amount
      ensures isotopes == Apply(old(isotopes), SpendOp(amount))
      ensures changes == old(changes) + (if ok then [isotopes] else [])
    {
      if amount <= 0 || isotopes < amount {
        return false;
      }
      isotopes := Floored(isotopes - amount);
      changes := changes + [isotopes];
      return true;
    }

    /** Load: the saved value, floored at zero, with no announcement. */
    method Load(saved: int)
      modifies this
      ensures isotopes == Apply(old(isotopes), LoadOp(saved))
      ensures changes == old(changes)
    {
      isotopes := Floored(saved);
    }
  }
}
