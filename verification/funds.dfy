/** The InsuffecientFunds exception: raised by a buy whose estimated cost is above the
    account's cash. Its constructor checks its own reason for existing. */
module Funds {
  import opened Wrappers

  /** The exception value: what the account held, what the purchase needed, and the gap. */
  datatype InsufficientFunds = InsufficientFunds(availableFunds: real, amountNeeded: real, missingFunds: real)

  /** The ValueError the constructor raises when the funds would in fact cover the purchase. */
  datatype SelfCheckFailed = EnoughFunds(availableFunds: real, amountToBuy: real)

  /** What every exception the constructor lets into existence satisfies. */
  predicate Valid(e: InsufficientFunds)
  {
    && e.availableFunds < e.amountNeeded
    && e.missingFunds == e.amountNeeded - e.availableFunds
  }

  /** `InsuffecientFunds.__init__`: refuses when `availableFunds >= amountToBuy`, otherwise
      keeps both arguments and the missing amount. */
  function NewInsufficientFunds(availableFunds: real, amountToBuy: real): (r: Result<InsufficientFunds, SelfCheckFailed>)
    ensures r.Failure? <==> availableFunds >= amountToBuy
    ensures r.Failure? ==> r.error == EnoughFunds(availableFunds, amountToBuy)
    ensures r.Success? ==> r.value.availableFunds == availableFunds && r.value.amountNeeded == amountToBuy
    ensures r.Success? ==> Valid(r.value) && r.value.missingFunds > 0.0
  {
    if availableFunds >= amountToBuy then
      Failure(EnoughFunds(availableFunds, amountToBuy))
    else
      Success(InsufficientFunds(availableFunds, amountToBuy, amountToBuy - availableFunds))
  }

  /** The valid exceptions are exactly the ones the constructor builds, and it builds each
      from its own two stored arguments. */
  lemma ConstructedIffValid(e: InsufficientFunds)
    ensures Valid(e) <==> NewInsufficientFunds(e.availableFunds, e.amountNeeded) == Success(e)
  {
  }
}
