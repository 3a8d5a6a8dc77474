/** federator/src/lib/Broker/HathorBroker.ts: which melt proposals for a Hathor deposit are
    accepted. */
module HathorBroker {
  import opened Sums
  import opened TokenData
  import opened Utxo
  import opened Wrappers

  datatype Refusal =
    | InvalidVersion | Voided | BadDeposit(error: DepositError) | NoDeposit
    | NoMeltAuthority | NotAMelt | AmountDiffers

  function Abs(n: int): int {
    if n < 0 then -n else n
  }

  /** `original` is the wallet's answer for the deposit's transaction, `isProcessed` the
      ledger's for the transfer. */
  function ValidateTx(proposal: Tx, original: Option<Tx>, isProcessed: bool): Result<bool, Refusal> {
    match original
    case None => Success(false)
    case Some(originalTx) =>
      if isProcessed then Success(false)
      else if originalTx.version != 1 then Failure(InvalidVersion)
      else if originalTx.isVoided then Failure(Voided)
      else
        var info := InfoOf(proposal);
        match ReadOnValidation(originalTx.inputs, originalTx.outputs)
        case Failure(error) => Failure(BadDeposit(error))
        case Success(None) => Failure(NoDeposit)
        case Success(Some(deposit)) =>
          var t := deposit.tokenAddress;
          if t !in info.canMelt then Failure(NoMeltAuthority)
          else if t in info.balances && info.balances[t] >= 0 then Failure(NotAMelt)
          else if t !in info.balances || Abs(info.balances[t]) != deposit.amount then Failure(AmountDiffers)
          else Success(true)
  }

  /** What a deposit is: all available MultiSig outputs agree on token and address, and the
      amount is their total. */
  lemma DepositMeaning(inputs: seq<Input>, outputs: seq<Output>, deposit: Deposit)
    requires ReadOnValidation(inputs, outputs) == Success(Some(deposit))
    ensures deposit.amount == Sum(outputs, ValueIf(IsAvailableMultiSigOutput))
    ensures forall o | o in outputs && IsAvailableMultiSigOutput(o) ::
              o.token == deposit.tokenAddress && o.address == deposit.receiverAddress
    ensures exists o :: o in outputs && IsAvailableMultiSigOutput(o)
  {
    var data := Filter(outputs, IsAvailableMultiSigOutput);
    FilterMembers(outputs, IsAvailableMultiSigOutput);
    FilterSum(outputs, IsAvailableMultiSigOutput);
    assert data[0] in data;
    forall o | o in outputs && IsAvailableMultiSigOutput(o)
      ensures SameTarget(o, data[0])
    {
      assert o in data;
    }
  }

  /** A melt is accepted exactly when the deposit is still there and unprocessed, a pure melt
      authority of its token is spent, and the proposal destroys its amount, no less and no
      more: all in terms of the two transactions. A token the proposal does not move is never
      accepted. It is turned down without an exception exactly when there is no original or the
      transfer is processed. */
  lemma MeltAcceptance(proposal: Tx, original: Option<Tx>, isProcessed: bool)
    ensures ValidateTx(proposal, original, isProcessed) == Success(true) <==>
            && original.Some? && !isProcessed && original.value.version == 1 && !original.value.isVoided
            && exists d: Deposit ::
                 && IsDeposit(original.value.inputs, original.value.outputs, Counting(true), d)
                 && SpendsPureMelt(proposal.inputs, d.tokenAddress)
                 && -NetCreation(proposal, d.tokenAddress) == d.amount > 0
    ensures ValidateTx(proposal, original, isProcessed) == Success(false) <==> original == None || isProcessed
  {
    if original.Some? {
      var inputs, outputs := original.value.inputs, original.value.outputs;
      forall d
        ensures ReadOnValidation(inputs, outputs) == Success(Some(d)) <==> IsDeposit(inputs, outputs, Counting(true), d)
      {
        ValidationReadingIs(inputs, outputs, d);
      }
      AcceptanceByReading(proposal, original.value, isProcessed);
    }
  }

  /** Which exception a refused melt meets: the first check that fails says so. */
  lemma RefusalOf(proposal: Tx, original: Tx, d: Deposit)
    ensures var r := ValidateTx(proposal, Some(original), false);
            var sound := original.version == 1 && !original.isVoided;
            && (r == Failure(InvalidVersion) <==> original.version != 1)
            && (r == Failure(Voided) <==> original.version == 1 && original.isVoided)
            && (r == Failure(NoDeposit) <==> sound && forall o | o in original.outputs :: !Counting(true)(o))
            && (sound && IsDeposit(original.inputs, original.outputs, Counting(true), d) ==>
                && (r == Failure(NoMeltAuthority) <==> !SpendsPureMelt(proposal.inputs, d.tokenAddress))
                && (r == Failure(NotAMelt) <==> SpendsPureMelt(proposal.inputs, d.tokenAddress)
                                                && Moves(proposal, d.tokenAddress) && NetCreation(proposal, d.tokenAddress) >= 0))
  {
    ValidationReadingIs(original.inputs, original.outputs, d);
    InfoOfMeaning(proposal, d.tokenAddress);
  }

  lemma AcceptanceByReading(proposal: Tx, original: Tx, isProcessed: bool)
    ensures ValidateTx(proposal, Some(original), isProcessed) == Success(true) <==>
            && !isProcessed && original.version == 1 && !original.isVoided
            && ReadOnValidation(original.inputs, original.outputs).Success?
            && ReadOnValidation(original.inputs, original.outputs).value.Some?
            && var deposit := ReadOnValidation(original.inputs, original.outputs).value.value;
            && SpendsPureMelt(proposal.inputs, deposit.tokenAddress)
            && -NetCreation(proposal, deposit.tokenAddress) == deposit.amount > 0
  {
    var reading := ReadOnValidation(original.inputs, original.outputs);
    if reading.Success? && reading.value.Some? {
      InfoOfMeaning(proposal, reading.value.value.tokenAddress);
    }
  }

  /** A melt drawn up for the amount read when the deposit arrived passes exactly as long as no
      MultiSig output of the deposit has been spent or is timelocked. */
  lemma MeltOfArrivalPasses(proposal: Tx, originalTx: Tx, arrived: Deposit)
    requires originalTx.version == 1 && !originalTx.isVoided
    requires forall o | o in originalTx.outputs && IsMultiSigOutput(o) :: o.value > 0
    requires ReadOnArrival(originalTx.inputs, originalTx.outputs) == Success(Some(arrived))
    requires SpendsPureMelt(proposal.inputs, arrived.tokenAddress)
    requires NetCreation(proposal, arrived.tokenAddress) == -arrived.amount
    ensures ValidateTx(proposal, Some(originalTx), false) == Success(true) <==>
            forall o | o in originalTx.outputs && IsMultiSigOutput(o) :: IsAvailable(o)
  {
    ReadingsAgree(originalTx.inputs, originalTx.outputs);
    AcceptanceByReading(proposal, originalTx, false);
    if ReadOnValidation(originalTx.inputs, originalTx.outputs).value == Some(arrived) {
      assert ReadOnValidation(originalTx.inputs, originalTx.outputs) == ReadOnArrival(originalTx.inputs, originalTx.outputs);
    }
  }
}
