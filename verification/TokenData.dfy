/** The two functions called getCustomTokenData: the one of federator/src/types/HathorTx.ts
    reads a deposit when it arrives, the one of federator/src/lib/Broker/Broker.ts reads it
    again when a melt proposal is validated. */
module TokenData {
  import opened Sums
  import opened Utxo
  import opened Wrappers

  datatype Deposit = Deposit(tokenAddress: Token, senderAddress: string, receiverAddress: string, amount: int)

  /** NoInputOfToken is the TypeError of reading an address of no input. */
  datatype DepositError = NoInputOfToken | MoreThanOneTokenOrAddress

  type Reading = Result<Option<Deposit>, DepositError>

  function Filter(outputs: seq<Output>, p: Output -> bool): seq<Output> {
    if outputs == [] then []
    else Filter(outputs[..|outputs| - 1], p) +
         (if p(outputs[|outputs| - 1]) then [outputs[|outputs| - 1]] else [])
  }

  predicate IsMultiSigOutput(o: Output) {
    o.token != "" && o.kind == "MultiSig"
  }

  predicate IsAvailable(o: Output) {
    o.spentBy == None && o.timelock == Null
  }

  predicate IsAvailableMultiSigOutput(o: Output) {
    IsMultiSigOutput(o) && IsAvailable(o)
  }

  function FirstOfToken(inputs: seq<Input>, t: Token): Option<Input> {
    if inputs == [] then None
    else if inputs[0].token == t then Some(inputs[0])
    else FirstOfToken(inputs[1..], t)
  }

  predicate SameTarget(a: Output, b: Output) {
    a.token == b.token && a.address == b.address
  }

  function Value(): Output -> int {
    (o: Output) => o.value
  }

  /** What the accumulating loop comes to: nothing for no output, otherwise the total of
      outputs that must all agree with the first one. */
  function Collected(inputs: seq<Input>, data: seq<Output>): Reading {
    if data == [] then Success(None) else
    match FirstOfToken(inputs, data[0].token)
    case None => Failure(NoInputOfToken)
    case Some(input) =>
      if forall k | 0 <= k < |data| :: SameTarget(data[k], data[0]) then
        Success(Some(Deposit(data[0].token, input.address, data[0].address, Sum(data, Value()))))
      else
        Failure(MoreThanOneTokenOrAddress)
  }

  /** The loop both functions share: it looks for an input, refuses a second token or address,
      opens the record at the first output and adds up values. */
  method CollectTokens(inputs: seq<Input>, data: seq<Output>) returns (r: Reading)
    ensures r == Collected(inputs, data)
  {
    var token: Option<Deposit> := None;
    for k := 0 to |data|
      invariant k == 0 <==> token == None
      invariant k > 0 ==> Collected(inputs, data[..k]) == Success(token)
    {
      ghost var before := data[..k];
      assert data[..k + 1] == before + [data[k]];
      SumSnoc(before, data[k], Value());
      var input := FirstOfToken(inputs, data[k].token);
      if token.Some? && (token.value.tokenAddress != data[k].token || token.value.receiverAddress != data[k].address) {
        assert !SameTarget(data[k], data[0]);
        return Failure(MoreThanOneTokenOrAddress);
      }
      if token == None {
        if input == None {
          return Failure(NoInputOfToken);
        }
        token := Some(Deposit(data[k].token, input.value.address, data[k].address, 0));
      }
      token := Some(token.value.(amount := token.value.amount + data[k].value));
    }
    assert data[..|data|] == data;
    r := Success(token);
  }

  /** HathorTx.getCustomTokenData */
  function ReadOnArrival(inputs: seq<Input>, outputs: seq<Output>): Reading {
    Collected(inputs, Filter(outputs, IsMultiSigOutput))
  }

  /** Broker.getCustomTokenData */
  function ReadOnValidation(inputs: seq<Input>, outputs: seq<Output>): Reading {
    Collected(inputs, Filter(outputs, IsAvailableMultiSigOutput))
  }

  lemma {:induction false} FilterMembers(outputs: seq<Output>, p: Output -> bool)
    ensures forall o :: o in Filter(outputs, p) <==> o in outputs && p(o)
  {
    if outputs != [] {
      FilterMembers(outputs[..|outputs| - 1], p);
      assert outputs == outputs[..|outputs| - 1] + [outputs[|outputs| - 1]];
    }
  }

  function ValueIf(p: Output -> bool): Output -> int {
    (o: Output) => if p(o) then o.value else 0
  }

  lemma {:induction false} FilterSum(outputs: seq<Output>, p: Output -> bool)
    ensures Sum(Filter(outputs, p), Value()) == Sum(outputs, ValueIf(p))
  {
    if outputs != [] {
      var n := |outputs| - 1;
      FilterSum(outputs[..n], p);
      if p(outputs[n]) {
        SumSnoc(Filter(outputs[..n], p), outputs[n], Value());
      } else {
        assert Filter(outputs[..n], p) + [] == Filter(outputs[..n], p);
      }
    }
  }

  // ---------- what a reading says about the transaction ----------

  /** d is what `outputs` hold of the outputs that count: there are some, they agree on token and
      address, the amount is their total, and the sender is that of the first input of the token. */
  ghost predicate IsDeposit(inputs: seq<Input>, outputs: seq<Output>, counts: Output -> bool, d: Deposit) {
    && (exists o :: o in outputs && counts(o))
    && (forall o | o in outputs && counts(o) :: o.token == d.tokenAddress && o.address == d.receiverAddress)
    && d.amount == Sum(outputs, ValueIf(counts))
    && (exists k :: 0 <= k < |inputs| && inputs[k].token == d.tokenAddress && inputs[k].address == d.senderAddress
                    && forall j | 0 <= j < k :: inputs[j].token != d.tokenAddress)
  }

  lemma {:induction false} FirstOfTokenIs(inputs: seq<Input>, t: Token)
    ensures match FirstOfToken(inputs, t)
            case None => forall k | 0 <= k < |inputs| :: inputs[k].token != t
            case Some(input) =>
              exists k :: 0 <= k < |inputs| && inputs[k] == input && input.token == t && forall j | 0 <= j < k :: inputs[j].token != t
  {
    if inputs != [] && inputs[0].token != t {
      FirstOfTokenIs(inputs[1..], t);
      if FirstOfToken(inputs, t).Some? {
        var k :| 0 <= k < |inputs[1..]| && inputs[1..][k] == FirstOfToken(inputs, t).value
                 && forall j | 0 <= j < k :: inputs[1..][j].token != t;
        assert inputs[k + 1] == FirstOfToken(inputs, t).value;
        forall j | 0 <= j < k + 1
          ensures inputs[j].token != t
        {
          assert j > 0 ==> inputs[1..][j - 1] == inputs[j];
        }
      } else {
        forall k | 0 <= k < |inputs|
          ensures inputs[k].token != t
        {
          assert k > 0 ==> inputs[1..][k - 1] == inputs[k];
        }
      }
    }
  }

  /** What the loop over the outputs that count comes to, in terms of the transaction: a deposit
      exactly if it is one, nothing exactly if no output counts, an exception otherwise. */
  lemma ReadingIs(inputs: seq<Input>, outputs: seq<Output>, counts: Output -> bool, d: Deposit)
    ensures var r := Collected(inputs, Filter(outputs, counts));
            && (r == Success(Some(d)) <==> IsDeposit(inputs, outputs, counts, d))
            && (r == Success(None) <==> forall o | o in outputs :: !counts(o))
  {
    var data := Filter(outputs, counts);
    FilterMembers(outputs, counts);
    FilterSum(outputs, counts);
    if data != [] {
      assert data[0] in data;
      FirstOfTokenIs(inputs, data[0].token);
    }
  }

  /** Which exception the loop meets: the output that counts first must have an input of its token;
      after that only a second token or address stops it. */
  lemma {:induction false} ReadingFails(inputs: seq<Input>, outputs: seq<Output>, counts: Output -> bool, k: nat)
    requires k < |outputs| && counts(outputs[k]) && forall j | 0 <= j < k :: !counts(outputs[j])
    ensures Collected(inputs, Filter(outputs, counts)) == Failure(NoInputOfToken) <==>
            forall i | 0 <= i < |inputs| :: inputs[i].token != outputs[k].token
  {
    FirstThatCounts(outputs, counts, k);
    FirstOfTokenIs(inputs, outputs[k].token);
  }

  lemma {:induction false} FirstThatCounts(outputs: seq<Output>, counts: Output -> bool, k: nat)
    requires k < |outputs| && counts(outputs[k]) && forall j | 0 <= j < k :: !counts(outputs[j])
    ensures Filter(outputs, counts) != [] && Filter(outputs, counts)[0] == outputs[k]
    decreases |outputs|
  {
    var n := |outputs| - 1;
    if k < n {
      FirstThatCounts(outputs[..n], counts, k);
    } else {
      NothingCounts(outputs[..n], counts);
    }
  }

  lemma {:induction false} NothingCounts(outputs: seq<Output>, counts: Output -> bool)
    requires forall j | 0 <= j < |outputs| :: !counts(outputs[j])
    ensures Filter(outputs, counts) == []
  {
    if outputs != [] {
      NothingCounts(outputs[..|outputs| - 1], counts);
    }
  }

  /** The outputs that count: MultiSig outputs of some token, at validation only if unspent and
      without timelock. */
  function Counting(availableOnly: bool): Output -> bool {
    (o: Output) => o.token != "" && o.kind == "MultiSig" && (availableOnly ==> o.spentBy == None && o.timelock == Null)
  }

  lemma {:induction false} FilterSame(outputs: seq<Output>, p: Output -> bool, q: Output -> bool)
    requires forall o :: p(o) <==> q(o)
    ensures Filter(outputs, p) == Filter(outputs, q)
  {
    if outputs != [] {
      FilterSame(outputs[..|outputs| - 1], p, q);
    }
  }

  /** The reading on arrival, from the transaction alone. */
  lemma ArrivalReadingIs(inputs: seq<Input>, outputs: seq<Output>, d: Deposit)
    ensures ReadOnArrival(inputs, outputs) == Success(Some(d)) <==> IsDeposit(inputs, outputs, Counting(false), d)
    ensures ReadOnArrival(inputs, outputs) == Success(None) <==> forall o | o in outputs :: !Counting(false)(o)
  {
    ReadingIs(inputs, outputs, Counting(false), d);
    FilterSame(outputs, IsMultiSigOutput, Counting(false));
  }

  /** The reading at validation, from the transaction alone. */
  lemma ValidationReadingIs(inputs: seq<Input>, outputs: seq<Output>, d: Deposit)
    ensures ReadOnValidation(inputs, outputs) == Success(Some(d)) <==> IsDeposit(inputs, outputs, Counting(true), d)
    ensures ReadOnValidation(inputs, outputs) == Success(None) <==> forall o | o in outputs :: !Counting(true)(o)
  {
    ReadingIs(inputs, outputs, Counting(true), d);
    FilterSame(outputs, IsAvailableMultiSigOutput, Counting(true));
  }

  predicate IsHeldBackMultiSigOutput(o: Output) {
    IsMultiSigOutput(o) && !IsAvailable(o)
  }

  /** Nothing is held back exactly when the two totals agree. */
  lemma HeldBackTotal(outputs: seq<Output>)
    requires forall o | o in outputs && IsMultiSigOutput(o) :: o.value > 0
    ensures var all, available := Sum(outputs, ValueIf(IsMultiSigOutput)), Sum(outputs, ValueIf(IsAvailableMultiSigOutput));
            && available <= all
            && (available == all <==> forall o | o in outputs && IsMultiSigOutput(o) :: IsAvailable(o))
  {
    var all, available, held := ValueIf(IsMultiSigOutput), ValueIf(IsAvailableMultiSigOutput), ValueIf(IsHeldBackMultiSigOutput);
    forall o ensures all(o) == available(o) + held(o) {
      assert all(o) == if IsMultiSigOutput(o) then o.value else 0;
      assert available(o) == if IsAvailableMultiSigOutput(o) then o.value else 0;
      assert held(o) == if IsHeldBackMultiSigOutput(o) then o.value else 0;
    }
    SumSplit(outputs, all, available, held);
    forall o | o in outputs ensures held(o) >= 0 {
      assert held(o) == if IsHeldBackMultiSigOutput(o) then o.value else 0;
    }
    SumNonNegative(outputs, held);
    SumZero(outputs, held);
    if Sum(outputs, held) == 0 {
      forall o | o in outputs && IsMultiSigOutput(o)
        ensures IsAvailable(o)
      {
        assert held(o) == if IsHeldBackMultiSigOutput(o) then o.value else 0;
      }
    }
  }

  predicate OneTarget(data: seq<Output>) {
    forall k | 0 <= k < |data| :: SameTarget(data[k], data[0])
  }

  lemma AvailableShareTarget(inputs: seq<Input>, outputs: seq<Output>)
    requires ReadOnArrival(inputs, outputs).Success?
    ensures var all, some := Filter(outputs, IsMultiSigOutput), Filter(outputs, IsAvailableMultiSigOutput);
            OneTarget(some) && (some != [] ==> all != [] && SameTarget(some[0], all[0]))
  {
    var all, some := Filter(outputs, IsMultiSigOutput), Filter(outputs, IsAvailableMultiSigOutput);
    FilterMembers(outputs, IsMultiSigOutput);
    FilterMembers(outputs, IsAvailableMultiSigOutput);
    forall k | 0 <= k < |some|
      ensures all != [] && SameTarget(some[k], all[0])
    {
      assert some[k] in all;
    }
  }

  /** Whatever arrives as a deposit is read at validation with the same token, sender and
      receiver and no larger amount, or not found any more; the amounts agree exactly when no
      MultiSig output has been spent or is timelocked. That is when a melt proposed for the
      first amount passes validation against the second. */
  lemma ReadingsAgree(inputs: seq<Input>, outputs: seq<Output>)
    requires forall o | o in outputs && IsMultiSigOutput(o) :: o.value > 0
    requires ReadOnArrival(inputs, outputs).Success?
    ensures ReadOnValidation(inputs, outputs).Success?
    ensures ReadOnArrival(inputs, outputs) == Success(None) ==> ReadOnValidation(inputs, outputs) == Success(None)
    ensures var first, second := ReadOnArrival(inputs, outputs).value, ReadOnValidation(inputs, outputs).value;
            second.Some? ==> first.Some? && second == Some(first.value.(amount := second.value.amount))
                             && 0 < second.value.amount <= first.value.amount
    ensures ReadOnValidation(inputs, outputs) == ReadOnArrival(inputs, outputs) <==>
            forall o | o in outputs && IsMultiSigOutput(o) :: IsAvailable(o)
  {
    var all, some := Filter(outputs, IsMultiSigOutput), Filter(outputs, IsAvailableMultiSigOutput);
    AvailableShareTarget(inputs, outputs);
    FilterMembers(outputs, IsMultiSigOutput);
    FilterMembers(outputs, IsAvailableMultiSigOutput);
    FilterSum(outputs, IsMultiSigOutput);
    FilterSum(outputs, IsAvailableMultiSigOutput);
    HeldBackTotal(outputs);
    if some == [] {
      if all != [] {
        assert all[0] in all;
      }
    } else {
      assert some[0] in some;
      PositiveTotal(some);
    }
  }

  lemma PositiveTotal(data: seq<Output>)
    requires data != [] && forall o | o in data :: o.value > 0
    ensures Sum(data, Value()) > 0
  {
    SumNonNegative(data, Value());
    SumZero(data, Value());
    assert data[0] in data;
  }
}
