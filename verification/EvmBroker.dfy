/** federator/src/lib/Broker/EvmBroker.ts: which proposals for an EVM deposit are accepted. */
module EvmBroker {
  import opened Amounts
  import opened Sums
  import opened Utxo
  import opened Wrappers

  datatype CrossEvent = CrossEvent(
    block: int, txHash: string, tokenAddress: string, amount: nat, sender: string, to: string)

  /** What the EVM chain answers: its Cross events to Hathor in log order, the block of a
      transaction, the bridge's token maps and the decimals of a token. */
  datatype Evm = Evm(
    events: seq<CrossEvent>,
    blockOf: string -> Option<int>,
    hathorToken: string -> Token,
    originChainId: Token -> int,
    decimals: (string, int) -> nat,
    mainChainId: int)

  datatype TransactionType = Melt | Mint | Transfer

  datatype Refusal =
    | BadAmount(error: AmountError) | ForeignToken
    | NoMintAuthority | NotAMint | NotATransfer | AmountDiffers

  predicate IsEvmNative(evm: Evm, tokenAddress: string) {
    evm.originChainId(evm.hathorToken(tokenAddress)) == evm.mainChainId
  }

  function TokenDecimals(evm: Evm, tokenAddress: string): nat {
    evm.decimals(tokenAddress, evm.originChainId(evm.hathorToken(tokenAddress)))
  }

  /** The type EvmBroker.sendTokens gives a deposit of this token. */
  function TypeOf(evm: Evm, tokenAddress: string): TransactionType {
    if IsEvmNative(evm, tokenAddress) then Mint else Transfer
  }

  /** The FIRST event of the transaction: validation never sees the others. */
  function FirstEvent(events: seq<CrossEvent>, block: int, txHash: string): Option<CrossEvent> {
    if events == [] then None
    else if events[0].block == block && events[0].txHash == txHash then Some(events[0])
    else FirstEvent(events[1..], block, txHash)
  }

  function EventOf(evm: Evm, txHash: string): Option<CrossEvent> {
    match evm.blockOf(txHash)
    case None => None
    case Some(block) => FirstEvent(evm.events, block, txHash)
  }

  function ValidateTx(evm: Evm, proposal: Tx, txHash: string): Result<bool, Refusal> {
    match EventOf(evm, txHash)
    case None => Success(false)
    case Some(event) =>
      var destination := evm.hathorToken(event.tokenAddress);
      match ConvertToHathorDecimals(Decimal(event.amount), TokenDecimals(evm, event.tokenAddress))
      case Failure(error) => Failure(BadAmount(error))
      case Success(convertedQuantity) =>
        var info := InfoOf(proposal);
        if !OnlyTokenSent(proposal.outputs, destination) then Failure(ForeignToken)
        else if IsEvmNative(evm, event.tokenAddress) then
          if destination !in info.canMint then Failure(NoMintAuthority)
          else if destination in info.balances && info.balances[destination] <= 0 then Failure(NotAMint)
          else if destination !in info.balances || info.balances[destination] != convertedQuantity then Failure(AmountDiffers)
          else Success(true)
        else
          if destination !in info.balances || info.balances[destination] != 0 then Failure(NotATransfer)
          else
            var sumOutputs := SumsByKey(proposal.outputs);
            var key := Key(event.to, destination);
            if key !in sumOutputs || sumOutputs[key] != convertedQuantity then Failure(AmountDiffers)
            else Success(true)
  }

  function Quantity(evm: Evm, event: CrossEvent): nat {
    Convertible(event.amount, TokenDecimals(evm, event.tokenAddress))
  }

  /** A mint is accepted exactly when a mint authority of the token is spent, the supply grows
      by the converted event amount, that amount is positive, and no other token leaves. */
  lemma MintAcceptance(evm: Evm, proposal: Tx, txHash: string, event: CrossEvent)
    requires EventOf(evm, txHash) == Some(event) && IsEvmNative(evm, event.tokenAddress)
    ensures var t := evm.hathorToken(event.tokenAddress);
            ValidateTx(evm, proposal, txHash) == Success(true) <==>
            && SpendsMint(proposal.inputs, t)
            && NetCreation(proposal, t) == Quantity(evm, event) > 0
            && OnlyTokenSent(proposal.outputs, t)
  {
    ConversionDivides(Decimal(event.amount), TokenDecimals(evm, event.tokenAddress));
    InfoOfMeaning(proposal, evm.hathorToken(event.tokenAddress));
  }

  /** A transfer is accepted exactly when the token's supply stays, some of it moves, and what
      is written against the receiver's address adds up to the converted amount. */
  lemma TransferAcceptance(evm: Evm, proposal: Tx, txHash: string, event: CrossEvent)
    requires EventOf(evm, txHash) == Some(event) && !IsEvmNative(evm, event.tokenAddress)
    ensures var t := evm.hathorToken(event.tokenAddress);
            ValidateTx(evm, proposal, txHash) == Success(true) <==>
            && Moves(proposal, t) && NetCreation(proposal, t) == 0
            && Sum(proposal.outputs, AtKey(Key(event.to, t))) == Quantity(evm, event) > 0
            && OnlyTokenSent(proposal.outputs, t)
  {
    ConversionDivides(Decimal(event.amount), TokenDecimals(evm, event.tokenAddress));
    var t := evm.hathorToken(event.tokenAddress);
    InfoOfMeaning(proposal, t);
    if Key(event.to, t) !in Keys(proposal.outputs) {
      UntouchedKey(proposal.outputs, Key(event.to, t));
    }
  }

  // ---------- acceptance from the chain and the proposal alone ----------

  /** The k-th event is the first in the block of its transaction with that hash. */
  ghost predicate IsFirstOf(evm: Evm, txHash: string, k: int) {
    && 0 <= k < |evm.events| && evm.events[k].txHash == txHash && evm.blockOf(txHash) == Some(evm.events[k].block)
    && forall j | 0 <= j < k :: evm.events[j].txHash != txHash || evm.events[j].block != evm.events[k].block
  }

  /** The proposal does for deposit e what a mint or a transfer must do. */
  ghost predicate Serves(evm: Evm, proposal: Tx, e: CrossEvent) {
    var t := evm.hathorToken(e.tokenAddress);
    var origin := evm.originChainId(t);
    var quantity := e.amount / Scale(evm.decimals(e.tokenAddress, origin));
    && quantity > 0
    && (forall o | o in proposal.outputs :: o.token == t || o.spentBy.Some? || o.mine != Some(false))
    && if origin == evm.mainChainId
       then SpendsMint(proposal.inputs, t) && NetCreation(proposal, t) == quantity
       else Moves(proposal, t) && NetCreation(proposal, t) == 0 && Sum(proposal.outputs, AtKey(e.to + ":" + t)) == quantity
  }

  lemma {:induction false} FirstEventFound(events: seq<CrossEvent>, block: int, txHash: string)
    ensures match FirstEvent(events, block, txHash)
            case None => forall k | 0 <= k < |events| :: events[k].txHash != txHash || events[k].block != block
            case Some(e) =>
              exists k :: 0 <= k < |events| && events[k] == e && e.txHash == txHash && e.block == block
                          && forall j | 0 <= j < k :: events[j].txHash != txHash || events[j].block != block
  {
    if events != [] && !(events[0].block == block && events[0].txHash == txHash) {
      var rest := events[1..];
      FirstEventFound(rest, block, txHash);
      if FirstEvent(events, block, txHash).Some? {
        var e := FirstEvent(events, block, txHash).value;
        var k :| 0 <= k < |rest| && rest[k] == e && forall j | 0 <= j < k :: rest[j].txHash != txHash || rest[j].block != block;
        assert events[k + 1] == e;
        forall j | 0 <= j < k + 1
          ensures events[j].txHash != txHash || events[j].block != block
        {
          assert j > 0 ==> rest[j - 1] == events[j];
        }
      } else {
        forall k | 0 <= k < |events|
          ensures events[k].txHash != txHash || events[k].block != block
        {
          assert k > 0 ==> rest[k - 1] == events[k];
        }
      }
    }
  }

  /** The event that validation looks at is the first of its transaction, and there is none
      exactly if the node does not know the transaction or the log has no such event. */
  lemma EventFound(evm: Evm, txHash: string)
    ensures match EventOf(evm, txHash)
            case None => forall k :: !IsFirstOf(evm, txHash, k)
            case Some(e) => exists k :: IsFirstOf(evm, txHash, k) && evm.events[k] == e
    ensures forall j, k :: IsFirstOf(evm, txHash, j) && IsFirstOf(evm, txHash, k) ==> j == k
  {
    if evm.blockOf(txHash).Some? {
      FirstEventFound(evm.events, evm.blockOf(txHash).value, txHash);
      if EventOf(evm, txHash).Some? {
        var k :| 0 <= k < |evm.events| && evm.events[k] == EventOf(evm, txHash).value
                 && forall j | 0 <= j < k :: evm.events[j].txHash != txHash || evm.events[j].block != evm.events[k].block;
        assert IsFirstOf(evm, txHash, k);
      }
    }
  }

  /** Acceptance, with nothing presupposed: exactly if there is an event for the transaction and
      the proposal serves the first one. Without one the result is false, and every other
      refusal is an exception. */
  lemma AcceptanceIff(evm: Evm, proposal: Tx, txHash: string)
    ensures ValidateTx(evm, proposal, txHash) == Success(true) <==>
            exists k :: IsFirstOf(evm, txHash, k) && Serves(evm, proposal, evm.events[k])
    ensures ValidateTx(evm, proposal, txHash) == Success(false) <==> forall k :: !IsFirstOf(evm, txHash, k)
  {
    EventFound(evm, txHash);
    if EventOf(evm, txHash).Some? {
      var k :| IsFirstOf(evm, txHash, k) && evm.events[k] == EventOf(evm, txHash).value;
      AcceptanceOf(evm, proposal, txHash, evm.events[k]);
    }
  }

  lemma AcceptanceOf(evm: Evm, proposal: Tx, txHash: string, event: CrossEvent)
    requires EventOf(evm, txHash) == Some(event)
    ensures ValidateTx(evm, proposal, txHash) == Success(true) <==> Serves(evm, proposal, event)
    ensures ValidateTx(evm, proposal, txHash) != Success(false)
  {
    if IsEvmNative(evm, event.tokenAddress) {
      MintAcceptance(evm, proposal, txHash, event);
    } else {
      TransferAcceptance(evm, proposal, txHash, event);
    }
    assert OnlyTokenSent(proposal.outputs, evm.hathorToken(event.tokenAddress)) <==>
           forall o | o in proposal.outputs ::
             o.token == evm.hathorToken(event.tokenAddress) || o.spentBy.Some? || o.mine != Some(false);
  }

  /** Which exception a refused proposal meets: the first check that fails says so. */
  lemma RefusalOf(evm: Evm, proposal: Tx, txHash: string, event: CrossEvent)
    requires EventOf(evm, txHash) == Some(event)
    ensures var r := ValidateTx(evm, proposal, txHash);
            var t := evm.hathorToken(event.tokenAddress);
            var mints := evm.originChainId(t) == evm.mainChainId;
            var quantity := event.amount / Scale(evm.decimals(event.tokenAddress, evm.originChainId(t)));
            var stray := exists o :: o in proposal.outputs && o.token != t && o.spentBy == None && o.mine == Some(false);
            var net, moves, mayMint := NetCreation(proposal, t), Moves(proposal, t), SpendsMint(proposal.inputs, t);
            && (r.Failure? && r.error.BadAmount? <==> quantity == 0)
            && (r == Failure(ForeignToken) <==> quantity > 0 && stray)
            && (r == Failure(NoMintAuthority) <==> quantity > 0 && !stray && mints && !mayMint)
            && (r == Failure(NotAMint) <==> quantity > 0 && !stray && mints && mayMint && moves && net <= 0)
            && (r == Failure(NotATransfer) <==> quantity > 0 && !stray && !mints && !(moves && net == 0))
  {
    var t := evm.hathorToken(event.tokenAddress);
    ConversionDivides(Decimal(event.amount), TokenDecimals(evm, event.tokenAddress));
    InfoOfMeaning(proposal, t);
    assert OnlyTokenSent(proposal.outputs, t) <==>
           !exists o :: o in proposal.outputs && o.token != t && o.spentBy == None && o.mine == Some(false);
  }

  // ---------- who gets what in an accepted transfer ----------

  function PaidTo(address: string, t: Token): Output -> int {
    (o: Output) => if !IsAuthority(o.tokenData) && o.token == t && o.address == address then o.value else 0
  }

  function PaidToOthers(address: string, t: Token): Output -> int {
    (o: Output) => if !IsAuthority(o.tokenData) && o.token == t && o.address != address then o.value else 0
  }

  /** The values of authority outputs, which are bit masks, not amounts. */
  function AuthorityFor(address: string, t: Token): Output -> int {
    (o: Output) => if IsAuthority(o.tokenData) && o.token == t && o.address == address then o.value else 0
  }

  predicate PlainTokens(outputs: seq<Output>) {
    forall o | o in outputs :: ':' !in o.token
  }

  /** The per-address sum does not skip authorities, the per-token balance does. */
  lemma KeyTotalSplits(outputs: seq<Output>, address: string, t: Token)
    requires PlainTokens(outputs) && ':' !in t
    ensures Sum(outputs, AtKey(Key(address, t))) ==
            Sum(outputs, PaidTo(address, t)) + Sum(outputs, AuthorityFor(address, t))
  {
    forall o | o in outputs
      ensures AtKey(Key(address, t))(o) == PaidTo(address, t)(o) + AuthorityFor(address, t)(o)
    {
      KeyInjective(o.address, o.token, address, t);
    }
    SumSplit(outputs, AtKey(Key(address, t)), PaidTo(address, t), AuthorityFor(address, t));
  }

  predicate AuthorityOutputFor(o: Output, address: string, t: Token) {
    IsAuthority(o.tokenData) && o.token == t && o.address == address
  }

  lemma AuthorityTotal(outputs: seq<Output>, address: string, t: Token)
    requires forall o | o in outputs && IsAuthority(o.tokenData) :: o.value > 0
    ensures Sum(outputs, AuthorityFor(address, t)) >= 0
    ensures Sum(outputs, AuthorityFor(address, t)) == 0 <==> forall o | o in outputs :: !AuthorityOutputFor(o, address, t)
  {
    var f := AuthorityFor(address, t);
    forall o | o in outputs
      ensures f(o) >= 0 && (f(o) == 0 <==> !AuthorityOutputFor(o, address, t))
    {
      assert f(o) == if AuthorityOutputFor(o, address, t) then o.value else 0;
    }
    SumNonNegative(outputs, f);
    SumZero(outputs, f);
  }

  /** Conservation in an accepted transfer: the token amounts of the receiver and of everyone
      else add up to what was spent, and the receiver's differs from the converted event
      amount by the authority values sent to the same address. */
  lemma TransferConserves(evm: Evm, proposal: Tx, txHash: string, event: CrossEvent)
    requires EventOf(evm, txHash) == Some(event) && !IsEvmNative(evm, event.tokenAddress)
    requires ValidateTx(evm, proposal, txHash) == Success(true)
    requires PlainTokens(proposal.outputs) && ':' !in evm.hathorToken(event.tokenAddress)
    ensures var t := evm.hathorToken(event.tokenAddress);
            var received := Sum(proposal.outputs, PaidTo(event.to, t));
            && received == Quantity(evm, event) - Sum(proposal.outputs, AuthorityFor(event.to, t))
            && Sum(proposal.outputs, PaidToOthers(event.to, t)) == Sum(proposal.inputs, Consumes(t)) - received
  {
    var t := evm.hathorToken(event.tokenAddress);
    TransferAcceptance(evm, proposal, txHash, event);
    KeyTotalSplits(proposal.outputs, event.to, t);
    SumSplit(proposal.outputs, Creates(t), PaidTo(event.to, t), PaidToOthers(event.to, t));
  }

  /** So the receiver gets exactly the converted amount if and only if no authority of the
      token goes to the same address; in particular when the proposal has no authority output. */
  lemma TransferPaysExactly(evm: Evm, proposal: Tx, txHash: string, event: CrossEvent)
    requires EventOf(evm, txHash) == Some(event) && !IsEvmNative(evm, event.tokenAddress)
    requires ValidateTx(evm, proposal, txHash) == Success(true)
    requires PlainTokens(proposal.outputs) && ':' !in evm.hathorToken(event.tokenAddress)
    requires forall o | o in proposal.outputs && IsAuthority(o.tokenData) :: o.value > 0
    ensures var t := evm.hathorToken(event.tokenAddress);
            Sum(proposal.outputs, PaidTo(event.to, t)) == Quantity(evm, event) <==>
            forall o | o in proposal.outputs :: !AuthorityOutputFor(o, event.to, t)
  {
    TransferConserves(evm, proposal, txHash, event);
    AuthorityTotal(proposal.outputs, event.to, evm.hathorToken(event.tokenAddress));
  }

  /** 99 tokens and an authority of value 1 for the receiver "W", change for the multisig, out of
      100 tokens and the authority that is passed on. */
  function MixedProposal(): Tx {
    Tx(1, false, [Input("t", 100, 1, "M", Outpoint("00", 0)), Input("t", 1, 129, "M", Outpoint("00", 1))],
       [Output("t", 99, 1, "P2PKH", "W", Null, None, None),
        Output("t", 1, 129, "P2PKH", "W", Null, None, None),
        Output("t", 1, 1, "MultiSig", "M", Null, None, None)])
  }

  lemma MixedProposalSums()
    ensures NetCreation(MixedProposal(), "t") == 0
    ensures Sum(MixedProposal().outputs, PaidTo("W", "t")) == 99
    ensures Sum(MixedProposal().outputs, AuthorityFor("W", "t")) == 1
  {
    var tx := MixedProposal();
    SumOfTwo(tx.inputs[0], tx.inputs[1], Consumes("t"));
    SumOfThree(tx.outputs[0], tx.outputs[1], tx.outputs[2], Creates("t"));
    SumOfThree(tx.outputs[0], tx.outputs[1], tx.outputs[2], PaidTo("W", "t"));
    SumOfThree(tx.outputs[0], tx.outputs[1], tx.outputs[2], AuthorityFor("W", "t"));
  }

  /** A concrete proposal that is accepted for the amount 100 and pays 99. */
  lemma AuthorityCountsAsAmount(evm: Evm)
    requires evm.events == [CrossEvent(7, "0x01", "0xa", 100, "0xs", "W")] && evm.blockOf("0x01") == Some(7)
    requires evm.hathorToken("0xa") == "t" && evm.originChainId("t") != evm.mainChainId
    requires evm.decimals("0xa", evm.originChainId("t")) == 2
    ensures ValidateTx(evm, MixedProposal(), "0x01") == Success(true)
    ensures Sum(MixedProposal().outputs, PaidTo("W", "t")) == 99
  {
    var proposal, event := MixedProposal(), evm.events[0];
    MixedProposalSums();
    KeyTotalSplits(proposal.outputs, "W", "t");
    assert Moves(proposal, "t") by {
      assert !IsAuthority(proposal.outputs[0].tokenData);
    }
    assert Quantity(evm, event) == 100 by {
      assert Scale(2) == 1;
    }
    TransferAcceptance(evm, proposal, "0x01", event);
  }
}
