/** `sendTokens` and its helpers in the form the class Broker gives them: methods that read and
    update shared state, here one object for the ledger contract and the Hathor chain. */
module Broker {
  import opened Protocol
  import opened Utxo
  import opened Wrappers

  /** What signing and pushing comes to: done and answered, refused because an input is spent,
      or any other trouble, in which the push may yet have been done. */
  datatype PushResult = Taken | InputsSpent | Trouble

  class Chains {
    var state: Ledger

    constructor ()
      ensures state == EMPTY
    {
      state := EMPTY;
    }

    // ---------- the HathorFederation contract ----------

    predicate IsProcessed(id: TransactionId)
      reads this
    {
      id in state.processed
    }

    predicate HasSigned(id: TransactionId, member: Federator)
      reads this
    {
      IsSigned(state, id, member)
    }

    predicate IsProposed(id: TransactionId)
      reads this
    {
      id in state.hex
    }

    function TransactionHex(id: TransactionId): Hex
      reads this
      requires IsProposed(id)
    {
      state.hex[id]
    }

    function SignatureCount(id: TransactionId): nat
      reads this
    {
      |SignaturesOf(state, id)|
    }

    function TransactionSignature(id: TransactionId, i: nat): Signature
      reads this
      requires i < SignatureCount(id)
    {
      SignaturesOf(state, id)[i]
    }

    /** The first proposal for an id stays. Like the other ledger transactions it changes
        nothing unless it is mined with success. */
    method SendTransactionProposal(id: TransactionId, hex: Hex, receipt: bool)
      modifies this
      ensures state == if !receipt || id in old(state).hex then old(state) else old(state).(hex := old(state).hex[id := hex])
    {
      if receipt && !IsProposed(id) {
        state := state.(hex := state.hex[id := hex]);
      }
    }

    method UpdateSignatureState(id: TransactionId, signature: Signature, receipt: bool)
      modifies this
      ensures state ==
              if receipt
              then old(state).(signatures := old(state).signatures[id := SignaturesOf(old(state), id) + [signature]])
              else old(state)
    {
      if receipt {
        state := state.(signatures := state.signatures[id := SignaturesOf(state, id) + [signature]]);
      }
    }

    method UpdateTransactionState(id: TransactionId, sent: bool, receipt: bool)
      modifies this
      ensures state == if sent && receipt then old(state).(processed := old(state).processed + {id}) else old(state)
    {
      if sent && receipt {
        state := state.(processed := state.processed + {id});
      }
    }

    // ---------- Hathor ----------

    method SignAndPush(member: Federator, id: TransactionId, hex: Hex, tx: Tx, signatures: seq<Signature>, answers: Answers)
      returns (r: PushResult)
      modifies this
      ensures r == if answers.fails then Trouble
                   else if !(SpentBy(tx) !! old(state).spent) then InputsSpent
                   else if answers.pushAccepted && answers.receipt then Taken else Trouble
      ensures state == if !answers.fails && answers.pushAccepted && SpentBy(tx) !! old(state).spent
                       then old(state).(spent := old(state).spent + SpentBy(tx),
                                        pushes := old(state).pushes + [Push(member, id, hex, signatures)])
                       else old(state)
    {
      if answers.fails {
        return Trouble;
      }
      if !(SpentBy(tx) !! state.spent) {
        return InputsSpent;
      }
      if answers.pushAccepted {
        state := state.(spent := state.spent + SpentBy(tx),
                        pushes := state.pushes + [Push(member, id, hex, signatures)]);
      }
      r := if answers.pushAccepted && answers.receipt then Taken else Trouble;
    }

    /** History only: a validation that returned true. */
    method Record(member: Federator, id: TransactionId, hex: Hex, stage: Stage)
      modifies this
      ensures state == Approve(old(state), member, id, hex, stage)
    {
      state := Approve(state, member, id, hex, stage);
    }
  }

  class Broker {
    const world: World
    const me: Federator
    const chains: Chains

    constructor (world: World, me: Federator, chains: Chains)
      ensures this.world == world && this.me == me && this.chains == chains
    {
      this.world := world;
      this.me := me;
      this.chains := chains;
    }

    method ValidateTx(hex: Hex, id: TransactionId, answers: Answers, stage: Stage) returns (verdict: Verdict)
      modifies chains
      ensures verdict == world.validateTx(id, hex, answers.original, id in old(chains.state).processed)
      ensures chains.state == if verdict == Valid then Approve(old(chains.state), me, id, hex, stage) else old(chains.state)
    {
      verdict := world.validateTx(id, hex, answers.original, chains.IsProcessed(id));
      if verdict == Valid {
        chains.Record(me, id, hex, stage);
      }
    }

    /** One signature at a time, up to the count read before. */
    method GetSignaturesFromArray(id: TransactionId) returns (signatures: seq<Signature>)
      ensures signatures == SignaturesOf(chains.state, id)
    {
      var arrayLength := chains.SignatureCount(id);
      signatures := [];
      for i := 0 to arrayLength
        invariant signatures == SignaturesOf(chains.state, id)[..i]
      {
        signatures := signatures + [chains.TransactionSignature(id, i)];
      }
    }

    /** In all that follows the outside may make any remote call fail, as `script` says. The
        result is `undefined` or an exception; sendTokens makes `true` of the former. */
    method PushProposal(hex: Hex, id: TransactionId, script: Script) returns (threw: bool)
      requires id in chains.state.hex && chains.state.hex[id] == hex
      modifies chains
      ensures (chains.state, if threw then Threw else Returned(Some(true)))
              == Finish(world, old(chains.state), ToPush(hex), me, id, script)
    {
      hide Finish;
      StepNow(ToPush(hex), id, script);
      if script(ToPush(hex)).fails {
        return true;
      }
      var arrayLength := chains.SignatureCount(id);
      if world.maxSignatures == None {
        return true;
      }
      if arrayLength < world.maxSignatures.value {
        return false;
      }
      var answers := script(Counted(hex));
      StepNow(Counted(hex), id, script);
      if answers.fails {
        return true;
      }
      var verdict := ValidateTx(hex, id, answers, Send);
      if verdict != Valid {
        return true;
      }
      StepNow(PushValid(hex), id, script);
      if script(PushValid(hex)).fails {
        return true;
      }
      var signatures := GetSignaturesFromArray(id);
      threw := PushAndRecord(hex, id, Take(signatures, world.maxSignatures.value), script);
    }

    /** Only for inputs already spent is there an id to record for a push that did not succeed;
        otherwise `0xundefined` is no argument the ledger call can encode. */
    method PushAndRecord(hex: Hex, id: TransactionId, signatures: seq<Signature>, script: Script) returns (threw: bool)
      modifies chains
      ensures (chains.state, if threw then Threw else Returned(Some(true)))
              == Finish(world, old(chains.state), Ready(hex, signatures), me, id, script)
    {
      hide Finish;
      var ready := Ready(hex, signatures);
      StepNow(ready, id, script);
      var result := chains.SignAndPush(me, id, hex, world.decode(hex), signatures, script(ready));
      if result == Trouble {
        return true;
      }
      var txSent := result == Taken;
      StepNow(Pushed(txSent), id, script);
      if script(Pushed(txSent)).fails {
        return true;
      }
      chains.UpdateTransactionState(id, txSent, script(Pushed(txSent)).receipt);
      threw := false;
    }

    /** A validation that returns false is made an exception; a signature that was not mined with
        success is not. */
    method SignProposal(hex: Hex, id: TransactionId, script: Script) returns (threw: bool)
      modifies chains
      ensures (chains.state, if threw then Threw else Returned(Some(true)))
              == Finish(world, old(chains.state), SignRead(hex), me, id, script)
    {
      hide Finish;
      StepNow(SignRead(hex), id, script);
      if script(SignRead(hex)).fails {
        return true;
      }
      var verdict := ValidateTx(hex, id, script(SignRead(hex)), Sign);
      if verdict != Valid {
        return true;
      }
      StepNow(SignValid(hex), id, script);
      if script(SignValid(hex)).fails {
        return true;
      }
      chains.UpdateSignatureState(id, Signature(me, hex), script(SignValid(hex)).receipt);
      threw := false;
    }

    method SendProposal(hex: Hex, id: TransactionId, script: Script) returns (outcome: Outcome)
      modifies chains
      ensures (chains.state, outcome) == Finish(world, old(chains.state), Drafted(hex), me, id, script)
    {
      hide Finish;
      StepNow(Drafted(hex), id, script);
      if script(Drafted(hex)).fails {
        return Threw;
      }
      var verdict := ValidateTx(hex, id, script(Drafted(hex)), Propose);
      if verdict == Raises {
        return Threw;
      }
      if verdict == Invalid {
        return Returned(Some(false));
      }
      StepNow(ProposeValid(hex), id, script);
      if script(ProposeValid(hex)).fails {
        return Threw;
      }
      chains.SendTransactionProposal(id, hex, script(ProposeValid(hex)).receipt);
      outcome := Returned(None);
    }

    /** The whole call ends with the ledger and the result that the transition system says, step
        by step, whichever of its remote calls fail. */
    method SendTokens(id: TransactionId, script: Script) returns (outcome: Outcome)
      requires IsKnown(world, id)
      requires IsSigned(chains.state, id, me) ==> id in chains.state.hex
      modifies chains
      ensures (chains.state, outcome) == Call(world, old(chains.state), me, id, script)
    {
      hide Finish;
      StepNow(Idle, id, script);
      if script(Idle).fails {
        return Threw;
      }
      if chains.IsProcessed(id) {
        return Returned(Some(true));
      }
      StepNow(NotProcessed, id, script);
      if script(NotProcessed).fails {
        return Threw;
      }
      if chains.HasSigned(id, me) {
        StepNow(Signed, id, script);
        if script(Signed).fails {
          return Threw;
        }
        var threw := PushProposal(chains.TransactionHex(id), id, script);
        return if threw then Threw else Returned(Some(true));
      }
      StepNow(NotSigned, id, script);
      if script(NotSigned).fails {
        return Threw;
      }
      if chains.IsProposed(id) {
        StepNow(ToSign, id, script);
        if script(ToSign).fails {
          return Threw;
        }
        var threw := SignProposal(chains.TransactionHex(id), id, script);
        return if threw then Threw else Returned(Some(true));
      }
      if world.multisigOrder(me) > 1 {
        return Returned(Some(true));
      }
      StepNow(ToPropose, id, script);
      if script(ToPropose).fails {
        return Threw;
      }
      outcome := SendProposal(script(ToPropose).draft, id, script);
    }

    /** The next step of the transition system. */
    lemma StepNow(pc: Pc, id: TransactionId, script: Script)
      ensures var (l', pc') := Advance(world, chains.state, pc, me, id, script(pc));
              Finish(world, chains.state, pc, me, id, script) ==
              if pc' == Idle then (l', Ending(world, chains.state, pc, id, script(pc)))
              else Finish(world, l', pc', me, id, script)
    {
    }
  }
}
