/** The proposal protocol of federator/src/lib/Broker/Broker.ts as a transition system: any
    number of federators handle any number of transfers, one remote call at a time, over a
    shared ledger (the HathorFederation contract) and the Hathor chain.

    Assumed of the ledger: the hex first proposed for an id stays; a signature is appended for
    its sender; an id becomes processed by an update with sent = true. Assumed of Hathor: a
    push that spends a spent input fails. A federator handles one id serially. */
module Protocol {
  import opened Utxo
  import opened Wrappers
  import EvmBroker

  type Federator = string
  type Hex = string

  /** The ledger's id is a hash of these six arguments, taken to be injective. */
  datatype TransactionId = TransactionId(
    tokenAddress: string, txHash: string, amount: nat, sender: string, receiver: string,
    kind: EvmBroker.TransactionType)

  datatype Signature = Signature(member: Federator, of: Hex)

  /** A proposal that Hathor took, and the signatures that were sent along. */
  datatype Push = Push(member: Federator, id: TransactionId, hex: Hex, signatures: seq<Signature>)

  datatype Stage = Propose | Sign | Send

  /** `validateTx` returns true, returns false, or throws. */
  datatype Verdict = Valid | Invalid | Raises

  /** Record of a validateTx that returned true. */
  datatype Approval = Approval(member: Federator, id: TransactionId, hex: Hex, stage: Stage)

  datatype Ledger = Ledger(
    hex: map<TransactionId, Hex>,
    signatures: map<TransactionId, seq<Signature>>,
    processed: set<TransactionId>,
    spent: set<Outpoint>,
    pushes: seq<Push>,
    approvals: set<Approval>)

  const EMPTY := Ledger(map[], map[], {}, {}, [], {})

  /** `validateTx` is the abstract method of the class: what it does with an id and a hex, given
      the wallet's report of the deposit's transaction and whether the id is processed. */
  datatype World = World(
    evm: EvmBroker.Evm,
    decode: Hex -> Tx,
    validateTx: (TransactionId, Hex, Option<Tx>, bool) -> Verdict,
    multisigOrder: Federator -> int,
    maxSignatures: Option<nat>)

  /** What the outside says to one remote call: the wallet's draft; the wallet's report of a
      Hathor deposit; whether Hathor takes a push of unspent inputs; whether a ledger
      transaction is mined with success, or a push is answered; and whether the call fails
      before it has any effect. */
  datatype Answers = Answers(draft: Hex, original: Option<Tx>, pushAccepted: bool, receipt: bool, fails: bool)

  /** Where a federator is inside `sendTokens` for one id, with what it has read so far. */
  datatype Pc =
    | Idle
    | NotProcessed
    | Signed | ToPush(hex: Hex) | Counted(hex: Hex) | PushValid(hex: Hex)
    | Ready(hex: Hex, signatures: seq<Signature>) | Pushed(sent: bool)
    | NotSigned
    | ToSign | SignRead(hex: Hex) | SignValid(hex: Hex)
    | ToPropose | Drafted(hex: Hex) | ProposeValid(hex: Hex)

  function SignaturesOf(l: Ledger, id: TransactionId): seq<Signature> {
    if id in l.signatures then l.signatures[id] else []
  }

  predicate IsSigned(l: Ledger, id: TransactionId, f: Federator) {
    exists i :: 0 <= i < |SignaturesOf(l, id)| && SignaturesOf(l, id)[i].member == f
  }

  function EventId(evm: EvmBroker.Evm, e: EvmBroker.CrossEvent): TransactionId {
    TransactionId(e.tokenAddress, e.txHash, e.amount, e.sender, e.to, EvmBroker.TypeOf(evm, e.tokenAddress))
  }

  /** Only events that agree in everything but their block share an id. */
  lemma EventIdTells(evm: EvmBroker.Evm, e: EvmBroker.CrossEvent, x: EvmBroker.CrossEvent)
    ensures EventId(evm, e) == EventId(evm, x) <==>
            && e.tokenAddress == x.tokenAddress && e.txHash == x.txHash && e.amount == x.amount
            && e.sender == x.sender && e.to == x.to
    ensures EventId(evm, e).kind ==
            if evm.originChainId(evm.hathorToken(e.tokenAddress)) == evm.mainChainId then EvmBroker.Mint else EvmBroker.Transfer
  {
  }

  /** Transfers to Hathor come from Cross events; melts come from Hathor. */
  predicate IsKnown(w: World, id: TransactionId) {
    id.kind == EvmBroker.Melt || exists e :: e in w.evm.events && EventId(w.evm, e) == id
  }

  predicate Validates(w: World, id: TransactionId, hex: Hex, original: Option<Tx>, isProcessed: bool) {
    w.validateTx(id, hex, original, isProcessed) == Valid
  }

  /** hex passed validation for id, for some answers of the outside. */
  ghost predicate Acceptable(w: World, id: TransactionId, hex: Hex) {
    exists original, isProcessed :: Validates(w, id, hex, original, isProcessed)
  }

  function Approve(l: Ledger, f: Federator, id: TransactionId, hex: Hex, stage: Stage): Ledger {
    l.(approvals := l.approvals + {Approval(f, id, hex, stage)})
  }

  /** One remote call of federator f inside `sendTokens` for id. */
  function Advance(w: World, l: Ledger, pc: Pc, f: Federator, id: TransactionId, a: Answers): (Ledger, Pc) {
    if a.fails then (l, Idle) else
    match pc
    case Idle => (l, if !IsKnown(w, id) || id in l.processed then Idle else NotProcessed)
    case NotProcessed => (l, if IsSigned(l, id, f) then Signed else NotSigned)
    // pushProposal
    case Signed => (l, if id in l.hex then ToPush(l.hex[id]) else Idle)
    case ToPush(hex) =>
      (l, if w.maxSignatures.Some? && |SignaturesOf(l, id)| >= w.maxSignatures.value then Counted(hex) else Idle)
    case Counted(hex) =>
      if Validates(w, id, hex, a.original, id in l.processed) then (Approve(l, f, id, hex, Send), PushValid(hex))
      else (l, Idle)
    case PushValid(hex) => (l, if w.maxSignatures.Some? then Ready(hex, Take(SignaturesOf(l, id), w.maxSignatures.value)) else Idle)
    case Ready(hex, signatures) =>
      // a push refused for spent inputs is recorded as failed; after any other trouble there is
      // no transaction id to record, and encoding it throws
      var inputs := SpentBy(w.decode(hex));
      if !(inputs !! l.spent) then (l, Pushed(false))
      else if !a.pushAccepted then (l, Idle)
      else (l.(spent := l.spent + inputs, pushes := l.pushes + [Push(f, id, hex, signatures)]),
            if a.receipt then Pushed(true) else Idle)
    case Pushed(sent) => (if sent && a.receipt then l.(processed := l.processed + {id}) else l, Idle)
    // signProposal
    case NotSigned =>
      (l, if id in l.hex then ToSign else if w.multisigOrder(f) > 1 then Idle else ToPropose)
    case ToSign => (l, if id in l.hex then SignRead(l.hex[id]) else Idle)
    case SignRead(hex) =>
      if Validates(w, id, hex, a.original, id in l.processed) then (Approve(l, f, id, hex, Sign), SignValid(hex))
      else (l, Idle)
    case SignValid(hex) =>
      (if a.receipt then l.(signatures := l.signatures[id := SignaturesOf(l, id) + [Signature(f, hex)]]) else l, Idle)
    // sendProposal
    case ToPropose => (l, Drafted(a.draft))
    case Drafted(hex) =>
      if Validates(w, id, hex, a.original, id in l.processed) then (Approve(l, f, id, hex, Propose), ProposeValid(hex))
      else (l, Idle)
    case ProposeValid(hex) => (if !a.receipt || id in l.hex then l else l.(hex := l.hex[id := hex]), Idle)
  }

  /** `signatures.slice(0, n)` */
  function Take<T>(xs: seq<T>, n: nat): seq<T> {
    if n <= |xs| then xs[..n] else xs
  }

  datatype State = State(ledger: Ledger, pcs: map<(Federator, TransactionId), Pc>)

  function PcOf(s: State, f: Federator, id: TransactionId): Pc {
    if (f, id) in s.pcs then s.pcs[(f, id)] else Idle
  }

  datatype Action = Action(member: Federator, id: TransactionId, answers: Answers)

  function Step(w: World, s: State, x: Action): State {
    var (l, pc) := Advance(w, s.ledger, PcOf(s, x.member, x.id), x.member, x.id, x.answers);
    State(l, s.pcs[(x.member, x.id) := pc])
  }

  /** The state after any interleaving of actions. */
  function RunFrom(w: World, s: State, actions: seq<Action>): State {
    if actions == [] then s
    else Step(w, RunFrom(w, s, actions[..|actions| - 1]), actions[|actions| - 1])
  }

  const INITIAL := State(EMPTY, map[])

  function Run(w: World, actions: seq<Action>): State {
    RunFrom(w, INITIAL, actions)
  }

  lemma {:induction false} RunConcat(w: World, s: State, xs: seq<Action>, ys: seq<Action>)
    ensures RunFrom(w, s, xs + ys) == RunFrom(w, RunFrom(w, s, xs), ys)
  {
    if ys == [] {
      assert xs + ys == xs;
    } else {
      RunConcat(w, s, xs, ys[..|ys| - 1]);
      assert (xs + ys)[..|xs + ys| - 1] == xs + ys[..|ys| - 1];
    }
  }

  // ---------- one whole call, without interruption ----------

  /** What a call comes to: a value (None for `undefined`) or an exception. */
  datatype Outcome = Returned(value: Option<bool>) | Threw

  /** What `sendTokens` does if it ends with the remote call made at pc. */
  function Ending(w: World, l: Ledger, pc: Pc, id: TransactionId, a: Answers): Outcome {
    if a.fails then Threw else
    match pc
    case Idle => Returned(Some(true))
    case ToPush(_) => if w.maxSignatures == None then Threw else Returned(Some(true))
    case Pushed(_) => Returned(Some(true))
    case NotSigned => Returned(Some(true))
    case SignValid(_) => Returned(Some(true))
    case Drafted(hex) => if w.validateTx(id, hex, a.original, id in l.processed) == Invalid then Returned(Some(false)) else Threw
    case ProposeValid(_) => Returned(None)
    case _ => Threw
  }

  /** How many remote calls are left at most. */
  function Rank(pc: Pc): nat {
    match pc
    case Idle => 0
    case NotProcessed => 8
    case Signed => 7 case ToPush(_) => 6 case Counted(_) => 5 case PushValid(_) => 4
    case Ready(_, _) => 3 case Pushed(_) => 1
    case NotSigned => 7
    case ToSign => 3 case SignRead(_) => 2 case SignValid(_) => 1
    case ToPropose => 3 case Drafted(_) => 2 case ProposeValid(_) => 1
  }

  /** What the outside says at each point of a call; no call passes a point twice. */
  type Script = Pc -> Answers

  /** Call after call from pc until the federator is idle again. */
  function Finish(w: World, l: Ledger, pc: Pc, f: Federator, id: TransactionId, script: Script): (Ledger, Outcome)
    decreases if pc == Idle then 9 else Rank(pc)
  {
    var (l', pc') := Advance(w, l, pc, f, id, script(pc));
    if pc' == Idle then (l', Ending(w, l, pc, id, script(pc))) else Finish(w, l', pc', f, id, script)
  }

  /** All of `sendTokens`. */
  function Call(w: World, l: Ledger, f: Federator, id: TransactionId, script: Script): (Ledger, Outcome) {
    Finish(w, l, Idle, f, id, script)
  }

  lemma FinishStep(w: World, l: Ledger, pc: Pc, f: Federator, id: TransactionId, script: Script, l': Ledger, pc': Pc)
    requires Advance(w, l, pc, f, id, script(pc)) == (l', pc')
    ensures Finish(w, l, pc, f, id, script) ==
            if pc' == Idle then (l', Ending(w, l, pc, id, script(pc))) else Finish(w, l', pc', f, id, script)
  {
  }

  /** The same in one piece, for a call that gets the same answers all along. */
  function SendTokens(w: World, l: Ledger, f: Federator, id: TransactionId, a: Answers): Ledger {
    if a.fails || !IsKnown(w, id) || id in l.processed then l
    else if IsSigned(l, id, f) then PushProposal(w, l, f, id, a)
    else if id in l.hex then SignProposal(w, l, f, id, a)
    else if w.multisigOrder(f) > 1 then l
    else SendProposal(w, l, f, id, a)
  }

  function SendProposal(w: World, l: Ledger, f: Federator, id: TransactionId, a: Answers): Ledger {
    if !Validates(w, id, a.draft, a.original, id in l.processed) then l
    else if !a.receipt then Approve(l, f, id, a.draft, Propose)
    else Approve(l, f, id, a.draft, Propose).(hex := l.hex[id := a.draft])
  }

  function SignProposal(w: World, l: Ledger, f: Federator, id: TransactionId, a: Answers): Ledger
    requires id in l.hex
  {
    if !Validates(w, id, l.hex[id], a.original, id in l.processed) then l
    else if !a.receipt then Approve(l, f, id, l.hex[id], Sign)
    else Approve(l, f, id, l.hex[id], Sign).(
         signatures := l.signatures[id := SignaturesOf(l, id) + [Signature(f, l.hex[id])]])
  }

  function PushProposal(w: World, l: Ledger, f: Federator, id: TransactionId, a: Answers): Ledger {
    if id !in l.hex || w.maxSignatures == None || |SignaturesOf(l, id)| < w.maxSignatures.value
       || !Validates(w, id, l.hex[id], a.original, id in l.processed)
    then l
    else
      var hex, checked := l.hex[id], Approve(l, f, id, l.hex[id], Send);
      var inputs := SpentBy(w.decode(hex));
      if !a.pushAccepted || !(inputs !! l.spent) then checked
      else checked.(
           spent := l.spent + inputs,
           pushes := l.pushes + [Push(f, id, hex, Take(SignaturesOf(l, id), w.maxSignatures.value))],
           processed := if a.receipt then l.processed + {id} else l.processed)
  }

  /** The transition system, run by one federator alone, does what `SendTokens` says. */
  lemma UninterruptedCall(w: World, l: Ledger, f: Federator, id: TransactionId, a: Answers)
    requires IsSigned(l, id, f) ==> id in l.hex
    ensures Call(w, l, f, id, _ => a).0 == SendTokens(w, l, f, id, a)
  {
    var script: Script := _ => a;
    hide Finish;
    if a.fails || !IsKnown(w, id) || id in l.processed {
      FinishStep(w, l, Idle, f, id, script, l, Idle);
    } else {
      FinishStep(w, l, Idle, f, id, script, l, NotProcessed);
      if IsSigned(l, id, f) {
        FinishStep(w, l, NotProcessed, f, id, script, l, Signed);
        FinishStep(w, l, Signed, f, id, script, l, ToPush(l.hex[id]));
        FinishPush(w, l, f, id, a);
      } else {
        FinishStep(w, l, NotProcessed, f, id, script, l, NotSigned);
        if id in l.hex {
          FinishStep(w, l, NotSigned, f, id, script, l, ToSign);
          FinishStep(w, l, ToSign, f, id, script, l, SignRead(l.hex[id]));
          FinishSign(w, l, f, id, a);
        } else if w.multisigOrder(f) <= 1 {
          FinishStep(w, l, NotSigned, f, id, script, l, ToPropose);
          FinishStep(w, l, ToPropose, f, id, script, l, Drafted(a.draft));
          FinishPropose(w, l, f, id, a);
        } else {
          FinishStep(w, l, NotSigned, f, id, script, l, Idle);
        }
      }
    }
  }

  lemma FinishPush(w: World, l: Ledger, f: Federator, id: TransactionId, a: Answers)
    requires !a.fails && id in l.hex
    ensures Finish(w, l, ToPush(l.hex[id]), f, id, _ => a).0 == PushProposal(w, l, f, id, a)
  {
    var script: Script := _ => a;
    hide Finish;
    var hex := l.hex[id];
    if w.maxSignatures.Some? && |SignaturesOf(l, id)| >= w.maxSignatures.value {
      FinishStep(w, l, ToPush(hex), f, id, script, l, Counted(hex));
      if Validates(w, id, hex, a.original, id in l.processed) {
        var l1 := Approve(l, f, id, hex, Send);
        FinishStep(w, l, Counted(hex), f, id, script, l1, PushValid(hex));
        FinishSend(w, l1, f, id, hex, a);
      } else {
        FinishStep(w, l, Counted(hex), f, id, script, l, Idle);
      }
    } else {
      FinishStep(w, l, ToPush(hex), f, id, script, l, Idle);
    }
  }

  lemma FinishSend(w: World, l: Ledger, f: Federator, id: TransactionId, hex: Hex, a: Answers)
    requires !a.fails && w.maxSignatures.Some?
    ensures var inputs := SpentBy(w.decode(hex));
            Finish(w, l, PushValid(hex), f, id, _ => a).0 ==
            if !a.pushAccepted || !(inputs !! l.spent) then l
            else l.(spent := l.spent + inputs,
                    pushes := l.pushes + [Push(f, id, hex, Take(SignaturesOf(l, id), w.maxSignatures.value))],
                    processed := if a.receipt then l.processed + {id} else l.processed)
  {
    var script: Script := _ => a;
    hide Finish;
    var ready := Ready(hex, Take(SignaturesOf(l, id), w.maxSignatures.value));
    FinishStep(w, l, PushValid(hex), f, id, script, l, ready);
    var (l1, pc) := Advance(w, l, ready, f, id, a);
    FinishStep(w, l, ready, f, id, script, l1, pc);
    if pc != Idle {
      FinishStep(w, l1, pc, f, id, script, Advance(w, l1, pc, f, id, a).0, Idle);
    }
  }

  lemma FinishSign(w: World, l: Ledger, f: Federator, id: TransactionId, a: Answers)
    requires !a.fails && id !in l.processed && id in l.hex
    ensures Finish(w, l, SignRead(l.hex[id]), f, id, _ => a).0 == SignProposal(w, l, f, id, a)
  {
    var script: Script := _ => a;
    hide Finish;
    var hex := l.hex[id];
    if Validates(w, id, hex, a.original, id in l.processed) {
      var l1 := Approve(l, f, id, hex, Sign);
      FinishStep(w, l, SignRead(hex), f, id, script, l1, SignValid(hex));
      FinishStep(w, l1, SignValid(hex), f, id, script, Advance(w, l1, SignValid(hex), f, id, a).0, Idle);
    } else {
      FinishStep(w, l, SignRead(hex), f, id, script, l, Idle);
    }
  }

  lemma FinishPropose(w: World, l: Ledger, f: Federator, id: TransactionId, a: Answers)
    requires !a.fails && id !in l.processed && id !in l.hex
    ensures Finish(w, l, Drafted(a.draft), f, id, _ => a).0 == SendProposal(w, l, f, id, a)
  {
    var script: Script := _ => a;
    hide Finish;
    if Validates(w, id, a.draft, a.original, id in l.processed) {
      var l1 := Approve(l, f, id, a.draft, Propose);
      FinishStep(w, l, Drafted(a.draft), f, id, script, l1, ProposeValid(a.draft));
      FinishStep(w, l1, ProposeValid(a.draft), f, id, script, Advance(w, l1, ProposeValid(a.draft), f, id, a).0, Idle);
    } else {
      FinishStep(w, l, Drafted(a.draft), f, id, script, l, Idle);
    }
  }

  /** A call is a stretch of some run, whatever the outside says at each point: actions of f on
      id that change no other federator's place and leave f idle. */
  lemma CallIsARun(w: World, s: State, f: Federator, id: TransactionId, script: Script) returns (actions: seq<Action>)
    requires PcOf(s, f, id) == Idle
    ensures forall x | x in actions :: x.member == f && x.id == id && exists pc :: x.answers == script(pc)
    ensures var s' := RunFrom(w, s, actions);
            && s'.ledger == Call(w, s.ledger, f, id, script).0
            && (forall g, i :: PcOf(s', g, i) == PcOf(s, g, i))
  {
    actions := FinishIsARun(w, s, f, id, script);
  }

  lemma RankDrops(w: World, l: Ledger, pc: Pc, f: Federator, id: TransactionId, a: Answers)
    ensures Rank(Advance(w, l, pc, f, id, a).1) < if pc == Idle then 9 else Rank(pc)
  {
  }

  lemma OneStep(w: World, s: State, x: Action)
    ensures RunFrom(w, s, [x]) == Step(w, s, x)
    ensures var s' := Step(w, s, x);
            && (s'.ledger, PcOf(s', x.member, x.id)) == Advance(w, s.ledger, PcOf(s, x.member, x.id), x.member, x.id, x.answers)
            && (forall g, i | (g, i) != (x.member, x.id) :: PcOf(s', g, i) == PcOf(s, g, i))
  {
    assert [x][..0] == [];
  }

  lemma {:induction false} FinishIsARun(w: World, s: State, f: Federator, id: TransactionId, script: Script)
    returns (actions: seq<Action>)
    ensures forall x | x in actions :: x.member == f && x.id == id && exists pc :: x.answers == script(pc)
    ensures var s' := RunFrom(w, s, actions);
            && s'.ledger == Finish(w, s.ledger, PcOf(s, f, id), f, id, script).0
            && PcOf(s', f, id) == Idle
            && (forall g, i | (g, i) != (f, id) :: PcOf(s', g, i) == PcOf(s, g, i))
    decreases if PcOf(s, f, id) == Idle then 9 else Rank(PcOf(s, f, id))
  {
    hide Finish, Advance;
    var pc := PcOf(s, f, id);
    var x := Action(f, id, script(pc));
    var s1 := Step(w, s, x);
    OneStep(w, s, x);
    RankDrops(w, s.ledger, pc, f, id, script(pc));
    FinishStep(w, s.ledger, pc, f, id, script, s1.ledger, PcOf(s1, f, id));
    actions := [x];
    if PcOf(s1, f, id) != Idle {
      var rest := FinishIsARun(w, s1, f, id, script);
      actions := [x] + rest;
      RunConcat(w, s, [x], rest);
    }
  }
}
