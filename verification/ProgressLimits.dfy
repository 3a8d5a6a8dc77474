/** A run after which a transfer is never processed. */
module ProgressLimits {
  import opened Amounts
  import opened EvmBroker
  import opened Outcomes
  import opened Progress
  import opened Protocol
  import opened Quorum
  import opened Solvency
  import opened SolvencyLimits
  import opened Utxo
  import opened Wrappers

  /** Everything goes well until the update after the push, which is not mined with success. */
  function AllButTheRecord(a: Answers): Script {
    (pc: Pc) => if pc.Pushed? then a.(receipt := false) else a
  }

  /** A federator alone that has signed, and whose third call pushes without recording it. */
  lemma PushWithoutRecord(w: World, s: State, id: TransactionId, a: Answers) returns (actions: seq<Action>)
    requires Inv(w, s) && AllIdle(s) && IsKnown(w, id) && id !in s.ledger.processed && id in s.ledger.hex
    requires IsSigned(s.ledger, id, "f") && w.maxSignatures == Some(1) && Cooperative(w, s.ledger, id, a)
    ensures var s' := RunFrom(w, s, actions);
            WasPushed(s'.ledger, id) && id !in s'.ledger.processed && !SomeoneRecords(s', id) && Inv(w, s')
            && s'.ledger.hex == s.ledger.hex
  {
    var script := AllButTheRecord(a);
    assert PcOf(s, "f", id) == Idle;
    PushOutcome(w, s.ledger, "f", id, script);
    assert PushIsTaken(w, s.ledger, id, s.ledger.hex[id], script);
    actions := CallIsARun(w, s, "f", id, script);
    RunFromKeepsInv(w, s, actions);
    var l' := RunFrom(w, s, actions).ledger;
    assert l'.pushes[|s.ledger.pushes|].id == id;
  }

  /** The first of two deposits: one federator proposes, signs and pushes, the update fails, and
      no continuation whatever gets the transfer processed. */
  lemma PushedButNeverProcessed() returns (w: World, actions: seq<Action>, id: TransactionId)
    ensures w.evm == TwoDeposits() && UsesBrokers(w) && IsKnown(w, id)
    ensures WasPushed(Run(w, actions).ledger, id)
    ensures forall more :: id !in Run(w, actions + more).ledger.processed
  {
    var evm := TwoDeposits();
    w, id := Alone(evm, Minter(evm, "0xa")), EventId(evm, evm.events[0]);
    var a := Draft(Tag(0), None);
    AloneIs(evm, Minter(evm, "0xa"));
    TwoDepositIds();
    assert EventOf(evm, "0x01") == Some(evm.events[0]) && Scale(2) == 1;
    QuotaIsCooperative(evm, "0xa", EMPTY, 0);
    assert evm.events[0] in evm.events;
    RunKeepsInv(w, []);
    var s2, first := ProposedAndSigned(w, id, a);
    var last := PushWithoutRecord(w, s2, id, a);
    actions := first + last;
    RunConcat(w, INITIAL, first, last);
    RecordedOrNever(w, Run(w, actions), id);
    forall more
      ensures id !in Run(w, actions + more).ledger.processed
    {
      RunConcat(w, INITIAL, actions, more);
    }
  }

  lemma ProposedAndSigned(w: World, id: TransactionId, a: Answers) returns (s: State, actions: seq<Action>)
    requires Fresh(w, EMPTY, id) && Cooperative(w, EMPTY, id, a) && w.maxSignatures == Some(1) && w.multisigOrder("f") <= 1
    ensures s == Run(w, actions) && Inv(w, s) && AllIdle(s)
    ensures id in s.ledger.hex && s.ledger.hex[id] == a.draft && id !in s.ledger.processed && s.ledger.spent == {}
    ensures IsSigned(s.ledger, id, "f")
  {
    RunKeepsInv(w, []);
    var one := OnceIsARun(w, INITIAL, "f", id, a);
    var l1 := SendTokens(w, EMPTY, "f", id, a);
    assert l1 == SendProposal(w, EMPTY, "f", id, a);
    var two := OnceIsARun(w, RunFrom(w, INITIAL, one), "f", id, a);
    RunConcat(w, INITIAL, one, two);
    actions := one + two;
    s := Run(w, actions);
    assert s.ledger == SignProposal(w, l1, "f", id, a);
    assert SignaturesOf(s.ledger, id)[0].member == "f";
  }
}
