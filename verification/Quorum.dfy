/** Safety of the proposal protocol in every reachable state. */
module Quorum {
  import opened Protocol
  import opened Utxo
  import opened Wrappers

  // ---------- what holds of the ledger ----------

  ghost predicate ApprovalsSound(w: World, l: Ledger) {
    forall x | x in l.approvals :: Acceptable(w, x.id, x.hex)
  }

  ghost predicate HexesApproved(w: World, l: Ledger) {
    forall id | id in l.hex :: IsKnown(w, id) && exists f :: Approval(f, id, l.hex[id], Propose) in l.approvals
  }

  ghost predicate SignaturesOk(l: Ledger, id: TransactionId) {
    var signatures := SignaturesOf(l, id);
    && (signatures != [] ==> id in l.hex)
    && (forall i | 0 <= i < |signatures| ::
          signatures[i].of == l.hex[id] && Approval(signatures[i].member, id, l.hex[id], Sign) in l.approvals)
    && (forall i, j | 0 <= i < j < |signatures| :: signatures[i].member != signatures[j].member)
  }

  ghost predicate PushOk(w: World, l: Ledger, p: Push) {
    && p.id in l.hex && l.hex[p.id] == p.hex
    && w.maxSignatures.Some? && w.maxSignatures.value <= |SignaturesOf(l, p.id)|
    && p.signatures == SignaturesOf(l, p.id)[..w.maxSignatures.value]
    && Approval(p.member, p.id, p.hex, Send) in l.approvals
    && SpentBy(w.decode(p.hex)) <= l.spent
  }

  ghost predicate PushesDisjoint(w: World, l: Ledger) {
    forall i, j | 0 <= i < j < |l.pushes| ::
      SpentBy(w.decode(l.pushes[i].hex)) !! SpentBy(w.decode(l.pushes[j].hex))
  }

  ghost predicate WasPushed(l: Ledger, id: TransactionId) {
    exists i :: 0 <= i < |l.pushes| && l.pushes[i].id == id
  }

  ghost predicate LedgerOk(w: World, l: Ledger) {
    && ApprovalsSound(w, l)
    && HexesApproved(w, l)
    && (forall id :: SignaturesOk(l, id))
    && (forall i | 0 <= i < |l.pushes| :: PushOk(w, l, l.pushes[i]))
    && PushesDisjoint(w, l)
    && (forall id | id in l.processed :: WasPushed(l, id))
  }

  // ---------- what a federator may rely on in the middle of a call ----------

  ghost predicate HasHex(l: Ledger, id: TransactionId, hex: Hex) {
    id in l.hex && l.hex[id] == hex
  }

  ghost predicate HasQuorum(w: World, l: Ledger, id: TransactionId) {
    w.maxSignatures.Some? && w.maxSignatures.value <= |SignaturesOf(l, id)|
  }

  ghost predicate PcOk(w: World, l: Ledger, pc: Pc, f: Federator, id: TransactionId) {
    && (pc != Idle ==> IsKnown(w, id))
    && match pc
       case Idle => true
       case NotProcessed => true
       case Signed => true
       case ToPush(hex) => HasHex(l, id, hex)
       case Counted(hex) => HasHex(l, id, hex) && HasQuorum(w, l, id)
       case PushValid(hex) => HasHex(l, id, hex) && HasQuorum(w, l, id) && Approval(f, id, hex, Send) in l.approvals
       case Ready(hex, signatures) =>
         && HasHex(l, id, hex) && HasQuorum(w, l, id) && Approval(f, id, hex, Send) in l.approvals
         && signatures == SignaturesOf(l, id)[..w.maxSignatures.value]
       case Pushed(sent) => sent ==> WasPushed(l, id)
       case NotSigned => !IsSigned(l, id, f)
       case ToSign => !IsSigned(l, id, f)
       case SignRead(hex) => !IsSigned(l, id, f) && HasHex(l, id, hex)
       case SignValid(hex) => !IsSigned(l, id, f) && HasHex(l, id, hex) && Approval(f, id, hex, Sign) in l.approvals
       case ToPropose => true
       case Drafted(hex) => true
       case ProposeValid(hex) => Approval(f, id, hex, Propose) in l.approvals
  }

  ghost predicate Inv(w: World, s: State) {
    && LedgerOk(w, s.ledger)
    && forall f, id :: PcOk(w, s.ledger, PcOf(s, f, id), f, id)
  }

  // ---------- how one call changes the ledger ----------

  /** The ledger only grows, and only federator f's signature on id is added. */
  ghost predicate Grows(l: Ledger, l': Ledger, f: Federator, id: TransactionId) {
    && (forall i | i in l.hex :: i in l'.hex && l'.hex[i] == l.hex[i])
    && l.approvals <= l'.approvals
    && l.spent <= l'.spent
    && l.processed <= l'.processed
    && l.pushes <= l'.pushes
    && (forall i | i != id :: SignaturesOf(l', i) == SignaturesOf(l, i))
    && (SignaturesOf(l', id) == SignaturesOf(l, id)
        || exists hex :: SignaturesOf(l', id) == SignaturesOf(l, id) + [Signature(f, hex)])
  }

  lemma AdvanceGrows(w: World, l: Ledger, pc: Pc, f: Federator, id: TransactionId, a: Answers)
    ensures Grows(l, Advance(w, l, pc, f, id, a).0, f, id)
  {
  }

  lemma OthersUndisturbed(w: World, l: Ledger, l': Ledger, f: Federator, id: TransactionId,
                          pc: Pc, g: Federator, other: TransactionId)
    requires Grows(l, l', f, id) && (g, other) != (f, id)
    requires PcOk(w, l, pc, g, other)
    ensures PcOk(w, l', pc, g, other)
  {
    SignaturesPrefix(l, l', f, id, other);
    if pc.Pushed? && pc.sent {
      var i :| 0 <= i < |l.pushes| && l.pushes[i].id == other;
      assert l'.pushes[i] == l.pushes[i];
    }
  }

  lemma SignaturesPrefix(l: Ledger, l': Ledger, f: Federator, id: TransactionId, other: TransactionId)
    requires Grows(l, l', f, id)
    ensures SignaturesOf(l, other) <= SignaturesOf(l', other)
    ensures forall g | g != f || other != id :: IsSigned(l', other, g) ==> IsSigned(l, other, g)
  {
  }

  lemma PushStays(w: World, l: Ledger, l': Ledger, f: Federator, id: TransactionId, p: Push)
    requires Grows(l, l', f, id) && PushOk(w, l, p)
    ensures PushOk(w, l', p)
  {
    SignaturesPrefix(l, l', f, id, p.id);
  }

  lemma OwnStep(w: World, l: Ledger, pc: Pc, f: Federator, id: TransactionId, a: Answers)
    requires LedgerOk(w, l) && PcOk(w, l, pc, f, id)
    ensures var (l', pc') := Advance(w, l, pc, f, id, a); PcOk(w, l', pc', f, id)
  {
    assert SignaturesOk(l, id);
    var (l', pc') := Advance(w, l, pc, f, id, a);
    if pc'.Pushed? && pc'.sent {
      assert l'.pushes[|l.pushes|].id == id;
    }
  }

  lemma ApprovalsStaySound(w: World, l: Ledger, pc: Pc, f: Federator, id: TransactionId, a: Answers)
    requires ApprovalsSound(w, l)
    ensures ApprovalsSound(w, Advance(w, l, pc, f, id, a).0)
  {
  }

  lemma HexesStayApproved(w: World, l: Ledger, pc: Pc, f: Federator, id: TransactionId, a: Answers)
    requires HexesApproved(w, l) && PcOk(w, l, pc, f, id)
    ensures HexesApproved(w, Advance(w, l, pc, f, id, a).0)
  {
    var l' := Advance(w, l, pc, f, id, a).0;
    forall i | i in l'.hex
      ensures IsKnown(w, i) && exists g :: Approval(g, i, l'.hex[i], Propose) in l'.approvals
    {
      if i in l.hex {
        var g :| Approval(g, i, l.hex[i], Propose) in l.approvals;
        assert Approval(g, i, l'.hex[i], Propose) in l'.approvals;
      } else {
        assert Approval(f, i, l'.hex[i], Propose) in l'.approvals;
      }
    }
  }

  lemma SignaturesStayOk(w: World, l: Ledger, pc: Pc, f: Federator, id: TransactionId, a: Answers, i: TransactionId)
    requires SignaturesOk(l, i) && PcOk(w, l, pc, f, id)
    ensures SignaturesOk(Advance(w, l, pc, f, id, a).0, i)
  {
  }

  lemma PushesGrowByOne(w: World, l: Ledger, pc: Pc, f: Federator, id: TransactionId, a: Answers)
    ensures var l' := Advance(w, l, pc, f, id, a).0;
            || (l'.pushes == l.pushes && l'.spent == l.spent)
            || (pc.Ready? && l'.pushes == l.pushes + [Push(f, id, pc.hex, pc.signatures)]
                && SpentBy(w.decode(pc.hex)) !! l.spent && l' == l.(spent := l.spent + SpentBy(w.decode(pc.hex)), pushes := l'.pushes))
  {
  }

  lemma PushesStayOk(w: World, l: Ledger, pc: Pc, f: Federator, id: TransactionId, a: Answers)
    requires LedgerOk(w, l) && PcOk(w, l, pc, f, id)
    ensures var l' := Advance(w, l, pc, f, id, a).0;
            (forall i | 0 <= i < |l'.pushes| :: PushOk(w, l', l'.pushes[i])) && PushesDisjoint(w, l')
  {
    var l' := Advance(w, l, pc, f, id, a).0;
    AdvanceGrows(w, l, pc, f, id, a);
    PushesGrowByOne(w, l, pc, f, id, a);
    forall i | 0 <= i < |l'.pushes|
      ensures PushOk(w, l', l'.pushes[i])
    {
      if i < |l.pushes| {
        PushStays(w, l, l', f, id, l.pushes[i]);
      }
    }
    forall i, j | 0 <= i < j < |l'.pushes|
      ensures SpentBy(w.decode(l'.pushes[i].hex)) !! SpentBy(w.decode(l'.pushes[j].hex))
    {
      assert PushOk(w, l, l.pushes[i]);
    }
  }

  lemma ProcessedStayPushed(w: World, l: Ledger, pc: Pc, f: Federator, id: TransactionId, a: Answers)
    requires LedgerOk(w, l) && PcOk(w, l, pc, f, id)
    ensures var l' := Advance(w, l, pc, f, id, a).0; forall i | i in l'.processed :: WasPushed(l', i)
  {
    var l' := Advance(w, l, pc, f, id, a).0;
    AdvanceGrows(w, l, pc, f, id, a);
    forall i | i in l'.processed
      ensures WasPushed(l', i)
    {
      assert WasPushed(l, i);
      var k :| 0 <= k < |l.pushes| && l.pushes[k].id == i;
      assert l'.pushes[k] == l.pushes[k];
    }
  }

  lemma LedgerStaysOk(w: World, l: Ledger, pc: Pc, f: Federator, id: TransactionId, a: Answers)
    requires LedgerOk(w, l) && PcOk(w, l, pc, f, id)
    ensures LedgerOk(w, Advance(w, l, pc, f, id, a).0)
  {
    var l' := Advance(w, l, pc, f, id, a).0;
    ApprovalsStaySound(w, l, pc, f, id, a);
    HexesStayApproved(w, l, pc, f, id, a);
    PushesStayOk(w, l, pc, f, id, a);
    ProcessedStayPushed(w, l, pc, f, id, a);
    forall i ensures SignaturesOk(l', i) {
      SignaturesStayOk(w, l, pc, f, id, a, i);
    }
  }

  lemma StepKeepsInv(w: World, s: State, x: Action)
    requires Inv(w, s)
    ensures Inv(w, Step(w, s, x))
  {
    var pc := PcOf(s, x.member, x.id);
    var s' := Step(w, s, x);
    LedgerStaysOk(w, s.ledger, pc, x.member, x.id, x.answers);
    OwnStep(w, s.ledger, pc, x.member, x.id, x.answers);
    AdvanceGrows(w, s.ledger, pc, x.member, x.id, x.answers);
    forall f, id
      ensures PcOk(w, s'.ledger, PcOf(s', f, id), f, id)
    {
      if (f, id) != (x.member, x.id) {
        assert PcOf(s', f, id) == PcOf(s, f, id);
        OthersUndisturbed(w, s.ledger, s'.ledger, x.member, x.id, PcOf(s, f, id), f, id);
      }
    }
  }

  lemma {:induction false} RunFromKeepsInv(w: World, s: State, actions: seq<Action>)
    requires Inv(w, s)
    ensures Inv(w, RunFrom(w, s, actions))
  {
    if actions != [] {
      RunFromKeepsInv(w, s, actions[..|actions| - 1]);
      StepKeepsInv(w, RunFrom(w, s, actions[..|actions| - 1]), actions[|actions| - 1]);
    }
  }

  lemma RunKeepsInv(w: World, actions: seq<Action>)
    ensures Inv(w, Run(w, actions))
  {
    RunFromKeepsInv(w, INITIAL, actions);
  }

  /** Quorum safety, in every reachable state: what was pushed for an id is the hex proposed
      for it; it carries exactly the first maxSignatures signatures of the ledger's list, all
      of that hex and by different federators; and it passed validation for that id when it
      was proposed, when each of the signers signed, and when it was pushed. */
  lemma QuorumSafety(w: World, actions: seq<Action>, k: nat)
    requires k < |Run(w, actions).ledger.pushes|
    ensures var l := Run(w, actions).ledger;
            var p := l.pushes[k];
            && p.id in l.hex && l.hex[p.id] == p.hex
            && w.maxSignatures == Some(|p.signatures|)
            && p.signatures <= SignaturesOf(l, p.id)
            && (forall i, j | 0 <= i < j < |p.signatures| :: p.signatures[i].member != p.signatures[j].member)
            && (forall i | 0 <= i < |p.signatures| ::
                  p.signatures[i].of == p.hex && Approval(p.signatures[i].member, p.id, p.hex, Sign) in l.approvals)
            && (exists f :: Approval(f, p.id, p.hex, Propose) in l.approvals)
            && Approval(p.member, p.id, p.hex, Send) in l.approvals
            && (forall x | x in l.approvals :: Acceptable(w, x.id, x.hex))
  {
    RunKeepsInv(w, actions);
    var l := Run(w, actions).ledger;
    assert PushOk(w, l, l.pushes[k]);
    assert SignaturesOk(l, l.pushes[k].id);
  }

  /** No two pushes spend the same output, so an id whose proposal spends anything is pushed at
      most once, whatever the interleaving. */
  lemma PushedAtMostOnce(w: World, actions: seq<Action>, i: nat, j: nat)
    requires i < j < |Run(w, actions).ledger.pushes|
    ensures var pushes := Run(w, actions).ledger.pushes;
            && SpentBy(w.decode(pushes[i].hex)) !! SpentBy(w.decode(pushes[j].hex))
            && (pushes[i].id == pushes[j].id ==> w.decode(pushes[i].hex).inputs == [])
  {
    RunKeepsInv(w, actions);
    var l := Run(w, actions).ledger;
    assert PushOk(w, l, l.pushes[i]) && PushOk(w, l, l.pushes[j]);
    SpendsSomething(w.decode(l.pushes[i].hex));
  }

  lemma SpendsSomething(tx: Tx)
    ensures tx.inputs != [] ==> exists o :: o in SpentBy(tx)
  {
    if tx.inputs != [] {
      assert tx.inputs[0].spends in SpentBy(tx);
    }
  }

  /** An id is marked processed only after its proposal was pushed. */
  lemma ProcessedWasPushed(w: World, actions: seq<Action>, id: TransactionId)
    requires id in Run(w, actions).ledger.processed
    ensures WasPushed(Run(w, actions).ledger, id)
  {
    RunKeepsInv(w, actions);
  }
}
