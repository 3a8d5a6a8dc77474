/** What the result of `sendTokens` says about the ledger, exactly: which calls return true,
    which throw, and when something was recorded. A ledger transaction that is mined without
    success is only logged, so `true` is also returned when nothing was recorded. */
module Outcomes {
  import opened Protocol
  import opened Utxo
  import opened Wrappers

  /** The call made at pc does not fail. */
  predicate Goes(script: Script, pc: Pc) {
    !script(pc).fails
  }

  /** Nothing is left to do: the call returns true if its first question is answered, and never
      touches anything. */
  lemma ProcessedOutcome(w: World, l: Ledger, f: Federator, id: TransactionId, script: Script)
    requires IsKnown(w, id) && id in l.processed
    ensures Call(w, l, f, id, script) == (l, if Goes(script, Idle) then Returned(Some(true)) else Threw)
  {
    hide Finish;
    FinishStep(w, l, Idle, f, id, script, l, Idle);
  }

  predicate SignGoes(w: World, id: TransactionId, hex: Hex, script: Script) {
    && Goes(script, Idle) && Goes(script, NotProcessed) && Goes(script, NotSigned) && Goes(script, ToSign)
    && Goes(script, SignRead(hex)) && Validates(w, id, hex, script(SignRead(hex)).original, false)
    && Goes(script, SignValid(hex))
  }

  /** The federator's turn to sign: the call returns true if everything up to sending the
      signature goes through and throws otherwise, and of the calls that return true those
      leave no signature whose receipt says so. */
  lemma SignOutcome(w: World, l: Ledger, f: Federator, id: TransactionId, script: Script)
    requires IsKnown(w, id) && id !in l.processed && id in l.hex && !IsSigned(l, id, f)
    ensures var (l', outcome) := Call(w, l, f, id, script);
            && outcome == (if SignGoes(w, id, l.hex[id], script) then Returned(Some(true)) else Threw)
            && (IsSigned(l', id, f) <==> outcome == Returned(Some(true)) && script(SignValid(l.hex[id])).receipt)
            && l'.hex == l.hex && l'.processed == l.processed && l'.pushes == l.pushes && l'.spent == l.spent
  {
    var hex, l' := l.hex[id], Call(w, l, f, id, script).0;
    UntilNotSigned(w, l, f, id, script);
    if Goes(script, Idle) && Goes(script, NotProcessed) {
      AfterToSign(w, l, f, id, script);
    }
    hide Finish, Call;
    if SignGoes(w, id, hex, script) && script(SignValid(hex)).receipt {
      assert SignaturesOf(l', id)[|SignaturesOf(l, id)|].member == f;
    } else {
      assert SignaturesOf(l', id) == SignaturesOf(l, id);
    }
  }

  lemma UntilNotSigned(w: World, l: Ledger, f: Federator, id: TransactionId, script: Script)
    requires IsKnown(w, id) && id !in l.processed
    ensures Call(w, l, f, id, script) ==
            if !Goes(script, Idle) || !Goes(script, NotProcessed) then (l, Threw)
            else Finish(w, l, if IsSigned(l, id, f) then Signed else NotSigned, f, id, script)
  {
    hide Finish;
    FinishStep(w, l, Idle, f, id, script, l, if Goes(script, Idle) then NotProcessed else Idle);
    if Goes(script, Idle) {
      FinishStep(w, l, NotProcessed, f, id, script, l,
                 if !Goes(script, NotProcessed) then Idle else if IsSigned(l, id, f) then Signed else NotSigned);
    }
  }

  lemma AfterToSign(w: World, l: Ledger, f: Federator, id: TransactionId, script: Script)
    requires id !in l.processed && id in l.hex
    requires Goes(script, Idle) && Goes(script, NotProcessed)
    ensures var hex := l.hex[id];
            var (l', outcome) := Finish(w, l, NotSigned, f, id, script);
            && outcome == (if SignGoes(w, id, hex, script) then Returned(Some(true)) else Threw)
            && l'.signatures == (if SignGoes(w, id, hex, script) && script(SignValid(hex)).receipt
                                 then l.signatures[id := SignaturesOf(l, id) + [Signature(f, hex)]] else l.signatures)
            && l'.hex == l.hex && l'.processed == l.processed && l'.pushes == l.pushes && l'.spent == l.spent
  {
    hide Finish;
    var hex := l.hex[id];
    FinishStep(w, l, NotSigned, f, id, script, l, if Goes(script, NotSigned) then ToSign else Idle);
    if Goes(script, NotSigned) {
      FinishStep(w, l, ToSign, f, id, script, l, if Goes(script, ToSign) then SignRead(hex) else Idle);
      if Goes(script, ToSign) {
        var (l1, pc1) := Advance(w, l, SignRead(hex), f, id, script(SignRead(hex)));
        FinishStep(w, l, SignRead(hex), f, id, script, l1, pc1);
        if pc1 != Idle {
          FinishStep(w, l1, pc1, f, id, script, Advance(w, l1, pc1, f, id, script(pc1)).0, Idle);
        }
      }
    }
  }

  // ---------- proposing ----------

  /** The wallet has drafted and the draft is being validated. */
  predicate DraftGoes(script: Script) {
    && Goes(script, Idle) && Goes(script, NotProcessed) && Goes(script, NotSigned) && Goes(script, ToPropose)
    && Goes(script, Drafted(script(ToPropose).draft))
  }

  function DraftVerdict(w: World, id: TransactionId, script: Script): Verdict {
    var draft := script(ToPropose).draft;
    w.validateTx(id, draft, script(Drafted(draft)).original, false)
  }

  predicate ProposalIsSent(w: World, id: TransactionId, script: Script) {
    DraftGoes(script) && DraftVerdict(w, id, script) == Valid && Goes(script, ProposeValid(script(ToPropose).draft))
  }

  /** Nothing is proposed yet: only a federator of order 1 goes on; it returns false exactly for
      a draft that validation returns false for, and nothing for one that was sent, of which
      those are not recorded whose receipt says so. */
  lemma ProposeOutcome(w: World, l: Ledger, f: Federator, id: TransactionId, script: Script)
    requires IsKnown(w, id) && id !in l.processed && id !in l.hex && !IsSigned(l, id, f)
    ensures var (l', outcome) := Call(w, l, f, id, script);
            var mine, draft := w.multisigOrder(f) <= 1, script(ToPropose).draft;
            && outcome == (if !(Goes(script, Idle) && Goes(script, NotProcessed) && Goes(script, NotSigned)) then Threw
                           else if !mine then Returned(Some(true))
                           else if DraftGoes(script) && DraftVerdict(w, id, script) == Invalid then Returned(Some(false))
                           else if ProposalIsSent(w, id, script) then Returned(None)
                           else Threw)
            && l'.hex == (if mine && ProposalIsSent(w, id, script) && script(ProposeValid(draft)).receipt
                          then l.hex[id := draft] else l.hex)
            && l'.signatures == l.signatures && l'.processed == l.processed && l'.pushes == l.pushes && l'.spent == l.spent
  {
    UntilNotSigned(w, l, f, id, script);
    hide Finish;
    var draft := script(ToPropose).draft;
    if Goes(script, Idle) && Goes(script, NotProcessed) {
      var go := Goes(script, NotSigned) && w.multisigOrder(f) <= 1;
      FinishStep(w, l, NotSigned, f, id, script, l, if go then ToPropose else Idle);
      if go {
        FinishStep(w, l, ToPropose, f, id, script, l, if Goes(script, ToPropose) then Drafted(draft) else Idle);
        if Goes(script, ToPropose) {
          var (l1, pc1) := Advance(w, l, Drafted(draft), f, id, script(Drafted(draft)));
          FinishStep(w, l, Drafted(draft), f, id, script, l1, pc1);
          if pc1 != Idle {
            FinishStep(w, l1, pc1, f, id, script, Advance(w, l1, pc1, f, id, script(pc1)).0, Idle);
          }
        }
      }
    }
  }

  // ---------- pushing ----------

  predicate CountGoes(w: World, hex: Hex, script: Script) {
    && Goes(script, Idle) && Goes(script, NotProcessed) && Goes(script, Signed) && Goes(script, ToPush(hex))
    && w.maxSignatures.Some?
  }

  predicate HasEnough(w: World, l: Ledger, id: TransactionId) {
    w.maxSignatures.Some? && |SignaturesOf(l, id)| >= w.maxSignatures.value
  }

  function ReadyFor(w: World, l: Ledger, id: TransactionId, hex: Hex): Pc {
    Ready(hex, if w.maxSignatures.Some? then Take(SignaturesOf(l, id), w.maxSignatures.value) else [])
  }

  /** Everything goes through up to and with sending the push, whatever comes of it. */
  predicate PushIsSent(w: World, l: Ledger, id: TransactionId, hex: Hex, script: Script) {
    && CountGoes(w, hex, script) && HasEnough(w, l, id)
    && Goes(script, Counted(hex)) && Validates(w, id, hex, script(Counted(hex)).original, false)
    && Goes(script, PushValid(hex)) && Goes(script, ReadyFor(w, l, id, hex))
  }

  predicate IsFree(w: World, l: Ledger, hex: Hex) {
    SpentBy(w.decode(hex)) !! l.spent
  }

  /** Hathor takes the push. */
  predicate PushIsTaken(w: World, l: Ledger, id: TransactionId, hex: Hex, script: Script) {
    PushIsSent(w, l, id, hex, script) && IsFree(w, l, hex) && script(ReadyFor(w, l, id, hex)).pushAccepted
  }

  /** Hathor takes the push and the wallet says so, or it refuses it for spent inputs; then the
      update is sent. */
  predicate UpdateIsSent(w: World, l: Ledger, id: TransactionId, hex: Hex, script: Script) {
    && PushIsSent(w, l, id, hex, script)
    && (IsFree(w, l, hex) ==> PushIsTaken(w, l, id, hex, script) && script(ReadyFor(w, l, id, hex)).receipt)
    && Goes(script, Pushed(IsFree(w, l, hex)))
  }

  /** The federator has signed: a push that Hathor took is recorded only if the wallet's answer
      arrives and the update is mined with success. The call returns true when signatures are
      missing and when an update was sent, with success or not, and throws otherwise. */
  lemma PushOutcome(w: World, l: Ledger, f: Federator, id: TransactionId, script: Script)
    requires IsKnown(w, id) && id !in l.processed && id in l.hex && IsSigned(l, id, f)
    ensures var hex := l.hex[id];
            var (l', outcome) := Call(w, l, f, id, script);
            && outcome == (if CountGoes(w, hex, script) && (!HasEnough(w, l, id) || UpdateIsSent(w, l, id, hex, script))
                           then Returned(Some(true)) else Threw)
            && l'.pushes == (if PushIsTaken(w, l, id, hex, script)
                             then l.pushes + [Push(f, id, hex, ReadyFor(w, l, id, hex).signatures)] else l.pushes)
            && l'.spent == (if PushIsTaken(w, l, id, hex, script) then l.spent + SpentBy(w.decode(hex)) else l.spent)
            && l'.processed == (if PushIsTaken(w, l, id, hex, script) && UpdateIsSent(w, l, id, hex, script)
                                   && script(Pushed(true)).receipt
                                then l.processed + {id} else l.processed)
            && l'.hex == l.hex && l'.signatures == l.signatures
  {
    UntilNotSigned(w, l, f, id, script);
    if Goes(script, Idle) && Goes(script, NotProcessed) {
      hide Finish;
      var hex := l.hex[id];
      FinishStep(w, l, Signed, f, id, script, l, if Goes(script, Signed) then ToPush(hex) else Idle);
      if Goes(script, Signed) {
        var go := Goes(script, ToPush(hex)) && HasEnough(w, l, id);
        FinishStep(w, l, ToPush(hex), f, id, script, l, if go then Counted(hex) else Idle);
        if go {
          AfterCounted(w, l, f, id, script);
        }
      }
    }
  }

  lemma AfterCounted(w: World, l: Ledger, f: Federator, id: TransactionId, script: Script)
    requires id !in l.processed && id in l.hex && HasEnough(w, l, id) && CountGoes(w, l.hex[id], script)
    ensures var hex := l.hex[id];
            var (l', outcome) := Finish(w, l, Counted(hex), f, id, script);
            && outcome == (if UpdateIsSent(w, l, id, hex, script) then Returned(Some(true)) else Threw)
            && l'.pushes == (if PushIsTaken(w, l, id, hex, script)
                             then l.pushes + [Push(f, id, hex, ReadyFor(w, l, id, hex).signatures)] else l.pushes)
            && l'.spent == (if PushIsTaken(w, l, id, hex, script) then l.spent + SpentBy(w.decode(hex)) else l.spent)
            && l'.processed == (if PushIsTaken(w, l, id, hex, script) && UpdateIsSent(w, l, id, hex, script)
                                   && script(Pushed(true)).receipt
                                then l.processed + {id} else l.processed)
            && l'.hex == l.hex && l'.signatures == l.signatures
  {
    hide Finish;
    var hex := l.hex[id];
    var (l1, pc1) := Advance(w, l, Counted(hex), f, id, script(Counted(hex)));
    FinishStep(w, l, Counted(hex), f, id, script, l1, pc1);
    if pc1 != Idle {
      var ready := ReadyFor(w, l, id, hex);
      FinishStep(w, l1, PushValid(hex), f, id, script, l1, if Goes(script, PushValid(hex)) then ready else Idle);
      if Goes(script, PushValid(hex)) {
        var (l2, pc2) := Advance(w, l1, ready, f, id, script(ready));
        FinishStep(w, l1, ready, f, id, script, l2, pc2);
        if pc2 != Idle {
          FinishStep(w, l2, pc2, f, id, script, Advance(w, l2, pc2, f, id, script(pc2)).0, Idle);
        }
      }
    }
  }
}
