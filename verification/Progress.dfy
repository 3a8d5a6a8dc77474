/** When the proposal protocol gets a transfer done, and when it never will. */
module Progress {
  import opened Protocol
  import opened Quorum
  import opened Utxo
  import opened Wrappers

  /** Proposal missing, signatures missing up to the threshold, mark missing. */
  function Measure(w: World, l: Ledger, id: TransactionId): nat
    requires w.maxSignatures.Some?
  {
    var signed := |SignaturesOf(l, id)|;
    (if id in l.hex then 0 else 1)
    + (if signed < w.maxSignatures.value then w.maxSignatures.value - signed else 0)
    + (if id in l.processed then 0 else 1)
  }

  lemma GrowthShrinksMeasure(w: World, l: Ledger, l': Ledger, f: Federator, i: TransactionId, id: TransactionId)
    requires w.maxSignatures.Some? && Grows(l, l', f, i)
    ensures Measure(w, l', id) <= Measure(w, l, id)
  {
    SignaturesPrefix(l, l', f, i, id);
  }

  /** No action of anybody, complete or cut short, on this id or another, undoes progress. */
  lemma {:induction false} MeasureNeverGrows(w: World, s: State, actions: seq<Action>, id: TransactionId)
    requires w.maxSignatures.Some?
    ensures Measure(w, RunFrom(w, s, actions).ledger, id) <= Measure(w, s.ledger, id)
  {
    if actions != [] {
      var before, x := RunFrom(w, s, actions[..|actions| - 1]), actions[|actions| - 1];
      MeasureNeverGrows(w, s, actions[..|actions| - 1], id);
      AdvanceGrows(w, before.ledger, PcOf(before, x.member, x.id), x.member, x.id, x.answers);
      GrowthShrinksMeasure(w, before.ledger, Step(w, before, x).ledger, x.member, x.id, id);
    }
  }

  /** The federators whose next call gets something done. */
  predicate IsEffective(w: World, l: Ledger, f: Federator, id: TransactionId)
    requires w.maxSignatures.Some?
  {
    if id !in l.hex then w.multisigOrder(f) <= 1
    else IsSigned(l, id, f) <==> |SignaturesOf(l, id)| >= w.maxSignatures.value
  }

  /** Validation and push succeed for what is, or is about to be, proposed for id. */
  predicate Cooperative(w: World, l: Ledger, id: TransactionId, a: Answers) {
    var hex := if id in l.hex then l.hex[id] else a.draft;
    && !a.fails && a.pushAccepted && a.receipt
    && Validates(w, id, hex, a.original, false)
    && SpentBy(w.decode(hex)) !! l.spent
  }

  ghost predicate Members(l: Ledger, id: TransactionId, members: set<Federator>) {
    forall i | 0 <= i < |SignaturesOf(l, id)| :: SignaturesOf(l, id)[i].member in members
  }

  /** A known transfer on its way, with at least one signature required. */
  ghost predicate Open(w: World, l: Ledger, id: TransactionId, members: set<Federator>) {
    && w.maxSignatures.Some? && w.maxSignatures.value >= 1
    && IsKnown(w, id) && SignaturesOk(l, id) && Members(l, id, members)
  }

  /** A cooperative call takes the measure down by exactly one if its federator is effective,
      and leaves it where it was otherwise. */
  lemma {:induction false} CallMeasure(w: World, l: Ledger, f: Federator, id: TransactionId, a: Answers, members: set<Federator>)
    requires Open(w, l, id, members) && id !in l.processed && Cooperative(w, l, id, a)
    ensures Measure(w, SendTokens(w, l, f, id, a), id) ==
            Measure(w, l, id) - if IsEffective(w, l, f, id) then 1 else 0
  {
  }

  function MembersIn(signatures: seq<Signature>): set<Federator> {
    if signatures == [] then {} else MembersIn(signatures[..|signatures| - 1]) + {signatures[|signatures| - 1].member}
  }

  lemma {:induction false} FewMembers(signatures: seq<Signature>)
    ensures |MembersIn(signatures)| <= |signatures|
    ensures forall i | 0 <= i < |signatures| :: signatures[i].member in MembersIn(signatures)
  {
    if signatures != [] {
      FewMembers(signatures[..|signatures| - 1]);
    }
  }

  lemma {:induction false} SmallerSetMisses<T>(small: set<T>, large: set<T>) returns (x: T)
    requires |small| < |large|
    ensures x in large && x !in small
  {
    var y :| y in large;
    if y !in small {
      x := y;
    } else {
      x := SmallerSetMisses(small - {y}, large - {y});
    }
  }

  /** With a proposer and enough members, there is always one. */
  lemma SomeoneIsEffective(w: World, l: Ledger, id: TransactionId, members: set<Federator>) returns (f: Federator)
    requires Open(w, l, id, members) && |members| >= w.maxSignatures.value
    requires exists p :: p in members && w.multisigOrder(p) <= 1
    ensures f in members && IsEffective(w, l, f, id)
  {
    var signatures := SignaturesOf(l, id);
    if id !in l.hex {
      f :| f in members && w.multisigOrder(f) <= 1;
    } else if |signatures| < w.maxSignatures.value {
      FewMembers(signatures);
      f := SmallerSetMisses(MembersIn(signatures), members);
    } else {
      f := signatures[0].member;
    }
  }

  // ---------- the push that nobody records ----------

  ghost predicate SomeoneRecords(s: State, id: TransactionId) {
    exists f :: PcOf(s, f, id) == Pushed(true)
  }

  /** The proposal for id can no longer be pushed, and id is not processed. */
  ghost predicate Stuck(w: World, s: State, id: TransactionId) {
    && id !in s.ledger.processed && id in s.ledger.hex
    && !(SpentBy(w.decode(s.ledger.hex[id])) !! s.ledger.spent)
    && !SomeoneRecords(s, id)
  }

  lemma StuckStays(w: World, s: State, x: Action, id: TransactionId)
    requires Inv(w, s) && Stuck(w, s, id)
    ensures Stuck(w, Step(w, s, x), id)
  {
    var pc, s' := PcOf(s, x.member, x.id), Step(w, s, x);
    assert PcOk(w, s.ledger, pc, x.member, x.id);
    AdvanceGrows(w, s.ledger, pc, x.member, x.id, x.answers);
    forall f
      ensures PcOf(s', f, id) != Pushed(true)
    {
      assert PcOf(s, f, id) != Pushed(true);
      if (f, id) != (x.member, x.id) {
        assert PcOf(s', f, id) == PcOf(s, f, id);
      }
    }
  }

  lemma {:induction false} StuckForever(w: World, s: State, actions: seq<Action>, id: TransactionId)
    requires Inv(w, s) && Stuck(w, s, id)
    ensures Stuck(w, RunFrom(w, s, actions), id)
  {
    if actions != [] {
      StuckForever(w, s, actions[..|actions| - 1], id);
      RunFromKeepsInv(w, s, actions[..|actions| - 1]);
      StuckStays(w, RunFrom(w, s, actions[..|actions| - 1]), actions[|actions| - 1], id);
    }
  }

  /** Once a proposal that spends something was pushed, its id can still become processed if
      and only if the federator that pushed it has yet to record that. Later attempts fail on
      the spent inputs and record failure, whoever makes them. */
  lemma RecordedOrNever(w: World, s: State, id: TransactionId)
    requires Inv(w, s) && WasPushed(s.ledger, id) && id !in s.ledger.processed
    requires w.decode(s.ledger.hex[id]).inputs != []
    ensures (exists actions :: id in RunFrom(w, s, actions).ledger.processed) <==> SomeoneRecords(s, id)
  {
    if SomeoneRecords(s, id) {
      var f :| PcOf(s, f, id) == Pushed(true);
      var x := Action(f, id, Answers("", None, false, true, false));
      OneStep(w, s, x);
      assert id in RunFrom(w, s, [x]).ledger.processed;
    } else {
      var k :| 0 <= k < |s.ledger.pushes| && s.ledger.pushes[k].id == id;
      assert PushOk(w, s.ledger, s.ledger.pushes[k]);
      SpendsSomething(w.decode(s.ledger.hex[id]));
      forall actions
        ensures id !in RunFrom(w, s, actions).ledger.processed
      {
        StuckForever(w, s, actions, id);
      }
    }
  }
}
