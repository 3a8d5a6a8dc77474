/** Every fair run gets a transfer done: any interleaving of single remote calls of any number of
    federators, with other transfers in between. */
module Fairness {
  import opened Progress
  import opened Protocol
  import opened Quorum
  import opened Utxo
  import opened Wrappers

  /** What is left to do, the push counted apart from its record. */
  ghost function Todo(w: World, l: Ledger, id: TransactionId): nat
    requires w.maxSignatures.Some?
  {
    Measure(w, l, id) + if WasPushed(l, id) then 0 else 1
  }

  /** The remote call goes well: it does not fail, a ledger transaction is mined with success, a
      validation accepts, and the first push for the id is taken. */
  ghost predicate GoesWell(w: World, s: State, x: Action) {
    var l := s.ledger;
    && !x.answers.fails && x.answers.receipt
    && match PcOf(s, x.member, x.id)
       case Drafted(hex) => x.id in l.processed || Validates(w, x.id, hex, x.answers.original, false)
       case SignRead(hex) => x.id in l.processed || Validates(w, x.id, hex, x.answers.original, false)
       case Counted(hex) => x.id in l.processed || Validates(w, x.id, hex, x.answers.original, false)
       case Ready(hex, _) => WasPushed(l, x.id) || (x.answers.pushAccepted && SpentBy(w.decode(hex)) !! l.spent)
       case _ => true
  }

  /** If x is about id it is a member's call that goes well. */
  ghost predicate Helps(w: World, s: State, x: Action, id: TransactionId, members: set<Federator>) {
    x.id == id ==> x.member in members && GoesWell(w, s, x)
  }

  /** A known transfer among enough members with a proposer; whoever signed or is in the middle
      of a call for it is a member; and if it was pushed that is recorded or about to be. */
  ghost predicate OnItsWay(w: World, s: State, id: TransactionId, members: set<Federator>) {
    && w.maxSignatures.Some? && 1 <= w.maxSignatures.value <= |members|
    && (exists p :: p in members && w.multisigOrder(p) <= 1)
    && IsKnown(w, id) && Members(s.ledger, id, members)
    && (forall f | PcOf(s, f, id) != Idle :: f in members)
    && (WasPushed(s.ledger, id) ==> id in s.ledger.processed || SomeoneRecords(s, id))
  }

  /** The federators whose calls for id lead on. */
  ghost predicate CanHelp(w: World, s: State, g: Federator, id: TransactionId)
    requires w.maxSignatures.Some?
  {
    if WasPushed(s.ledger, id) then PcOf(s, g, id) == Pushed(true) else IsEffective(w, s.ledger, g, id)
  }

  /** How many calls such a federator needs at most: the rest of the call it is in, if that does
      not lead on, and a fresh one. */
  ghost function CallsLeft(w: World, s: State, g: Federator, id: TransactionId): (n: nat)
    requires w.maxSignatures.Some?
    ensures 1 <= n <= 15
  {
    var l, pc := s.ledger, PcOf(s, g, id);
    if WasPushed(l, id) then 1
    else if id !in l.hex then
      match pc
      case Idle => 6 case NotProcessed => 5 case NotSigned => 4 case ToPropose => 3 case Drafted(_) => 2 case ProposeValid(_) => 1
      case _ => Rank(pc) + 6
    else if |SignaturesOf(l, id)| < w.maxSignatures.value then
      match pc
      case Idle => 6 case NotProcessed => 5 case NotSigned => 4 case ToSign => 3 case SignRead(_) => 2 case SignValid(_) => 1
      case _ => Rank(pc) + 6
    else
      match pc
      case Idle => 8 case NotProcessed => 7 case Signed => 6 case ToPush(_) => 5 case Counted(_) => 4
      case PushValid(_) => 3 case Ready(_, _) => 2
      case _ => Rank(pc) + 8
  }

  // ---------- one step ----------

  lemma PushedStays(l: Ledger, l': Ledger, f: Federator, i: TransactionId, id: TransactionId)
    requires Grows(l, l', f, i) && WasPushed(l, id)
    ensures WasPushed(l', id)
  {
    var k :| 0 <= k < |l.pushes| && l.pushes[k].id == id;
    assert l'.pushes[k] == l.pushes[k];
  }

  lemma StepShrinksTodo(w: World, s: State, x: Action, id: TransactionId)
    requires w.maxSignatures.Some?
    ensures Todo(w, Step(w, s, x).ledger, id) <= Todo(w, s.ledger, id)
    ensures WasPushed(s.ledger, id) ==> WasPushed(Step(w, s, x).ledger, id)
  {
    hide Advance;
    var l' := Step(w, s, x).ledger;
    AdvanceGrows(w, s.ledger, PcOf(s, x.member, x.id), x.member, x.id, x.answers);
    GrowthShrinksMeasure(w, s.ledger, l', x.member, x.id, id);
    if WasPushed(s.ledger, id) {
      PushedStays(s.ledger, l', x.member, x.id, id);
    }
  }

  /** Who pushes for the first time is about to record it. */
  lemma PusherRecords(w: World, s: State, x: Action, id: TransactionId)
    requires x.id == id ==> x.answers.receipt
    requires !WasPushed(s.ledger, id) && WasPushed(Step(w, s, x).ledger, id)
    ensures x.id == id && PcOf(Step(w, s, x), x.member, id) == Pushed(true)
  {
    var l, l', pc := s.ledger, Step(w, s, x).ledger, PcOf(s, x.member, x.id);
    PushesGrowByOne(w, l, pc, x.member, x.id, x.answers);
    assert forall k | 0 <= k < |l.pushes| :: l.pushes[k].id != id;
    var k :| 0 <= k < |l'.pushes| && l'.pushes[k].id == id;
    if l'.pushes != l.pushes {
      assert k == |l.pushes|;
    }
  }

  lemma RecorderStays(w: World, s: State, x: Action, id: TransactionId, members: set<Federator>)
    requires Helps(w, s, x, id, members) && WasPushed(s.ledger, id)
    requires id in s.ledger.processed || SomeoneRecords(s, id)
    ensures id in Step(w, s, x).ledger.processed || SomeoneRecords(Step(w, s, x), id)
  {
    if id !in s.ledger.processed {
      var f :| PcOf(s, f, id) == Pushed(true);
      if (f, id) != (x.member, x.id) {
        assert PcOf(Step(w, s, x), f, id) == Pushed(true);
      }
    } else {
      AdvanceGrows(w, s.ledger, PcOf(s, x.member, x.id), x.member, x.id, x.answers);
    }
  }

  lemma StaysOnItsWay(w: World, s: State, x: Action, id: TransactionId, members: set<Federator>)
    requires OnItsWay(w, s, id, members) && Helps(w, s, x, id, members)
    ensures OnItsWay(w, Step(w, s, x), id, members)
  {
    hide Advance;
    var s' := Step(w, s, x);
    AdvanceGrows(w, s.ledger, PcOf(s, x.member, x.id), x.member, x.id, x.answers);
    forall f | PcOf(s', f, id) != Idle
      ensures f in members
    {
      if (f, id) != (x.member, x.id) {
        assert PcOf(s', f, id) == PcOf(s, f, id);
      }
    }
    if WasPushed(s.ledger, id) {
      RecorderStays(w, s, x, id, members);
    } else if WasPushed(s'.ledger, id) {
      PusherRecords(w, s, x, id);
    }
  }

  /** A step of anybody else leaves the helper where it is, or brings progress itself. */
  lemma OthersLeaveHelper(w: World, s: State, x: Action, id: TransactionId, g: Federator)
    requires w.maxSignatures.Some? && CanHelp(w, s, g, id) && (x.member, x.id) != (g, id)
    requires Todo(w, Step(w, s, x).ledger, id) == Todo(w, s.ledger, id)
    ensures CanHelp(w, Step(w, s, x), g, id) && CallsLeft(w, Step(w, s, x), g, id) == CallsLeft(w, s, g, id)
  {
    hide Advance;
    var l, s' := s.ledger, Step(w, s, x);
    AdvanceGrows(w, l, PcOf(s, x.member, x.id), x.member, x.id, x.answers);
    GrowthShrinksMeasure(w, l, s'.ledger, x.member, x.id, id);
    StepShrinksTodo(w, s, x, id);
    SignaturesPrefix(l, s'.ledger, x.member, x.id, id);
    assert PcOf(s', g, id) == PcOf(s, g, id);
    if IsSigned(l, id, g) {
      var i :| 0 <= i < |SignaturesOf(l, id)| && SignaturesOf(l, id)[i].member == g;
      assert SignaturesOf(s'.ledger, id)[i].member == g;
    }
  }

  /** If nothing less is left to do, every part of it is as it was. */
  lemma SameTodo(w: World, s: State, x: Action, id: TransactionId)
    requires w.maxSignatures.Some?
    requires Todo(w, Step(w, s, x).ledger, id) == Todo(w, s.ledger, id)
    ensures var l, l' := s.ledger, Step(w, s, x).ledger;
            && (id in l'.hex <==> id in l.hex) && (id in l'.processed <==> id in l.processed)
            && (WasPushed(l', id) <==> WasPushed(l, id))
            && (|SignaturesOf(l', id)| == |SignaturesOf(l, id)| || |SignaturesOf(l, id)| >= w.maxSignatures.value)
            && |SignaturesOf(l', id)| >= |SignaturesOf(l, id)|
  {
    hide Advance;
    AdvanceGrows(w, s.ledger, PcOf(s, x.member, x.id), x.member, x.id, x.answers);
    SignaturesPrefix(s.ledger, Step(w, s, x).ledger, x.member, x.id, id);
    StepShrinksTodo(w, s, x, id);
  }

  /** What one step of a helper that goes well brings. */
  ghost predicate TakesOn(w: World, s: State, x: Action, id: TransactionId)
    requires w.maxSignatures.Some?
  {
    CanHelp(w, Step(w, s, x), x.member, id) && CallsLeft(w, Step(w, s, x), x.member, id) < CallsLeft(w, s, x.member, id)
  }

  lemma HelperProposes(w: World, s: State, x: Action, id: TransactionId)
    requires Inv(w, s) && w.maxSignatures.Some? && IsKnown(w, id) && id !in s.ledger.processed && !WasPushed(s.ledger, id)
    requires id !in s.ledger.hex && w.multisigOrder(x.member) <= 1 && x.id == id && GoesWell(w, s, x)
    requires Todo(w, Step(w, s, x).ledger, id) == Todo(w, s.ledger, id)
    ensures TakesOn(w, s, x, id)
  {
    SameTodo(w, s, x, id);
    hide Todo, WasPushed;
    assert SignaturesOk(s.ledger, id);
  }

  lemma HelperSigns(w: World, s: State, x: Action, id: TransactionId)
    requires Inv(w, s) && w.maxSignatures.Some? && IsKnown(w, id) && id !in s.ledger.processed && !WasPushed(s.ledger, id)
    requires id in s.ledger.hex && |SignaturesOf(s.ledger, id)| < w.maxSignatures.value
    requires !IsSigned(s.ledger, id, x.member) && x.id == id && GoesWell(w, s, x)
    requires Todo(w, Step(w, s, x).ledger, id) == Todo(w, s.ledger, id)
    ensures TakesOn(w, s, x, id)
  {
    SameTodo(w, s, x, id);
    hide Todo, WasPushed;
  }

  lemma HelperPushes(w: World, s: State, x: Action, id: TransactionId)
    requires Inv(w, s) && w.maxSignatures.Some? && IsKnown(w, id) && id !in s.ledger.processed && !WasPushed(s.ledger, id)
    requires id in s.ledger.hex && |SignaturesOf(s.ledger, id)| >= w.maxSignatures.value
    requires IsSigned(s.ledger, id, x.member) && x.id == id && GoesWell(w, s, x)
    requires Todo(w, Step(w, s, x).ledger, id) == Todo(w, s.ledger, id)
    ensures TakesOn(w, s, x, id)
  {
    var l, l', pc := s.ledger, Step(w, s, x).ledger, PcOf(s, x.member, id);
    assert PcOk(w, l, pc, x.member, id);
    SameTodo(w, s, x, id);
    SignedStays(w, s, x, id, x.member);
    if pc.Ready? {
      LastPush(l, l', Push(x.member, id, pc.hex, pc.signatures));
    }
  }

  lemma LastPush(l: Ledger, l': Ledger, p: Push)
    ensures l'.pushes == l.pushes + [p] ==> WasPushed(l', p.id)
  {
    if l'.pushes == l.pushes + [p] {
      assert l'.pushes[|l.pushes|].id == p.id;
    }
  }

  lemma SignedStays(w: World, s: State, x: Action, id: TransactionId, g: Federator)
    requires IsSigned(s.ledger, id, g)
    ensures IsSigned(Step(w, s, x).ledger, id, g)
  {
    hide Advance;
    AdvanceGrows(w, s.ledger, PcOf(s, x.member, x.id), x.member, x.id, x.answers);
    SignaturesPrefix(s.ledger, Step(w, s, x).ledger, x.member, x.id, id);
    var i :| 0 <= i < |SignaturesOf(s.ledger, id)| && SignaturesOf(s.ledger, id)[i].member == g;
    assert SignaturesOf(Step(w, s, x).ledger, id)[i].member == g;
  }

  /** The helper's own step takes it on, or is the progress. */
  lemma HelperStep(w: World, s: State, x: Action, id: TransactionId, members: set<Federator>)
    requires Inv(w, s) && OnItsWay(w, s, id, members) && id !in s.ledger.processed
    requires x.id == id && CanHelp(w, s, x.member, id) && Helps(w, s, x, id, members)
    requires Todo(w, Step(w, s, x).ledger, id) == Todo(w, s.ledger, id)
    ensures TakesOn(w, s, x, id)
  {
    var l := s.ledger;
    if WasPushed(l, id) {
      SameTodo(w, s, x, id);
      assert false;
    } else {
      hide Advance;
      if id !in l.hex {
        HelperProposes(w, s, x, id);
      } else if |SignaturesOf(l, id)| < w.maxSignatures.value {
        HelperSigns(w, s, x, id);
      } else {
        HelperPushes(w, s, x, id);
      }
    }
  }

  // ---------- a stretch of a run ----------

  /** How many of the actions are f's on id. */
  function Turns(actions: seq<Action>, f: Federator, id: TransactionId): nat {
    if actions == [] then 0
    else Turns(actions[..|actions| - 1], f, id)
         + if (actions[|actions| - 1].member, actions[|actions| - 1].id) == (f, id) then 1 else 0
  }

  /** Every call for id in the stretch is a member's and goes well. */
  ghost predicate Smooth(w: World, s: State, actions: seq<Action>, id: TransactionId, members: set<Federator>) {
    forall k | 0 <= k < |actions| :: Helps(w, RunFrom(w, s, actions[..k]), actions[k], id, members)
  }

  lemma SmoothSplit(w: World, s: State, one: seq<Action>, two: seq<Action>, id: TransactionId, members: set<Federator>)
    requires Smooth(w, s, one + two, id, members)
    ensures Smooth(w, s, one, id, members) && Smooth(w, RunFrom(w, s, one), two, id, members)
  {
    hide RunFrom, Helps;
    forall k | 0 <= k < |one|
      ensures Helps(w, RunFrom(w, s, one[..k]), one[k], id, members)
    {
      assert (one + two)[..k] == one[..k] && (one + two)[k] == one[k];
    }
    forall k | 0 <= k < |two|
      ensures Helps(w, RunFrom(w, RunFrom(w, s, one), two[..k]), two[k], id, members)
    {
      assert (one + two)[..|one| + k] == one + two[..k] && (one + two)[|one| + k] == two[k];
      RunConcat(w, s, one, two[..k]);
    }
  }

  lemma SmoothSnoc(w: World, s: State, actions: seq<Action>, id: TransactionId, members: set<Federator>)
    requires actions != [] && Smooth(w, s, actions, id, members)
    ensures var before, x := actions[..|actions| - 1], actions[|actions| - 1];
            Smooth(w, s, before, id, members) && Helps(w, RunFrom(w, s, before), x, id, members)
  {
    hide RunFrom, Helps;
    assert actions == actions[..|actions| - 1] + [actions[|actions| - 1]];
    SmoothSplit(w, s, actions[..|actions| - 1], [actions[|actions| - 1]], id, members);
  }

  lemma {:induction false} SmoothRun(w: World, s: State, actions: seq<Action>, id: TransactionId, members: set<Federator>)
    requires Inv(w, s) && OnItsWay(w, s, id, members) && Smooth(w, s, actions, id, members)
    ensures var s' := RunFrom(w, s, actions);
            && Inv(w, s') && OnItsWay(w, s', id, members) && Todo(w, s'.ledger, id) <= Todo(w, s.ledger, id)
            && (id in s.ledger.processed ==> id in s'.ledger.processed)
    decreases |actions|
  {
    assert w.maxSignatures.Some?;
    hide Inv, OnItsWay, Helps, Todo, Step;
    if actions != [] {
      var before, x := actions[..|actions| - 1], actions[|actions| - 1];
      SmoothSnoc(w, s, actions, id, members);
      SmoothRun(w, s, before, id, members);
      var s1 := RunFrom(w, s, before);
      StepKeepsInv(w, s1, x);
      StaysOnItsWay(w, s1, x, id, members);
      ProcessedStays(w, s1, x, id);
      StepShrinksTodo(w, s1, x, id);
    }
  }

  lemma ProcessedStays(w: World, s: State, x: Action, id: TransactionId)
    ensures id in s.ledger.processed ==> id in Step(w, s, x).ledger.processed
  {
    hide Advance;
    AdvanceGrows(w, s.ledger, PcOf(s, x.member, x.id), x.member, x.id, x.answers);
  }

  /** Either something gets done in the stretch, or its helper gets ahead with each of its turns. */
  ghost predicate GetsAhead(w: World, s: State, s': State, turns: nat, id: TransactionId, g: Federator)
    requires w.maxSignatures.Some?
  {
    || id in s'.ledger.processed
    || Todo(w, s'.ledger, id) < Todo(w, s.ledger, id)
    || (CanHelp(w, s', g, id) && CallsLeft(w, s', g, id) + turns <= CallsLeft(w, s, g, id)
        && Todo(w, s'.ledger, id) == Todo(w, s.ledger, id))
  }

  lemma OneStepAhead(w: World, s: State, s1: State, turns: nat, x: Action, id: TransactionId, members: set<Federator>, g: Federator)
    requires Inv(w, s1) && OnItsWay(w, s1, id, members) && Helps(w, s1, x, id, members)
    requires GetsAhead(w, s, s1, turns, id, g)
    ensures GetsAhead(w, s, Step(w, s1, x), turns + if (x.member, x.id) == (g, id) then 1 else 0, id, g)
  {
    StepShrinksTodo(w, s1, x, id);
    ProcessedStays(w, s1, x, id);
    hide Todo, CanHelp, CallsLeft, Helps, Inv, Step;
    assert OnItsWay(w, s1, id, members);
    if id !in s1.ledger.processed && Todo(w, Step(w, s1, x).ledger, id) == Todo(w, s.ledger, id)
       && Todo(w, s1.ledger, id) == Todo(w, s.ledger, id) {
      if (x.member, x.id) == (g, id) {
        HelperStep(w, s1, x, id, members);
      } else {
        OthersLeaveHelper(w, s1, x, id, g);
      }
    }
  }

  lemma {:induction false} HelperGetsAhead(w: World, s: State, actions: seq<Action>, id: TransactionId, members: set<Federator>,
                                           g: Federator)
    requires Inv(w, s) && OnItsWay(w, s, id, members) && Smooth(w, s, actions, id, members) && CanHelp(w, s, g, id)
    ensures GetsAhead(w, s, RunFrom(w, s, actions), Turns(actions, g, id), id, g)
    decreases |actions|
  {
    hide Inv, Helps, Todo, CanHelp, CallsLeft, Step;
    if actions != [] {
      var before, x := actions[..|actions| - 1], actions[|actions| - 1];
      SmoothSnoc(w, s, actions, id, members);
      HelperGetsAhead(w, s, before, id, members, g);
      SmoothRun(w, s, before, id, members);
      OneStepAhead(w, s, RunFrom(w, s, before), Turns(before, g, id), x, id, members, g);
    }
  }

  /** With a proposer and enough members there is always one whose calls lead on. */
  lemma SomeoneCanHelp(w: World, s: State, id: TransactionId, members: set<Federator>) returns (g: Federator)
    requires Inv(w, s) && OnItsWay(w, s, id, members) && id !in s.ledger.processed
    ensures g in members && CanHelp(w, s, g, id)
  {
    if WasPushed(s.ledger, id) {
      g :| PcOf(s, g, id) == Pushed(true);
    } else {
      assert SignaturesOk(s.ledger, id);
      g := SomeoneIsEffective(w, s.ledger, id, members);
    }
  }

  const ENOUGH_TURNS := 15

  /** Every member has its turns: enough to finish a call and to make another one. */
  predicate IsRound(actions: seq<Action>, id: TransactionId, members: set<Federator>) {
    forall f | f in members :: Turns(actions, f, id) >= ENOUGH_TURNS
  }

  /** In a stretch in which every member has its turns something gets done. */
  lemma {:induction false} RoundBringsProgress(w: World, s: State, actions: seq<Action>, id: TransactionId, members: set<Federator>)
    requires Inv(w, s) && OnItsWay(w, s, id, members) && Smooth(w, s, actions, id, members)
    requires id !in s.ledger.processed && IsRound(actions, id, members)
    ensures var s' := RunFrom(w, s, actions);
            id in s'.ledger.processed || Todo(w, s'.ledger, id) < Todo(w, s.ledger, id)
  {
    var g := SomeoneCanHelp(w, s, id, members);
    hide Inv, Smooth, CanHelp, Todo, RunFrom;
    HelperGetsAhead(w, s, actions, id, members, g);
    assert Turns(actions, g, id) >= ENOUGH_TURNS;
  }

  function Flatten(rounds: seq<seq<Action>>): seq<Action>
    decreases |rounds|
  {
    if rounds == [] then [] else rounds[0] + Flatten(rounds[1..])
  }

  /** A transfer on its way is processed after as many rounds as there is left to do, at most
      maxSignatures + 3: whatever the order of the calls in a round, whatever answer each of
      them gets as long as those for this transfer go well, and whatever else is done. */
  lemma {:induction false} FairRoundsProcess(w: World, s: State, rounds: seq<seq<Action>>, id: TransactionId, members: set<Federator>)
    requires Inv(w, s) && OnItsWay(w, s, id, members) && Smooth(w, s, Flatten(rounds), id, members)
    requires |rounds| >= Todo(w, s.ledger, id) && forall r | r in rounds :: IsRound(r, id, members)
    ensures id in RunFrom(w, s, Flatten(rounds)).ledger.processed
    ensures Todo(w, s.ledger, id) <= w.maxSignatures.value + 3
    decreases |rounds|
  {
    hide Inv, Smooth, IsRound;
    if rounds != [] {
      var one, two := rounds[0], Flatten(rounds[1..]);
      SmoothSplit(w, s, one, two, id, members);
      RunConcat(w, s, one, two);
      SmoothRun(w, s, one, id, members);
      var s1 := RunFrom(w, s, one);
      if id in s1.ledger.processed {
        SmoothRun(w, s1, two, id, members);
      } else {
        assert one in rounds;
        RoundBringsProgress(w, s, one, id, members);
        assert forall r | r in rounds[1..] :: r in rounds;
        FairRoundsProcess(w, s1, rounds[1..], id, members);
      }
    }
  }

  /** So every fair run gets there, from every reachable state: also from the middle of calls,
      as long as no push has been left unrecorded. */
  lemma {:induction false} FairRunProcesses(w: World, history: seq<Action>, rounds: seq<seq<Action>>, id: TransactionId, members: set<Federator>)
    requires OnItsWay(w, Run(w, history), id, members)
    requires Smooth(w, Run(w, history), Flatten(rounds), id, members)
    requires |rounds| >= w.maxSignatures.value + 3 && forall r | r in rounds :: IsRound(r, id, members)
    ensures id in Run(w, history + Flatten(rounds)).ledger.processed
  {
    assert w.maxSignatures.Some?;
    hide OnItsWay, Smooth, IsRound;
    RunKeepsInv(w, history);
    FairRoundsProcess(w, Run(w, history), rounds, id, members);
    RunConcat(w, INITIAL, history, Flatten(rounds));
  }
}
