/** `voteOnEvm` of federator/src/lib/Broker/HathorBroker.ts with `_voteTransaction` of
    federator/src/lib/FederatorHTR.ts: one federator's votes on the EVM federation contract
    and the file of votes that were reverted. */
module Votes {
  import opened Wrappers
  import opened TransactionIds

  datatype Vote = Vote(tokenAddress: string, sender: string, receiver: string, amount: nat, hash: string)

  type Entries = map<string, Vote>

  /** What the outside answers during one call: whether `transactionWasProcessed` and all before
      it returns, whether `hasVoted` does, whether the node takes a transaction, and the
      receipt's status. A call that gets no answer throws. */
  datatype Answers = Answers(ledger: bool, voted: bool, node: bool, receipt: bool)

  datatype Call = Call(id: string, vote: Vote, answers: Answers)

  datatype Sent = Sent(id: string, success: bool)

  /** The file, the contract's records about this federator (ids as the contract compares them,
      which is without case), and the transactions sent so far. */
  datatype State = State(file: Option<Entries>, voted: set<string>, processed: set<string>, sent: seq<Sent>)

  datatype Exception = NoAnswer | CannotSerialize

  function Reverted(file: Option<Entries>): Entries {
    match file case None => map[] case Some(entries) => entries
  }

  /** A call up to the transaction it sends, with the entries it has read, or its result. */
  datatype Opening = Ended(result: Result<bool, Exception>) | Pending(id: string, vote: Vote, entries: Entries)

  function Open(s: State, c: Call): Opening {
    var id := Lower(c.id);
    if !c.answers.ledger then Ended(Failure(NoAnswer))
    else if id in s.processed then Ended(Success(true))
    else if !c.answers.voted then Ended(Failure(NoAnswer))
    else if id in s.voted then Ended(Success(true))
    else if id in Reverted(s.file) then Ended(Success(false))
    else if !c.answers.node then Ended(Failure(NoAnswer))
    else Pending(id, c.vote, Reverted(s.file))
  }

  /** What follows the receipt. The entry to be written holds the amount, a bigint, which
      JSON.stringify refuses unless the runtime gives bigints a toJSON method. */
  function Close(s: State, p: Opening, receipt: bool, toJson: bool): (State, Result<bool, Exception>)
    requires p.Pending?
  {
    var s' := s.(sent := s.sent + [Sent(p.id, receipt)]);
    if receipt then (s'.(voted := s.voted + {p.id}), Success(true))
    else if !toJson then (s', Failure(CannotSerialize))
    else (s'.(file := Some(p.entries[p.id := p.vote])), Success(false))
  }

  function Voting(s: State, c: Call, toJson: bool): (State, Result<bool, Exception>) {
    var p := Open(s, c);
    if p.Ended? then (s, p.result) else Close(s, p, c.answers.receipt, toJson)
  }

  // ---------- the classes ----------

  /** The federation contract, as this federator sees it. */
  class Federation {
    var voted: set<string>
    var processed: set<string>

    constructor ()
      ensures voted == {} && processed == {}
    {
      voted, processed := {}, {};
    }

    predicate TransactionWasProcessed(id: string)
      reads this
    {
      Lower(id) in processed
    }

    predicate HasVoted(id: string)
      reads this
    {
      Lower(id) in voted
    }

    /** A vote that succeeds is on record. */
    method VoteTransaction(id: string, receipt: bool)
      modifies this
      ensures voted == (if receipt then old(voted) + {Lower(id)} else old(voted)) && processed == old(processed)
    {
      if receipt {
        voted := voted + {Lower(id)};
      }
    }
  }

  class Voter {
    const federation: Federation
    const toJson: bool
    var file: Option<Entries>
    var sent: seq<Sent>

    constructor (federation: Federation, toJson: bool, file: Option<Entries>)
      ensures this.federation == federation && this.toJson == toJson && this.file == file && sent == []
    {
      this.federation, this.toJson, this.file := federation, toJson, file;
      this.sent := [];
    }

    ghost function View(): State
      reads this, federation
    {
      State(file, federation.voted, federation.processed, sent)
    }

    method IsTransactionVotedOrProcessed(id: string, answers: Answers) returns (r: Result<bool, Exception>)
      ensures r == if !answers.ledger || (Lower(id) !in federation.processed && !answers.voted) then Failure(NoAnswer)
                   else Success(Lower(id) in federation.processed + federation.voted)
    {
      if !answers.ledger {
        return Failure(NoAnswer);
      }
      if federation.TransactionWasProcessed(id) {
        return Success(true);
      }
      if !answers.voted {
        return Failure(NoAnswer);
      }
      r := Success(federation.HasVoted(id));
    }

    method VoteTransaction(transactionId: string, vote: Vote, answers: Answers) returns (r: Result<bool, Exception>)
      modifies this, federation
      ensures federation.processed == old(federation.processed)
      ensures var id := Lower(transactionId);
              (View(), r) ==
              if id in Reverted(old(file)) then (old(View()), Success(false))
              else if !answers.node then (old(View()), Failure(NoAnswer))
              else Close(old(View()), Pending(id, vote, Reverted(old(file))), answers.receipt, toJson)
    {
      LowerTwice(transactionId);
      var id := Lower(transactionId);
      var reverted: Entries := map[];
      if file.Some? {
        reverted := file.value;
      }
      if id in reverted {
        return Success(false);
      }
      if !answers.node {
        return Failure(NoAnswer);
      }
      federation.VoteTransaction(id, answers.receipt);
      sent := sent + [Sent(id, answers.receipt)];
      if !answers.receipt {
        if !toJson {
          return Failure(CannotSerialize);
        }
        file := Some(reverted[id := vote]);
        return Success(false);
      }
      r := Success(true);
    }

    method VoteOnEvm(c: Call) returns (r: Result<bool, Exception>)
      modifies this, federation
      ensures (View(), r) == Voting(old(View()), c, toJson)
    {
      var seen := IsTransactionVotedOrProcessed(c.id, c.answers);
      if seen.Failure? {
        return seen;
      }
      if seen.value {
        return Success(true);
      }
      r := VoteTransaction(c.id, c.vote, c.answers);
    }
  }

  lemma LowerTwice(s: string)
    ensures Lower(Lower(s)) == Lower(s)
  {
  }

  /** One call in full: when it sends, what it records, and what it returns. It returns true
      exactly if the id is voted or processed afterwards, and throws for want of an answer or,
      after a failed receipt, if the entry cannot be written. */
  lemma VotingIs(s: State, c: Call, toJson: bool)
    ensures var (t, r) := Voting(s, c, toJson);
            var id, a := Lower(c.id), c.answers;
            var done, listed := id in s.voted + s.processed, id in Reverted(s.file);
            var sends := a.ledger && a.voted && a.node && !done && !listed;
            && t.sent == (if sends then s.sent + [Sent(id, a.receipt)] else s.sent)
            && t.voted == (if sends && a.receipt then s.voted + {id} else s.voted) && t.processed == s.processed
            && Reverted(t.file) == (if sends && !a.receipt && toJson then Reverted(s.file)[id := c.vote] else Reverted(s.file))
            && (r.Success? ==> (r.value <==> id in t.voted + t.processed))
            && (r == Failure(CannotSerialize) <==> sends && !a.receipt && !toJson)
            && (r == Failure(NoAnswer) <==>
                !a.ledger || (!a.voted && id !in s.processed) || (!a.node && !done && !listed))
  {
  }

  // ---------- sequences of calls ----------

  /** A call, or what others bring about between calls: the contract's records only grow, also
      by a transaction of this federator that was reported failed but is mined late. */
  datatype Step = Calls(call: Call) | Others(voted: set<string>, processed: set<string>)

  function Take(s: State, x: Step, toJson: bool): State {
    match x
    case Calls(c) => Voting(s, c, toJson).0
    case Others(voted, processed) => s.(voted := s.voted + voted, processed := s.processed + processed)
  }

  function Run(s: State, steps: seq<Step>, toJson: bool): State {
    if steps == [] then s else Take(Run(s, steps[..|steps| - 1], toJson), steps[|steps| - 1], toJson)
  }

  predicate WasSent(sent: seq<Sent>, id: string, success: bool) {
    Sent(id, success) in sent
  }

  /** The log from s to t says exactly what happened to the file and to the votes. */
  ghost predicate Tells(s: State, t: State, toJson: bool) {
    && s.voted <= t.voted && s.processed <= t.processed
    && s.sent == []
    && (forall id | WasSent(t.sent, id, true) :: id in t.voted)
    && (forall id | id in Reverted(s.file) :: id in Reverted(t.file) && Reverted(t.file)[id] == Reverted(s.file)[id])
    && (forall id :: id in Reverted(t.file) <==> id in Reverted(s.file) || (toJson && WasSent(t.sent, id, false)))
    && (forall i, j | 0 <= i < j < |t.sent| && t.sent[i].id == t.sent[j].id :: !t.sent[i].success && !toJson)
  }

  lemma TakeTells(s: State, t: State, x: Step, toJson: bool)
    requires Tells(s, t, toJson)
    ensures Tells(s, Take(t, x, toJson), toJson)
  {
    var t' := Take(t, x, toJson);
    if x.Calls? && Open(t, x.call).Pending? {
      var id := Lower(x.call.id);
      assert t'.sent == t.sent + [Sent(id, x.call.answers.receipt)];
      assert forall i | 0 <= i < |t.sent| :: t'.sent[i] == t.sent[i] && WasSent(t.sent, t.sent[i].id, t.sent[i].success);
      assert forall other, success | WasSent(t'.sent, other, success) ::
          WasSent(t.sent, other, success) || Sent(other, success) == Sent(id, x.call.answers.receipt);
    }
  }

  lemma {:induction false} RunTells(s: State, steps: seq<Step>, toJson: bool)
    requires s.sent == []
    ensures Tells(s, Run(s, steps, toJson), toJson)
    decreases |steps|
  {
    if steps != [] {
      RunTells(s, steps[..|steps| - 1], toJson);
      TakeTells(s, Run(s, steps[..|steps| - 1], toJson), steps[|steps| - 1], toJson);
    }
  }

  /** A successful vote is the last transaction sent for its id, whatever the runtime and
      whatever else happens: at most one succeeds. */
  lemma NothingAfterSuccess(s: State, steps: seq<Step>, toJson: bool, i: nat, j: nat)
    requires s.sent == [] && i < j < |Run(s, steps, toJson).sent|
    requires Run(s, steps, toJson).sent[i].success
    ensures Run(s, steps, toJson).sent[i].id != Run(s, steps, toJson).sent[j].id
  {
    RunTells(s, steps, toJson);
  }

  /** The file keeps every entry as it is, and gains exactly the ids whose receipt failed -- or
      nothing, if they cannot be written. */
  lemma {:induction false} FileOnlyGrows(s: State, steps: seq<Step>, toJson: bool)
    requires s.sent == []
    ensures var before, after := Reverted(s.file), Reverted(Run(s, steps, toJson).file);
            && (forall id | id in before :: id in after && after[id] == before[id])
            && (forall id :: id in after <==> id in before || (toJson && Sent(id, false) in Run(s, steps, toJson).sent))
  {
    RunTells(s, steps, toJson);
    var t := Run(s, steps, toJson);
    assert forall id :: WasSent(t.sent, id, false) <==> Sent(id, false) in t.sent;
  }

  /** After a failed receipt the next call for the same id sends again exactly when failures
      cannot be written and nothing else stops it. */
  lemma {:induction false} ResentIff(s: State, steps: seq<Step>, toJson: bool, c: Call)
    requires s.sent == [] && Sent(Lower(c.id), false) in Run(s, steps, toJson).sent
    ensures var t := Run(s, steps, toJson);
            Open(t, c).Pending? <==>
            !toJson && c.answers.ledger && c.answers.voted && c.answers.node && Lower(c.id) !in t.voted + t.processed
  {
    RunTells(s, steps, toJson);
    var t := Run(s, steps, toJson);
    assert WasSent(t.sent, Lower(c.id), false);
    if Lower(c.id) in Reverted(s.file) {
      NeverSentIfListed(s, steps, toJson, Lower(c.id));
      assert false;
    }
  }

  lemma {:induction false} NeverSentIfListed(s: State, steps: seq<Step>, toJson: bool, id: string)
    requires s.sent == [] && id in Reverted(s.file)
    ensures forall x | x in Run(s, steps, toJson).sent :: x.id != id
    decreases |steps|
  {
    if steps != [] {
      NeverSentIfListed(s, steps[..|steps| - 1], toJson, id);
      RunTells(s, steps[..|steps| - 1], toJson);
    }
  }

  ghost predicate SendsOnce(sent: seq<Sent>) {
    forall i, j | 0 <= i < j < |sent| :: sent[i].id != sent[j].id
  }

  /** No run sends two transactions for one id, exactly if the runtime can serialize bigints. */
  lemma SentOnceIff(toJson: bool)
    ensures (forall s: State, steps | s.sent == [] :: SendsOnce(Run(s, steps, toJson).sent)) <==> toJson
  {
    if toJson {
      forall s: State, steps | s.sent == []
        ensures SendsOnce(Run(s, steps, toJson).sent)
      {
        RunTells(s, steps, toJson);
      }
    } else {
      var s, steps := FailedVoteIsSentAgain();
    }
  }

  /** As the repository stands, nothing gives bigints a toJSON: a vote that fails twice. */
  lemma FailedVoteIsSentAgain() returns (s: State, steps: seq<Step>)
    ensures s.sent == [] && Run(s, steps, false).sent == [Sent("0x1f", false), Sent("0x1f", false)]
    ensures !SendsOnce(Run(s, steps, false).sent)
  {
    var c := Call("0x1F", Vote("0xa", "0xb", "0xc", 1, "0xd"), Answers(true, true, true, false));
    s, steps := State(None, {}, {}, []), [Calls(c), Calls(c)];
    assert Lower("0x1F") == "0x1f";
    assert Run(s, [], false) == s;
    assert steps[..1] == [Calls(c)] && steps[..1][..0] == [];
    assert Run(s, steps[..1], false) == s.(sent := [Sent("0x1f", false)]);
    var sent := Run(s, steps, false).sent;
    assert sent[0].id == sent[1].id;
  }

  // ---------- calls that overlap ----------

  /** postProcessing starts a vote without waiting for it, so a call may open, which reads the
      file, before an earlier one closes, which writes it. Calls are told apart by numbers. */
  datatype Move = Opens(n: nat, call: Call) | Closes(n: nat, receipt: bool)

  datatype Overlap = Overlap(state: State, pending: map<nat, Opening>)

  function Make(o: Overlap, m: Move, toJson: bool): Overlap {
    match m
    case Opens(n, c) =>
      if n !in o.pending && Open(o.state, c).Pending? then o.(pending := o.pending[n := Open(o.state, c)]) else o
    case Closes(n, receipt) =>
      if n in o.pending && o.pending[n].Pending?
      then Overlap(Close(o.state, o.pending[n], receipt, toJson).0, o.pending - {n})
      else o
  }

  function MakeAll(o: Overlap, moves: seq<Move>, toJson: bool): Overlap {
    if moves == [] then o else Make(MakeAll(o, moves[..|moves| - 1], toJson), moves[|moves| - 1], toJson)
  }

  /** The i-th move opened the pending call n. */
  ghost predicate OpenedAt(o: Overlap, moves: seq<Move>, toJson: bool, n: nat, p: Opening, i: nat) {
    && i < |moves| && moves[i].Opens? && moves[i].n == n
    && p == Open(MakeAll(o, moves[..i], toJson).state, moves[i].call) && p.Pending?
  }

  lemma {:induction false} PendingWasOpened(o: Overlap, moves: seq<Move>, toJson: bool, n: nat) returns (i: nat)
    requires o.pending == map[] && n in MakeAll(o, moves, toJson).pending
    ensures OpenedAt(o, moves, toJson, n, MakeAll(o, moves, toJson).pending[n], i)
    decreases |moves|
  {
    var before, m := moves[..|moves| - 1], moves[|moves| - 1];
    var t := MakeAll(o, before, toJson);
    if n in t.pending {
      i := PendingWasOpened(o, before, toJson, n);
      assert before[..i] == moves[..i] && before[i] == moves[i];
    } else {
      i := |moves| - 1;
    }
  }

  /** Exactly when an entry of the file is lost, in any run of overlapping calls: when a call
      for another id closes with a failure and had opened at a time when the entry was not
      there yet. Opening a call never loses any. */
  lemma EntryLostIff(o: Overlap, moves: seq<Move>, toJson: bool, n: nat, receipt: bool, id: string) returns (i: nat)
    requires o.pending == map[] && n in MakeAll(o, moves, toJson).pending
    requires id in Reverted(MakeAll(o, moves, toJson).state.file)
    ensures OpenedAt(o, moves, toJson, n, MakeAll(o, moves, toJson).pending[n], i)
    ensures id !in Reverted(MakeAll(o, moves + [Closes(n, receipt)], toJson).state.file) <==>
            && toJson && !receipt && Lower(moves[i].call.id) != id
            && id !in Reverted(MakeAll(o, moves[..i], toJson).state.file)
    ensures forall k, c :: MakeAll(o, moves + [Opens(k, c)], toJson).state == MakeAll(o, moves, toJson).state
  {
    i := PendingWasOpened(o, moves, toJson, n);
    assert (moves + [Closes(n, receipt)])[..|moves|] == moves;
    forall k, c
      ensures MakeAll(o, moves + [Opens(k, c)], toJson).state == MakeAll(o, moves, toJson).state
    {
      assert (moves + [Opens(k, c)])[..|moves|] == moves;
    }
  }

  /** The shortest case: two calls have read the file when the first one fails. Its entry
      survives exactly if the second does not fail too; once it is gone, its vote is free to be
      sent again. */
  lemma OverlapLosesEntry(s: State, a: Call, b: Call, receipt: bool)
    requires Open(s, a).Pending? && Open(s, b).Pending? && Lower(a.id) != Lower(b.id)
    ensures var moves := [Opens(0, a), Opens(1, b), Closes(0, false), Closes(1, receipt)];
            var t := MakeAll(Overlap(s, map[]), moves[..3], true).state;
            var u := MakeAll(Overlap(s, map[]), moves, true).state;
            && Lower(a.id) in Reverted(t.file)
            && (Lower(a.id) in Reverted(u.file) <==> receipt)
            && (Open(u, a).Pending? <==> !receipt)
  {
    var o, moves := Overlap(s, map[]), [Opens(0, a), Opens(1, b), Closes(0, false), Closes(1, receipt)];
    assert moves[..3][..2] == moves[..2] && moves[..2][..1] == moves[..1] && moves[..1][..0] == [];
    assert MakeAll(o, moves[..1], true) == Make(o, moves[0], true);
    assert MakeAll(o, moves[..2], true).pending == map[0 := Open(s, a), 1 := Open(s, b)];
  }
}
