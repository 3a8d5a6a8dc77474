/** The block scanner of federator/src/lib/FederatorHTR.ts as the list of things it does: what
    a run does when nothing fails, and any sequence of runs that may each be cut short. */
module Scanner {
  import opened Paging
  import opened Wrappers

  datatype Event = Event(block: int, position: nat, tokenAddress: string, amount: nat)

  datatype Limits = Limits(allowed: bool, mediumAmount: nat, largeAmount: nat)

  const ZERO_ADDRESS := "0x0000000000000000000000000000000000000000"

  /** The Cross events of each block, the bridge's token map and the limits per token. */
  datatype Chain = Chain(logs: int -> seq<Event>, mappedToken: string -> string, limits: string -> Limits)

  ghost predicate WellFormed(chain: Chain) {
    forall b, i | 0 <= i < |chain.logs(b)| :: chain.logs(b)[i].block == b && chain.logs(b)[i].position == i
  }

  datatype Confirmations = Confirmations(small: nat, medium: nat, large: nat)

  datatype Pass = Pass(currentBlock: int, confirmations: Confirmations, mediumAndSmall: bool)

  datatype Action =
    | Fetch(range: Range, mediumAndSmall: bool)
    | Deliver(event: Event, pass: Pass)
    | Save(block: int)

  // ---------- one event ----------

  function LimitsOf(chain: Chain, e: Event): Limits {
    var sideToken := chain.mappedToken(e.tokenAddress);
    if sideToken == ZERO_ADDRESS then chain.limits(e.tokenAddress) else chain.limits(sideToken)
  }

  /** processLog throws: neither a side token nor an allowed token. */
  predicate IsRefused(chain: Chain, e: Event) {
    chain.mappedToken(e.tokenAddress) == ZERO_ADDRESS && !chain.limits(e.tokenAddress).allowed
  }

  /** processLog leaves the event for later. */
  predicate IsPostponed(chain: Chain, e: Event, pass: Pass) {
    var limits := LimitsOf(chain, e);
    pass.mediumAndSmall
    && (e.amount > limits.largeAmount
        || (e.amount > limits.mediumAmount && pass.currentBlock - e.block < pass.confirmations.medium))
  }

  // ---------- one page, one pass, one run, if nothing fails ----------

  function EventsIn(chain: Chain, from: int, to: int): seq<Event>
    decreases to - from
  {
    if to < from then [] else EventsIn(chain, from, to - 1) + chain.logs(to)
  }

  function EventActions(chain: Chain, e: Event, pass: Pass): seq<Action> {
    if IsPostponed(chain, e, pass) then [] else [Deliver(e, pass)]
  }

  function LogActions(chain: Chain, logs: seq<Event>, pass: Pass): seq<Action> {
    if logs == [] then []
    else LogActions(chain, logs[..|logs| - 1], pass) + EventActions(chain, logs[|logs| - 1], pass)
  }

  /** `_saveProgress` skips falsy values. */
  function SaveActions(block: int, pass: Pass): seq<Action> {
    if pass.mediumAndSmall || block == 0 then [] else [Save(block)]
  }

  function PageActions(chain: Chain, r: Range, pass: Pass): seq<Action> {
    [Fetch(r, pass.mediumAndSmall)] + LogActions(chain, EventsIn(chain, r.from, r.to), pass) + SaveActions(r.to, pass)
  }

  function PagesActions(chain: Chain, pages: seq<Range>, pass: Pass): seq<Action> {
    if pages == [] then []
    else PagesActions(chain, pages[..|pages| - 1], pass) + PageActions(chain, pages[|pages| - 1], pass)
  }

  /** getLogsAndProcess returns at once when from >= to. */
  function PassActions(chain: Chain, from: int, to: int, pass: Pass): seq<Action> {
    if from >= to then [] else PagesActions(chain, Pages(from, to, to), pass)
  }

  datatype Situation = Situation(currentBlock: int, isSyncing: bool, confirmations: Confirmations)

  function FirstPass(chain: Chain, lastBlock: int, s: Situation): seq<Action> {
    PassActions(chain, lastBlock + 1, s.currentBlock - s.confirmations.large, Pass(s.currentBlock, s.confirmations, false))
  }

  function SecondPass(chain: Chain, s: Situation): seq<Action> {
    PassActions(chain, s.currentBlock - s.confirmations.large, s.currentBlock - s.confirmations.small,
                Pass(s.currentBlock, s.confirmations, true))
  }

  /** `run` returns false before doing anything. */
  predicate HasNothingToDo(lastBlock: int, s: Situation) {
    var toBlock := s.currentBlock - s.confirmations.large;
    var newToBlock := s.currentBlock - s.confirmations.small;
    s.isSyncing || (toBlock <= 0 && newToBlock <= 0) || (lastBlock >= toBlock && lastBlock >= newToBlock)
  }

  function RunActions(chain: Chain, lastBlock: int, s: Situation): seq<Action> {
    if HasNothingToDo(lastBlock, s) then [] else FirstPass(chain, lastBlock, s) + SecondPass(chain, s)
  }

  // ---------- the checkpoint file and histories ----------

  /** What the file holds after the given actions. */
  function FileAfter(file: Option<int>, actions: seq<Action>): Option<int> {
    if actions == [] then file
    else match actions[|actions| - 1]
         case Save(block) => Some(block)
         case _ => FileAfter(file, actions[..|actions| - 1])
  }

  /** getLastBlock: the file, or the configured start block if that is later. */
  function LastBlock(file: Option<int>, startBlock: nat): int {
    match file
    case None => startBlock
    case Some(block) => if block < startBlock then startBlock else block
  }

  /** One call of `run` that got through the given number of actions before it threw, or to its
      end if it has no more than that. */
  datatype Attempt = Attempt(situation: Situation, steps: nat)

  function Cut<T>(xs: seq<T>, n: nat): seq<T> {
    if n <= |xs| then xs[..n] else xs
  }

  /** Everything done by a sequence of attempts. */
  function History(chain: Chain, startBlock: nat, file: Option<int>, attempts: seq<Attempt>): seq<Action> {
    if attempts == [] then []
    else
      var before := History(chain, startBlock, file, attempts[..|attempts| - 1]);
      var last := attempts[|attempts| - 1];
      before + Cut(RunActions(chain, LastBlock(FileAfter(file, before), startBlock), last.situation), last.steps)
  }

  function Checkpoint(chain: Chain, startBlock: nat, file: Option<int>, attempts: seq<Attempt>): int {
    LastBlock(FileAfter(file, History(chain, startBlock, file, attempts)), startBlock)
  }

  // ---------- lemmas about files and cuts ----------

  lemma {:induction false} FileAfterConcat(file: Option<int>, a: seq<Action>, b: seq<Action>)
    ensures FileAfter(file, a + b) == FileAfter(FileAfter(file, a), b)
    decreases |b|
  {
    if b == [] {
      assert a + b == a;
    } else {
      assert (a + b)[..|a + b| - 1] == a + b[..|b| - 1];
      FileAfterConcat(file, a, b[..|b| - 1]);
    }
  }

  lemma {:induction false} NothingSaved(file: Option<int>, a: seq<Action>)
    requires forall x | x in a :: !x.Save?
    ensures FileAfter(file, a) == file
  {
    if a != [] {
      assert a[|a| - 1] in a;
      NothingSaved(file, a[..|a| - 1]);
    }
  }

  lemma CutConcat<T>(a: seq<T>, b: seq<T>, n: nat)
    ensures Cut(a + b, n) == if n <= |a| then Cut(a, n) else a + Cut(b, n - |a|)
  {
  }

  lemma CutMembers<T>(xs: seq<T>, n: nat)
    ensures forall x | x in Cut(xs, n) :: x in xs
  {
  }

  lemma {:induction false} EventsBelong(chain: Chain, from: int, to: int)
    requires WellFormed(chain)
    ensures forall e | e in EventsIn(chain, from, to) :: from <= e.block <= to && e in chain.logs(e.block)
    ensures forall e: Event | from <= e.block <= to && e in chain.logs(e.block) :: e in EventsIn(chain, from, to)
    decreases 0 - from + to
  {
    if from <= to {
      EventsBelong(chain, from, to - 1);
    }
  }

  lemma {:induction false} LogActionsDeliver(chain: Chain, logs: seq<Event>, pass: Pass)
    ensures forall x | x in LogActions(chain, logs, pass) ::
              x.Deliver? && x.pass == pass && x.event in logs && !IsPostponed(chain, x.event, pass)
    ensures forall e | e in logs && !IsPostponed(chain, e, pass) :: Deliver(e, pass) in LogActions(chain, logs, pass)
  {
    if logs != [] {
      assert logs == logs[..|logs| - 1] + [logs[|logs| - 1]];
      LogActionsDeliver(chain, logs[..|logs| - 1], pass);
    }
  }

  /** What the actions of a pass can be. */
  lemma {:induction false} PagesActionsAre(chain: Chain, pages: seq<Range>, pass: Pass)
    requires WellFormed(chain)
    ensures forall x | x in PagesActions(chain, pages, pass) ::
              && (x.Save? ==> !pass.mediumAndSmall)
              && (x.Deliver? ==> x.pass == pass && !IsPostponed(chain, x.event, pass)
                                 && exists r :: r in pages && r.from <= x.event.block <= r.to)
    decreases |pages|
  {
    if pages != [] {
      var last := pages[|pages| - 1];
      PagesActionsAre(chain, pages[..|pages| - 1], pass);
      EventsBelong(chain, last.from, last.to);
      LogActionsDeliver(chain, EventsIn(chain, last.from, last.to), pass);
      assert last in pages;
    }
  }
}
