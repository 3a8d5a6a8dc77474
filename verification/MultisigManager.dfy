/** federator/src/lib/HathorMultisigManager.ts with the batch loops of
    federator/src/lib/HathorFederationLogsReader.ts: the scanner of the ledger's own events.
    Unlike the other scanner it saves its checkpoint once, at the end of a run, and whatever
    throws inside a batch is logged and forgotten. */
module MultisigManager {
  import opened Paging
  import opened Sums
  import opened Wrappers
  import Scanner

  datatype Kind = Locks | Events

  datatype Event = Event(block: int, position: nat)

  /** The events of each block, by kind. */
  datatype Ledger = Ledger(logs: (Kind, int) -> seq<Event>)

  ghost predicate WellFormed(ledger: Ledger) {
    forall kind, b, i | 0 <= i < |ledger.logs(kind, b)| :: ledger.logs(kind, b)[i] == Event(b, i)
  }

  function EventsIn(ledger: Ledger, kind: Kind, from: int, to: int): seq<Event>
    decreases to - from
  {
    if to < from then [] else EventsIn(ledger, kind, from, to - 1) + ledger.logs(kind, to)
  }

  /** A request for a batch of blocks, of whose events the first `handled` were handled. */
  datatype Action = Request(kind: Kind, range: Range, handled: nat) | Save(block: int)

  /** `handled` says how many events of a batch are handled before something throws: none if
      fetching them does, and any number from theirs on if nothing does. */
  datatype Situation = Situation(currentBlock: int, isSyncing: bool, confirmationBlocks: nat, handled: (Kind, Range) -> nat)

  function Ask(ledger: Ledger, s: Situation, kind: Kind, r: Range): Action {
    var n, all := s.handled(kind, r), |EventsIn(ledger, kind, r.from, r.to)|;
    Request(kind, r, if n < all then n else all)
  }

  function Requests(ledger: Ledger, s: Situation, kind: Kind, ranges: seq<Range>): seq<Action> {
    if ranges == [] then []
    else Requests(ledger, s, kind, ranges[..|ranges| - 1]) + [Ask(ledger, s, kind, ranges[|ranges| - 1])]
  }

  /** getLogsAndProcess: all lock events, as far as the current block, then all others. */
  function LogsActions(ledger: Ledger, s: Situation, fromBlock: int, toBlock: int): seq<Action> {
    if fromBlock >= toBlock then []
    else
      Requests(ledger, s, Locks, AllBatches(Pages(fromBlock, toBlock, s.currentBlock), RECORDS_PER_PAGE))
      + Requests(ledger, s, Events, AllBatches(Pages(fromBlock, toBlock, toBlock), RECORDS_PER_PAGE))
  }

  function ToBlock(s: Situation): int {
    s.currentBlock - s.confirmationBlocks
  }

  predicate HasNothingToDo(lastBlock: int, s: Situation) {
    s.isSyncing || ToBlock(s) <= 0 || lastBlock >= ToBlock(s)
  }

  function RunActions(ledger: Ledger, lastBlock: int, s: Situation): seq<Action> {
    if HasNothingToDo(lastBlock, s) then []
    else LogsActions(ledger, s, lastBlock + 1, ToBlock(s)) + [Save(ToBlock(s))]
  }

  function FileAfter(file: Option<int>, actions: seq<Action>): Option<int> {
    if actions == [] then file
    else match actions[|actions| - 1]
         case Save(block) => Some(block)
         case _ => FileAfter(file, actions[..|actions| - 1])
  }

  // ---------- the class ----------

  class HathorMultisigManager {
    const ledger: Ledger
    const startBlock: nat
    var file: Option<int>
    var trace: seq<Action>

    constructor (ledger: Ledger, startBlock: nat, file: Option<int>)
      ensures this.ledger == ledger && this.startBlock == startBlock && this.file == file && trace == []
    {
      this.ledger := ledger;
      this.startBlock := startBlock;
      this.file := file;
      this.trace := [];
    }

    /** The body of a batch: events are handled one after the other until something throws. */
    method FetchBatch(s: Situation, kind: Kind, range: Range)
      modifies this`trace
      ensures trace == old(trace) + [Ask(ledger, s, kind, range)]
    {
      var events := EventsIn(ledger, kind, range.from, range.to);
      var handled := 0;
      while handled < |events| && handled < s.handled(kind, range)
        invariant handled <= |events| && handled <= s.handled(kind, range)
      {
        handled := handled + 1;
      }
      trace := trace + [Request(kind, range, handled)];
    }

    /** Both batch fetchers: the loop goes on whatever happened in a batch. */
    method FetchInBatches(s: Situation, kind: Kind, startBlock: int, endBlock: int, batchSize: nat)
      requires batchSize >= 1
      modifies this`trace
      ensures trace == old(trace) + Requests(ledger, s, kind, Batches(startBlock, endBlock, batchSize))
    {
      hide Requests, Batches, Ask;
      var currentBlock := startBlock;
      ghost var done: seq<Range> := [];
      RequestsOfNone(ledger, s, kind);
      while currentBlock <= endBlock
        invariant done + Batches(currentBlock, endBlock, batchSize) == Batches(startBlock, endBlock, batchSize)
        invariant trace == old(trace) + Requests(ledger, s, kind, done)
        decreases endBlock - currentBlock
      {
        var fromBlock := currentBlock;
        var toBlock := if currentBlock + batchSize - 1 < endBlock then currentBlock + batchSize - 1 else endBlock;
        FirstBatch(currentBlock, endBlock, batchSize);
        FetchBatch(s, kind, Range(fromBlock, toBlock));
        RequestsSnoc(ledger, s, kind, done, Range(fromBlock, toBlock));
        done := done + [Range(fromBlock, toBlock)];
        currentBlock := currentBlock + batchSize;
      }
      NoBatches(currentBlock, endBlock, batchSize);
      assert done + [] == done;
    }

    /** One of the two page loops of getLogsAndProcess; `end` is where the last page reaches. */
    method FetchPages(s: Situation, kind: Kind, fromBlock: int, toBlock: int, end: int)
      requires fromBlock < toBlock
      modifies this`trace
      ensures trace == old(trace) + Requests(ledger, s, kind, AllBatches(Pages(fromBlock, toBlock, end), RECORDS_PER_PAGE))
    {
      hide Requests, AllBatches, Batches, PageCount;
      var numberOfPages := PageCount(fromBlock, toBlock);
      var fromPageBlock := fromBlock;
      ghost var batches: seq<Range> := [];
      RequestsOfNone(ledger, s, kind);
      AllBatchesOfNone(RECORDS_PER_PAGE);
      for currentPage := 1 to numberOfPages + 1
        invariant currentPage <= numberOfPages ==> fromPageBlock == fromBlock + RECORDS_PER_PAGE * (currentPage - 1)
        invariant batches == AllBatches(FirstPages(fromBlock, numberOfPages, end, currentPage - 1), RECORDS_PER_PAGE)
        invariant trace == old(trace) + Requests(ledger, s, kind, batches)
      {
        var toPagedBlock := fromPageBlock + RECORDS_PER_PAGE - 1;
        if currentPage == numberOfPages {
          toPagedBlock := end;
        }
        FetchInBatches(s, kind, fromPageBlock, toPagedBlock, RECORDS_PER_PAGE);
        NextPage(ledger, s, kind, fromBlock, numberOfPages, end, currentPage - 1, Range(fromPageBlock, toPagedBlock));
        batches := batches + Batches(fromPageBlock, toPagedBlock, RECORDS_PER_PAGE);
        fromPageBlock := toPagedBlock + 1;
      }
    }

    /** Before the first page the contract for limits is looked up, which may throw. */
    method GetLogsAndProcess(s: Situation, fromBlock: int, toBlock: int) returns (threw: bool)
      modifies this`trace
      ensures trace == if threw then old(trace) else old(trace) + LogsActions(ledger, s, fromBlock, toBlock)
    {
      if fromBlock >= toBlock {
        return false;
      }
      if * {
        return true;
      }
      FetchPages(s, Locks, fromBlock, toBlock, s.currentBlock);
      FetchPages(s, Events, fromBlock, toBlock, toBlock);
      threw := false;
    }

    lemma LogsThenSave(s: Situation, last: int, toBlock: int)
      ensures var logs := LogsActions(ledger, s, last + 1, toBlock);
              FileAfter(file, logs + [Save(toBlock)]) == Some(toBlock)
              && trace + (logs + [Save(toBlock)]) == trace + logs + [Save(toBlock)]
    {
    }

    lemma NothingDone()
      ensures FileAfter(file, []) == file && trace + [] == trace
    {
    }

    method Run(s: Situation) returns (threw: bool, success: bool)
      modifies this
      ensures threw ==> trace == old(trace) && file == old(file)
      ensures var run := RunActions(ledger, Scanner.LastBlock(old(file), startBlock), s);
              !threw ==> trace == old(trace) + run && file == FileAfter(old(file), run)
      ensures var toBlock := s.currentBlock - s.confirmationBlocks;
              !threw ==> (success <==> !s.isSyncing && toBlock > 0 && toBlock > Scanner.LastBlock(old(file), startBlock))
    {
      hide LogsActions, FileAfter;
      NothingDone();
      if * {
        return true, false;
      }
      if s.isSyncing {
        return false, false;
      }
      var toBlock := s.currentBlock - s.confirmationBlocks;
      if toBlock <= 0 {
        return false, false;
      }
      var fromBlock := Scanner.LastBlock(file, startBlock);
      if fromBlock >= toBlock {
        return false, false;
      }
      fromBlock := fromBlock + 1;
      threw := GetLogsAndProcess(s, fromBlock, toBlock);
      if threw {
        return true, false;
      }
      LogsThenSave(s, Scanner.LastBlock(old(file), startBlock), toBlock);
      file := Some(toBlock);
      trace := trace + [Save(toBlock)];
      success := true;
    }
  }

  lemma RequestsOfNone(ledger: Ledger, s: Situation, kind: Kind)
    ensures Requests(ledger, s, kind, []) == []
  {
  }

  lemma RequestsSnoc(ledger: Ledger, s: Situation, kind: Kind, ranges: seq<Range>, r: Range)
    ensures Requests(ledger, s, kind, ranges + [r]) == Requests(ledger, s, kind, ranges) + [Ask(ledger, s, kind, r)]
  {
    assert (ranges + [r])[..|ranges|] == ranges;
  }

  lemma FirstBatch(start: int, end: int, size: nat)
    requires size >= 1 && start <= end
    ensures Batches(start, end, size)
            == [Range(start, if start + size - 1 < end then start + size - 1 else end)] + Batches(start + size, end, size)
  {
  }

  lemma NoBatches(start: int, end: int, size: nat)
    requires size >= 1 && start > end
    ensures Batches(start, end, size) == []
  {
  }

  lemma AllBatchesOfNone(size: nat)
    requires size >= 1
    ensures AllBatches([], size) == []
  {
  }

  lemma {:induction false} NextPage(ledger: Ledger, s: Situation, kind: Kind, from: int, count: nat, end: int, k: nat, page: Range)
    requires page == Page(from, count, end, k)
    ensures var earlier := AllBatches(FirstPages(from, count, end, k), RECORDS_PER_PAGE);
            var batches := Batches(page.from, page.to, RECORDS_PER_PAGE);
            && AllBatches(FirstPages(from, count, end, k + 1), RECORDS_PER_PAGE) == earlier + batches
            && Requests(ledger, s, kind, earlier + batches) == Requests(ledger, s, kind, earlier) + Requests(ledger, s, kind, batches)
  {
    hide Requests, Batches, Page;
    var pages := FirstPages(from, count, end, k);
    assert (pages + [page])[..|pages|] == pages;
    RequestsConcat(ledger, s, kind, AllBatches(pages, RECORDS_PER_PAGE), Batches(page.from, page.to, RECORDS_PER_PAGE));
  }

  lemma {:induction false} RequestsConcat(ledger: Ledger, s: Situation, kind: Kind, a: seq<Range>, b: seq<Range>)
    ensures Requests(ledger, s, kind, a + b) == Requests(ledger, s, kind, a) + Requests(ledger, s, kind, b)
    decreases |b|
  {
    hide Ask;
    if b == [] {
      assert a + b == a;
    } else {
      RequestsConcat(ledger, s, kind, a, b[..|b| - 1]);
      assert (a + b)[..|a + b| - 1] == a + b[..|b| - 1];
    }
  }

  /** Nested paging: the requests of a run ask for the lock events of every block from the first
      to the current one and then for the other events of every block from the first to the
      last, each block once, in order, at most 450 at a time. */
  lemma {:induction false} RequestsAreExact(ledger: Ledger, s: Situation, fromBlock: int, toBlock: int)
    returns (locks: seq<Range>, events: seq<Range>)
    requires fromBlock < toBlock <= s.currentBlock
    ensures LogsActions(ledger, s, fromBlock, toBlock) == Requests(ledger, s, Locks, locks) + Requests(ledger, s, Events, events)
    ensures Requested(locks) == Blocks(fromBlock, s.currentBlock) && Requested(events) == Blocks(fromBlock, toBlock)
    ensures forall r | r in locks + events :: 1 <= r.to - r.from + 1 <= 450
  {
    locks := AllBatches(Pages(fromBlock, toBlock, s.currentBlock), RECORDS_PER_PAGE);
    events := AllBatches(Pages(fromBlock, toBlock, toBlock), RECORDS_PER_PAGE);
    PagingIsExact(fromBlock, toBlock, s.currentBlock);
    PagingIsExact(fromBlock, toBlock, toBlock);
  }

  // ---------- histories ----------

  datatype Attempt = Attempt(situation: Situation, steps: nat)

  function History(ledger: Ledger, startBlock: nat, file: Option<int>, attempts: seq<Attempt>): seq<Action> {
    if attempts == [] then []
    else
      var before := History(ledger, startBlock, file, attempts[..|attempts| - 1]);
      var x := attempts[|attempts| - 1];
      before + Scanner.Cut(RunActions(ledger, Scanner.LastBlock(FileAfter(file, before), startBlock), x.situation), x.steps)
  }

  function Checkpoint(ledger: Ledger, startBlock: nat, file: Option<int>, attempts: seq<Attempt>): int {
    Scanner.LastBlock(FileAfter(file, History(ledger, startBlock, file, attempts)), startBlock)
  }

  // ---------- how often a block is asked for ----------

  predicate Covers(x: Action, b: int) {
    x.Request? && x.kind == Events && x.range.from <= b <= x.range.to
  }

  function IsAsk(b: int): Action -> int {
    (x: Action) => if Covers(x, b) then 1 else 0
  }

  /** How many requests for other than lock events cover block b. */
  function Asks(h: seq<Action>, b: int): int {
    Sum(h, IsAsk(b))
  }

  lemma {:induction false} BlocksCount(from: int, to: int, b: int)
    ensures multiset(Blocks(from, to))[b] == if from <= b <= to then 1 else 0
    decreases (to - from)
  {
    if from <= to {
      BlocksCount(from, to - 1, b);
    }
  }

  lemma {:induction false} RequestsAsk(ledger: Ledger, s: Situation, kind: Kind, ranges: seq<Range>, b: int)
    ensures Asks(Requests(ledger, s, kind, ranges), b) == if kind == Events then multiset(Requested(ranges))[b] else 0
    decreases |ranges|
  {
    if ranges != [] {
      var before, r := ranges[..|ranges| - 1], ranges[|ranges| - 1];
      RequestsAsk(ledger, s, kind, before, b);
      SumSnoc(Requests(ledger, s, kind, before), Ask(ledger, s, kind, r), IsAsk(b));
      BlocksCount(r.from, r.to, b);
    }
  }

  lemma LogsAsk(ledger: Ledger, s: Situation, fromBlock: int, toBlock: int, b: int)
    requires toBlock <= s.currentBlock
    ensures Asks(LogsActions(ledger, s, fromBlock, toBlock), b) == if fromBlock < toBlock && fromBlock <= b <= toBlock then 1 else 0
  {
    if fromBlock < toBlock {
      var locks, events := RequestsAreExact(ledger, s, fromBlock, toBlock);
      hide LogsActions;
      RequestsAsk(ledger, s, Locks, locks, b);
      RequestsAsk(ledger, s, Events, events, b);
      SumConcat(Requests(ledger, s, Locks, locks), Requests(ledger, s, Events, events), IsAsk(b));
      BlocksCount(fromBlock, toBlock, b);
    }
  }

  /** Only one block is new: fromBlock equals toBlock, and the early return skips it. */
  predicate IsGap(lastBlock: int, s: Situation) {
    !HasNothingToDo(lastBlock, s) && ToBlock(s) == lastBlock + 1
  }

  /** What a complete run asks for: with at least two new blocks at the depth of
      confirmationBlocks each of them once, and otherwise none at all. */
  lemma RunAsks(ledger: Ledger, lastBlock: int, s: Situation, b: int)
    ensures var toBlock := s.currentBlock - s.confirmationBlocks;
            Asks(RunActions(ledger, lastBlock, s), b) ==
            if !s.isSyncing && toBlock > 0 && toBlock >= lastBlock + 2 && lastBlock < b <= toBlock then 1 else 0
  {
    hide LogsActions;
    if !HasNothingToDo(lastBlock, s) {
      LogsAsk(ledger, s, lastBlock + 1, ToBlock(s), b);
      SumSnoc(LogsActions(ledger, s, lastBlock + 1, ToBlock(s)), Save(ToBlock(s)), IsAsk(b));
    }
  }

  ghost predicate Asked(h: seq<Action>, b: int) {
    exists k :: 0 <= k < |h| && Covers(h[k], b)
  }

  lemma {:induction false} AskedIff(h: seq<Action>, b: int)
    ensures Asks(h, b) >= 0 && (Asked(h, b) <==> Asks(h, b) > 0)
    ensures Asks(h, b) <= 1 ==> forall i, j | 0 <= i < j < |h| && Covers(h[i], b) :: !Covers(h[j], b)
    decreases |h|
  {
    if h != [] {
      var n := |h| - 1;
      AskedIff(h[..n], b);
      if Covers(h[n], b) {
        assert Asked(h, b);
      } else if Asked(h, b) {
        var k :| 0 <= k < |h| && Covers(h[k], b);
        assert Covers(h[..n][k], b);
      }
      forall i, j | 0 <= i < j < |h| && Covers(h[i], b) && Asks(h, b) <= 1
        ensures !Covers(h[j], b)
      {
        assert Covers(h[..n][i], b);
        assert j < n ==> h[..n][j] == h[j];
      }
    }
  }

  lemma AskedConcat(h: seq<Action>, more: seq<Action>, b: int)
    ensures Asked(h + more, b) <==> Asked(h, b) || Asked(more, b)
  {
    AskedIff(h, b);
    AskedIff(more, b);
    AskedIff(h + more, b);
    SumConcat(h, more, IsAsk(b));
  }

  // ---------- how the checkpoint moves ----------

  lemma {:induction false} RequestsSaveNothing(ledger: Ledger, s: Situation, kind: Kind, ranges: seq<Range>)
    ensures forall x | x in Requests(ledger, s, kind, ranges) :: !x.Save?
    decreases |ranges|
  {
    if ranges != [] {
      RequestsSaveNothing(ledger, s, kind, ranges[..|ranges| - 1]);
    }
  }

  lemma LogsSaveNothing(ledger: Ledger, s: Situation, fromBlock: int, toBlock: int)
    ensures forall x | x in LogsActions(ledger, s, fromBlock, toBlock) :: !x.Save?
  {
    if fromBlock < toBlock {
      RequestsSaveNothing(ledger, s, Locks, AllBatches(Pages(fromBlock, toBlock, s.currentBlock), RECORDS_PER_PAGE));
      RequestsSaveNothing(ledger, s, Events, AllBatches(Pages(fromBlock, toBlock, toBlock), RECORDS_PER_PAGE));
    }
  }

  lemma {:induction false} NothingSaved(file: Option<int>, h: seq<Action>, more: seq<Action>)
    requires forall x | x in more :: !x.Save?
    ensures FileAfter(file, h + more) == FileAfter(file, h)
    decreases |more|
  {
    if more == [] {
      assert h + more == h;
    } else {
      assert (h + more)[..|h + more| - 1] == h + more[..|more| - 1];
      assert more[|more| - 1] in more;
      NothingSaved(file, h, more[..|more| - 1]);
    }
  }

  /** The checkpoint after a run that did n things: unchanged until the last one. */
  lemma CheckpointAfterRun(ledger: Ledger, startBlock: nat, file: Option<int>, h: seq<Action>, s: Situation, n: nat)
    ensures var last := Scanner.LastBlock(FileAfter(file, h), startBlock);
            var run := RunActions(ledger, last, s);
            Scanner.LastBlock(FileAfter(file, h + Scanner.Cut(run, n)), startBlock)
            == if n < |run| || HasNothingToDo(last, s) then last else ToBlock(s)
  {
    hide LogsActions;
    var last := Scanner.LastBlock(FileAfter(file, h), startBlock);
    if HasNothingToDo(last, s) {
      assert h + Scanner.Cut([], n) == h;
    } else {
      var logs := LogsActions(ledger, s, last + 1, ToBlock(s));
      LogsSaveNothing(ledger, s, last + 1, ToBlock(s));
      if n <= |logs| {
        assert Scanner.Cut(logs + [Save(ToBlock(s))], n) == logs[..n];
        NothingSaved(file, h, logs[..n]);
      } else {
        assert (h + (logs + [Save(ToBlock(s))]))[|h| + |logs|] == Save(ToBlock(s));
      }
    }
  }

  lemma StepOfHistory(ledger: Ledger, startBlock: nat, file: Option<int>, attempts: seq<Attempt>)
    requires attempts != []
    ensures var before, x := attempts[..|attempts| - 1], attempts[|attempts| - 1];
            var last := Checkpoint(ledger, startBlock, file, before);
            var run := RunActions(ledger, last, x.situation);
            && History(ledger, startBlock, file, attempts) == History(ledger, startBlock, file, before) + Scanner.Cut(run, x.steps)
            && Checkpoint(ledger, startBlock, file, attempts)
               == (if x.steps < |run| || HasNothingToDo(last, x.situation) then last else ToBlock(x.situation))
            && Checkpoint(ledger, startBlock, file, attempts) >= last
  {
    hide RunActions;
    CheckpointAfterRun(ledger, startBlock, file, History(ledger, startBlock, file, attempts[..|attempts| - 1]),
                       attempts[|attempts| - 1].situation, attempts[|attempts| - 1].steps);
  }

  /** Where a complete run leaves the checkpoint: at the depth of confirmationBlocks, if the node
      is in sync and that block is positive and new, and where it was otherwise. */
  lemma RunSaves(ledger: Ledger, startBlock: nat, file: Option<int>, attempts: seq<Attempt>, s: Situation, steps: nat)
    requires steps >= |RunActions(ledger, Checkpoint(ledger, startBlock, file, attempts), s)|
    ensures var last, toBlock := Checkpoint(ledger, startBlock, file, attempts), s.currentBlock - s.confirmationBlocks;
            Checkpoint(ledger, startBlock, file, attempts + [Attempt(s, steps)])
            == if !s.isSyncing && toBlock > 0 && toBlock > last then toBlock else last
  {
    hide RunActions;
    assert (attempts + [Attempt(s, steps)])[..|attempts|] == attempts;
    StepOfHistory(ledger, startBlock, file, attempts + [Attempt(s, steps)]);
  }

  // ---------- confirmations ----------

  /** Nothing is saved, and nothing but lock events asked for, above the depth of
      confirmationBlocks, and no lock events above the current block. */
  predicate IsConfirmed(x: Action, s: Situation) {
    match x
    case Save(b) => b == s.currentBlock - s.confirmationBlocks
    case Request(Events, r, _) => r.to <= s.currentBlock - s.confirmationBlocks
    case Request(Locks, r, _) => r.to <= s.currentBlock
  }

  lemma {:induction false} RequestsEnd(ledger: Ledger, s: Situation, kind: Kind, start: int, end: int)
    ensures forall x | x in Requests(ledger, s, kind, Batches(start, end, RECORDS_PER_PAGE)) ::
              x.Request? && x.kind == kind && x.range.to <= end
    decreases end - start
  {
    RequestsOfNone(ledger, s, kind);
    if start <= end {
      var first := Range(start, if start + RECORDS_PER_PAGE - 1 < end then start + RECORDS_PER_PAGE - 1 else end);
      RequestsEnd(ledger, s, kind, start + RECORDS_PER_PAGE, end);
      RequestsConcat(ledger, s, kind, [first], Batches(start + RECORDS_PER_PAGE, end, RECORDS_PER_PAGE));
      RequestsSnoc(ledger, s, kind, [], first);
      assert [] + [first] == [first];
    }
  }

  lemma RunIsConfirmed(ledger: Ledger, lastBlock: int, s: Situation)
    ensures forall x | x in RunActions(ledger, lastBlock, s) :: IsConfirmed(x, s)
  {
    var fromBlock, toBlock := lastBlock + 1, ToBlock(s);
    hide Requests, Batches, AllBatches, Pages;
    RequestsEnd(ledger, s, Locks, fromBlock, s.currentBlock);
    RequestsEnd(ledger, s, Events, fromBlock, toBlock);
    if fromBlock < toBlock {
      PagesAreBatches(fromBlock, toBlock, s.currentBlock);
      PagesAreBatches(fromBlock, toBlock, toBlock);
    }
  }

  /** At every point of every sequence of runs, cut short or not, whatever was asked for or saved
      was confirmed in the situation of some run. */
  lemma {:induction false} HistoryIsConfirmed(ledger: Ledger, startBlock: nat, file: Option<int>, attempts: seq<Attempt>)
    ensures forall x | x in History(ledger, startBlock, file, attempts) :: exists a :: a in attempts && IsConfirmed(x, a.situation)
    decreases |attempts|
  {
    hide RunActions, IsConfirmed;
    if attempts != [] {
      var before, a := attempts[..|attempts| - 1], attempts[|attempts| - 1];
      var last := Checkpoint(ledger, startBlock, file, before);
      HistoryIsConfirmed(ledger, startBlock, file, before);
      RunIsConfirmed(ledger, last, a.situation);
      Scanner.CutMembers(RunActions(ledger, last, a.situation), a.steps);
      forall x | x in History(ledger, startBlock, file, attempts)
        ensures exists y :: y in attempts && IsConfirmed(x, y.situation)
      {
        if x in History(ledger, startBlock, file, before) {
          var y :| y in before && IsConfirmed(x, y.situation);
          assert y in attempts;
        } else {
          assert a in attempts;
        }
      }
    }
  }

  // ---------- runs cut anywhere ----------

  /** Never is there just one new block: toBlock == last + 1. */
  ghost predicate GapFree(ledger: Ledger, startBlock: nat, file: Option<int>, attempts: seq<Attempt>) {
    attempts == [] ||
    (GapFree(ledger, startBlock, file, attempts[..|attempts| - 1])
     && !IsGap(Checkpoint(ledger, startBlock, file, attempts[..|attempts| - 1]), attempts[|attempts| - 1].situation))
  }

  /** Without gaps every block up to the checkpoint has been asked for, at every point of every
      sequence of runs, cut short or not. */
  lemma {:induction false} GapFreeIsAsked(ledger: Ledger, startBlock: nat, file: Option<int>, attempts: seq<Attempt>, b: int)
    requires GapFree(ledger, startBlock, file, attempts)
    requires Scanner.LastBlock(file, startBlock) < b <= Checkpoint(ledger, startBlock, file, attempts)
    ensures Asked(History(ledger, startBlock, file, attempts), b)
    decreases |attempts|
  {
    hide RunActions;
    if attempts != [] {
      var before, x := attempts[..|attempts| - 1], attempts[|attempts| - 1];
      var last := Checkpoint(ledger, startBlock, file, before);
      StepOfHistory(ledger, startBlock, file, attempts);
      var run := RunActions(ledger, last, x.situation);
      AskedConcat(History(ledger, startBlock, file, before), Scanner.Cut(run, x.steps), b);
      if b <= last {
        GapFreeIsAsked(ledger, startBlock, file, before, b);
      } else {
        RunAsks(ledger, last, x.situation, b);
        AskedIff(run, b);
        assert Scanner.Cut(run, x.steps) == run;
      }
    }
  }

  // ---------- events ----------

  /** The request got as far as event e. */
  predicate Handles(ledger: Ledger, x: Action, e: Event) {
    x.Request? && x.kind == Events && e in Scanner.Cut(EventsIn(ledger, Events, x.range.from, x.range.to), x.handled)
  }

  ghost predicate Handled(ledger: Ledger, h: seq<Action>, e: Event) {
    exists k :: 0 <= k < |h| && Handles(ledger, h[k], e)
  }

  /** A request for e's block stopped before it came to e. */
  ghost predicate CutOff(ledger: Ledger, h: seq<Action>, e: Event) {
    exists k :: 0 <= k < |h| && Covers(h[k], e.block) && !Handles(ledger, h[k], e)
  }

  lemma {:induction false} EventsBelong(ledger: Ledger, from: int, to: int, e: Event)
    requires WellFormed(ledger)
    ensures e in EventsIn(ledger, Events, from, to) <==> from <= e.block <= to && e in ledger.logs(Events, e.block)
    decreases (to - from)
  {
    if from <= to {
      EventsBelong(ledger, from, to - 1, e);
    }
  }

  lemma HandlerCovers(ledger: Ledger, x: Action, e: Event)
    requires WellFormed(ledger) && Handles(ledger, x, e)
    ensures Covers(x, e.block)
  {
    Scanner.CutMembers(EventsIn(ledger, Events, x.range.from, x.range.to), x.handled);
    EventsBelong(ledger, x.range.from, x.range.to, e);
  }

  /** e comes after the events of the blocks before its own and those before it in its block. */
  function Rank(ledger: Ledger, from: int, e: Event): nat {
    |EventsIn(ledger, Events, from, e.block - 1)| + e.position
  }

  lemma {:induction false} EventAt(ledger: Ledger, from: int, to: int, e: Event)
    requires WellFormed(ledger) && from <= e.block <= to && e in ledger.logs(Events, e.block)
    ensures Rank(ledger, from, e) < |EventsIn(ledger, Events, from, to)|
    ensures forall k | 0 <= k < |EventsIn(ledger, Events, from, to)| ::
              EventsIn(ledger, Events, from, to)[k] == e <==> k == Rank(ledger, from, e)
    decreases (to - from)
  {
    var before := EventsIn(ledger, Events, from, to - 1);
    EventsBelong(ledger, from, to - 1, e);
    if e.block < to {
      EventAt(ledger, from, to - 1, e);
    } else {
      assert e.position < |ledger.logs(Events, to)|;
      assert forall k | 0 <= k < |before| :: before[k] in before;
    }
  }

  /** A request handles exactly the events that come before the one at which something throws. */
  lemma AskHandlesIff(ledger: Ledger, s: Situation, r: Range, e: Event)
    requires WellFormed(ledger) && r.from <= e.block <= r.to && e in ledger.logs(Events, e.block)
    ensures Handles(ledger, Ask(ledger, s, Events, r), e) <==> Rank(ledger, r.from, e) < s.handled(Events, r)
  {
    var events, x := EventsIn(ledger, Events, r.from, r.to), Ask(ledger, s, Events, r);
    EventAt(ledger, r.from, r.to, e);
    var i := Rank(ledger, r.from, e);
    if i < x.handled {
      assert Scanner.Cut(events, x.handled)[i] == e;
    }
    if Handles(ledger, x, e) {
      var k :| 0 <= k < x.handled && Scanner.Cut(events, x.handled)[k] == e;
      assert events[k] == e;
    }
  }

  /** Nothing throws inside the batches of this run. */
  ghost predicate SwallowsNothing(ledger: Ledger, s: Situation) {
    forall r: Range :: s.handled(Events, r) >= |EventsIn(ledger, Events, r.from, r.to)|
  }

  predicate IsFull(ledger: Ledger, x: Action) {
    x.Request? && x.kind == Events ==> x.handled == |EventsIn(ledger, Events, x.range.from, x.range.to)|
  }

  lemma {:induction false} RequestsAreFull(ledger: Ledger, s: Situation, kind: Kind, ranges: seq<Range>)
    requires SwallowsNothing(ledger, s)
    ensures forall x | x in Requests(ledger, s, kind, ranges) :: IsFull(ledger, x)
    decreases |ranges|
  {
    if ranges != [] {
      RequestsAreFull(ledger, s, kind, ranges[..|ranges| - 1]);
    }
  }

  lemma RunIsFull(ledger: Ledger, lastBlock: int, s: Situation)
    requires SwallowsNothing(ledger, s)
    ensures forall x | x in RunActions(ledger, lastBlock, s) :: IsFull(ledger, x)
  {
    var fromBlock := lastBlock + 1;
    if fromBlock < ToBlock(s) {
      RequestsAreFull(ledger, s, Locks, AllBatches(Pages(fromBlock, ToBlock(s), s.currentBlock), RECORDS_PER_PAGE));
      RequestsAreFull(ledger, s, Events, AllBatches(Pages(fromBlock, ToBlock(s), ToBlock(s)), RECORDS_PER_PAGE));
    }
  }

  lemma {:induction false} HistoryIsFull(ledger: Ledger, startBlock: nat, file: Option<int>, attempts: seq<Attempt>)
    requires forall a | a in attempts :: SwallowsNothing(ledger, a.situation)
    ensures forall x | x in History(ledger, startBlock, file, attempts) :: IsFull(ledger, x)
    decreases |attempts|
  {
    hide RunActions, IsFull, SwallowsNothing;
    if attempts != [] {
      var before, x := attempts[..|attempts| - 1], attempts[|attempts| - 1];
      assert x in attempts && forall a | a in before :: a in attempts;
      HistoryIsFull(ledger, startBlock, file, before);
      RunIsFull(ledger, Checkpoint(ledger, startBlock, file, before), x.situation);
      Scanner.CutMembers(RunActions(ledger, Checkpoint(ledger, startBlock, file, before), x.situation), x.steps);
    }
  }

  /** What this scanner's checkpoint is worth: if no run finds a single new block and nothing
      throws inside a batch, every event up to the checkpoint has been handled, at every point
      of every sequence of runs, cut short or not. */
  lemma {:induction false} GapFreeIsHandled(ledger: Ledger, startBlock: nat, file: Option<int>, attempts: seq<Attempt>, e: Event)
    requires WellFormed(ledger) && e in ledger.logs(Events, e.block)
    requires GapFree(ledger, startBlock, file, attempts)
    requires forall a | a in attempts :: SwallowsNothing(ledger, a.situation)
    requires Scanner.LastBlock(file, startBlock) < e.block <= Checkpoint(ledger, startBlock, file, attempts)
    ensures Handled(ledger, History(ledger, startBlock, file, attempts), e)
  {
    hide GapFree, SwallowsNothing, Checkpoint;
    var h := History(ledger, startBlock, file, attempts);
    GapFreeIsAsked(ledger, startBlock, file, attempts, e.block);
    HistoryIsFull(ledger, startBlock, file, attempts);
    hide History;
    var k :| 0 <= k < |h| && Covers(h[k], e.block);
    assert IsFull(ledger, h[k]);
    EventsBelong(ledger, h[k].range.from, h[k].range.to, e);
    assert Handles(ledger, h[k], e);
  }

  lemma HandledConcat(ledger: Ledger, h: seq<Action>, more: seq<Action>, e: Event)
    requires WellFormed(ledger) && Handled(ledger, h + more, e) && !Handled(ledger, h, e)
    ensures Asked(more, e.block)
  {
    var k :| 0 <= k < |h + more| && Handles(ledger, (h + more)[k], e);
    HandlerCovers(ledger, (h + more)[k], e);
    assert Covers(more[k - |h|], e.block);
  }

  lemma CutAsksNoMore(run: seq<Action>, n: nat, b: int)
    ensures Asked(Scanner.Cut(run, n), b) ==> Asked(run, b)
  {
    if Asked(Scanner.Cut(run, n), b) {
      var k :| 0 <= k < |Scanner.Cut(run, n)| && Covers(Scanner.Cut(run, n)[k], b);
      assert Covers(run[k], b);
    }
  }

  /** An event the checkpoint has passed unhandled is never handled, whatever runs follow. */
  lemma {:induction false} PassedForGood(ledger: Ledger, startBlock: nat, file: Option<int>, attempts: seq<Attempt>,
                                         more: seq<Attempt>, e: Event)
    requires WellFormed(ledger) && e.block <= Checkpoint(ledger, startBlock, file, attempts)
    requires !Handled(ledger, History(ledger, startBlock, file, attempts), e)
    ensures !Handled(ledger, History(ledger, startBlock, file, attempts + more), e)
    ensures e.block <= Checkpoint(ledger, startBlock, file, attempts + more)
    decreases |more|
  {
    hide RunActions, Handled, History, Checkpoint;
    if more == [] {
      assert attempts + more == attempts;
    } else {
      var all, x := attempts + more, more[|more| - 1];
      assert all[..|all| - 1] == attempts + more[..|more| - 1] && all[|all| - 1] == x;
      PassedForGood(ledger, startBlock, file, attempts, more[..|more| - 1], e);
      StepOfHistory(ledger, startBlock, file, all);
      var last := Checkpoint(ledger, startBlock, file, all[..|all| - 1]);
      var run := RunActions(ledger, last, x.situation);
      RunAsks(ledger, last, x.situation, e.block);
      AskedIff(run, e.block);
      CutAsksNoMore(run, x.steps, e.block);
      if Handled(ledger, History(ledger, startBlock, file, all), e) {
        HandledConcat(ledger, History(ledger, startBlock, file, all[..|all| - 1]), Scanner.Cut(run, x.steps), e);
      }
    }
  }

  // ---------- runs that do all or nothing ----------

  ghost predicate IsWhole(ledger: Ledger, startBlock: nat, file: Option<int>, before: seq<Attempt>, x: Attempt) {
    x.steps == 0 || x.steps >= |RunActions(ledger, Checkpoint(ledger, startBlock, file, before), x.situation)|
  }

  /** What can throw out of a run does so before the first request. */
  ghost predicate AllOrNothing(ledger: Ledger, startBlock: nat, file: Option<int>, attempts: seq<Attempt>) {
    attempts == [] ||
    (AllOrNothing(ledger, startBlock, file, attempts[..|attempts| - 1])
     && IsWhole(ledger, startBlock, file, attempts[..|attempts| - 1], attempts[|attempts| - 1]))
  }

  /** So the histories of the class are those: whatever Run does to trace and file is one more
      attempt, all of it or nothing if it threw. */
  lemma {:induction false} RunIsAnAttempt(ledger: Ledger, startBlock: nat, file: Option<int>, attempts: seq<Attempt>, s: Situation,
                                          threw: bool, trace': seq<Action>, file': Option<int>)
    returns (more: seq<Attempt>)
    requires AllOrNothing(ledger, startBlock, file, attempts)
    requires var h := History(ledger, startBlock, file, attempts);
             var done := if threw then [] else RunActions(ledger, Scanner.LastBlock(FileAfter(file, h), startBlock), s);
             trace' == h + done && file' == FileAfter(FileAfter(file, h), done)
    ensures |more| == |attempts| + 1 && more[..|attempts|] == attempts && AllOrNothing(ledger, startBlock, file, more)
    ensures trace' == History(ledger, startBlock, file, more) && file' == FileAfter(file, trace')
  {
    hide RunActions;
    var h := History(ledger, startBlock, file, attempts);
    var run := RunActions(ledger, Scanner.LastBlock(FileAfter(file, h), startBlock), s);
    var done := if threw then [] else run;
    more := attempts + [Attempt(s, |done|)];
    assert more[..|attempts|] == attempts;
    assert Scanner.Cut(run, |done|) == done;
    FileAfterConcat(file, h, done);
    hide FileAfter;
  }

  lemma {:induction false} FileAfterConcat(file: Option<int>, a: seq<Action>, b: seq<Action>)
    ensures FileAfter(file, a + b) == FileAfter(FileAfter(file, a), b)
    decreases |b|
  {
    if b == [] {
      assert a + b == a;
    } else {
      assert (a + b)[..|a + b| - 1] == a + b[..|b| - 1];
      FileAfterConcat(file, a, b[..|b| - 1]);
    }
  }

  /** Some run that was carried out found b to be the only new block. */
  ghost predicate IsGapBlock(ledger: Ledger, startBlock: nat, file: Option<int>, attempts: seq<Attempt>, b: int) {
    exists i :: 0 <= i < |attempts| && attempts[i].steps > 0 && ToBlock(attempts[i].situation) == b
                && IsGap(Checkpoint(ledger, startBlock, file, attempts[..i]), attempts[i].situation)
  }

  lemma GapBlockStep(ledger: Ledger, startBlock: nat, file: Option<int>, attempts: seq<Attempt>, b: int)
    requires attempts != []
    ensures var before, x := attempts[..|attempts| - 1], attempts[|attempts| - 1];
            IsGapBlock(ledger, startBlock, file, attempts, b) <==>
            || IsGapBlock(ledger, startBlock, file, before, b)
            || (x.steps > 0 && ToBlock(x.situation) == b && IsGap(Checkpoint(ledger, startBlock, file, before), x.situation))
  {
    hide Checkpoint, IsGap, ToBlock;
    var before := attempts[..|attempts| - 1];
    forall i | 0 <= i < |before|
      ensures before[..i] == attempts[..i] && before[i] == attempts[i]
    {
    }
    if IsGapBlock(ledger, startBlock, file, before, b) {
      var i :| 0 <= i < |before| && before[i].steps > 0 && ToBlock(before[i].situation) == b
               && IsGap(Checkpoint(ledger, startBlock, file, before[..i]), before[i].situation);
      assert ToBlock(attempts[i].situation) == b && IsGap(Checkpoint(ledger, startBlock, file, attempts[..i]), attempts[i].situation);
    }
  }

  /** A block is asked for exactly once if it lies up to the checkpoint and was not the only new
      block of some run, and otherwise never. */
  lemma {:induction false} AskedOnce(ledger: Ledger, startBlock: nat, file: Option<int>, attempts: seq<Attempt>, b: int)
    requires AllOrNothing(ledger, startBlock, file, attempts)
    ensures Asks(History(ledger, startBlock, file, attempts), b) ==
            if Scanner.LastBlock(file, startBlock) < b <= Checkpoint(ledger, startBlock, file, attempts)
               && !IsGapBlock(ledger, startBlock, file, attempts, b) then 1 else 0
    ensures b > Checkpoint(ledger, startBlock, file, attempts) ==> !IsGapBlock(ledger, startBlock, file, attempts, b)
    ensures Checkpoint(ledger, startBlock, file, attempts) >= Scanner.LastBlock(file, startBlock)
    decreases |attempts|
  {
    hide RunActions;
    if attempts != [] {
      var before, x := attempts[..|attempts| - 1], attempts[|attempts| - 1];
      var last := Checkpoint(ledger, startBlock, file, before);
      AskedOnce(ledger, startBlock, file, before, b);
      StepOfHistory(ledger, startBlock, file, attempts);
      GapBlockStep(ledger, startBlock, file, attempts, b);
      var h, run := History(ledger, startBlock, file, before), RunActions(ledger, last, x.situation);
      RunIsNotEmpty(ledger, last, x.situation);
      hide History, Checkpoint;
      if x.steps == 0 {
        assert h + Scanner.Cut(run, 0) == h;
      } else {
        assert Scanner.Cut(run, x.steps) == run;
        SumConcat(h, run, IsAsk(b));
        RunAsks(ledger, last, x.situation, b);
      }
    }
  }

  lemma RunIsNotEmpty(ledger: Ledger, lastBlock: int, s: Situation)
    ensures |RunActions(ledger, lastBlock, s)| == 0 <==> HasNothingToDo(lastBlock, s)
  {
  }

  /** The blocks up to the checkpoint that were never asked for are exactly those that were the
      only new block of some run. */
  lemma {:induction false} UnaskedAreGaps(ledger: Ledger, startBlock: nat, file: Option<int>, attempts: seq<Attempt>, b: int)
    requires AllOrNothing(ledger, startBlock, file, attempts)
    requires Scanner.LastBlock(file, startBlock) < b <= Checkpoint(ledger, startBlock, file, attempts)
    ensures Asked(History(ledger, startBlock, file, attempts), b) <==> !IsGapBlock(ledger, startBlock, file, attempts, b)
  {
    AskedOnce(ledger, startBlock, file, attempts, b);
    AskedIff(History(ledger, startBlock, file, attempts), b);
  }

  /** Of a block that is asked for once, the events that are not cut off are handled. */
  lemma HandledUnlessCutOff(ledger: Ledger, h: seq<Action>, e: Event)
    requires WellFormed(ledger) && Asks(h, e.block) <= 1
    ensures Handled(ledger, h, e) <==> Asked(h, e.block) && !CutOff(ledger, h, e)
  {
    hide Handles;
    AskedIff(h, e.block);
    if Handled(ledger, h, e) {
      var k :| 0 <= k < |h| && Handles(ledger, h[k], e);
      HandlerCovers(ledger, h[k], e);
    } else if Asked(h, e.block) {
      var k :| 0 <= k < |h| && Covers(h[k], e.block);
      assert !Handles(ledger, h[k], e);
    }
  }

  /** Exactly which events up to the checkpoint have been handled: those in no gap, and not after
      the point of their batch where something threw. */
  lemma {:induction false} HandledIff(ledger: Ledger, startBlock: nat, file: Option<int>, attempts: seq<Attempt>, e: Event)
    requires WellFormed(ledger) && AllOrNothing(ledger, startBlock, file, attempts)
    requires Scanner.LastBlock(file, startBlock) < e.block <= Checkpoint(ledger, startBlock, file, attempts)
    ensures var h := History(ledger, startBlock, file, attempts);
            Handled(ledger, h, e) <==> !IsGapBlock(ledger, startBlock, file, attempts, e.block) && !CutOff(ledger, h, e)
  {
    hide AllOrNothing, Checkpoint, IsGapBlock, WellFormed, History, Handled, CutOff, Asked, Asks;
    AskedOnce(ledger, startBlock, file, attempts, e.block);
    UnaskedAreGaps(ledger, startBlock, file, attempts, e.block);
    HandledUnlessCutOff(ledger, History(ledger, startBlock, file, attempts), e);
  }

  // ---------- two runs that lose something ----------

  /** Start 10, toBlock 11: the run saves 11 and has asked for nothing. */
  lemma GapLosesBlock()
    ensures var ledger, s := Ledger((kind, b) => []), Situation(12, false, 1, (kind, r) => 0);
            var attempts := [Attempt(s, 1)];
            && AllOrNothing(ledger, 10, None, attempts)
            && Checkpoint(ledger, 10, None, attempts) == 11
            && !Asked(History(ledger, 10, None, attempts), 11)
  {
    var ledger, s := Ledger((kind, b) => []), Situation(12, false, 1, (kind, r) => 0);
    var attempts := [Attempt(s, 1)];
    assert attempts[..0] == [];
    assert RunActions(ledger, 10, s) == [Save(11)];
    StepOfHistory(ledger, 10, None, attempts);
    assert History(ledger, 10, None, attempts) == [Save(11)];
  }

  /** One event in block 12, and a fetch that throws. */
  function OneEvent(): Ledger {
    Ledger((kind, b) => if kind == Events && b == 12 then [Event(12, 0)] else [])
  }

  function FetchThrows(): Situation {
    Situation(15, false, 1, (kind, r) => 0)
  }

  /** Start 10, toBlock 14, no gap: the one batch throws, the run goes on and saves 14, and the
      event is not handled then or ever. The other scanner, for which CheckpointIsSafe holds,
      would not have saved. */
  lemma SwallowedFailureLosesEvent(more: seq<Attempt>)
    ensures var attempts := [Attempt(FetchThrows(), |RunActions(OneEvent(), 10, FetchThrows())|)];
            && WellFormed(OneEvent()) && Event(12, 0) in OneEvent().logs(Events, 12)
            && GapFree(OneEvent(), 10, None, attempts)
            && Checkpoint(OneEvent(), 10, None, attempts) == 14
            && !Handled(OneEvent(), History(OneEvent(), 10, None, attempts + more), Event(12, 0))
  {
    var ledger, s := OneEvent(), FetchThrows();
    var attempts := [Attempt(s, |RunActions(ledger, 10, s)|)];
    ExampleIs();
    hide OneEvent, FetchThrows, RunActions, History, Checkpoint, GapFree, Handled, WellFormed, IsGap, HasNothingToDo, ToBlock;
    OneRun(ledger, s);
    RunHandlesNothing(ledger, 10, s, Event(12, 0));
    PassedForGood(ledger, 10, None, attempts, more, Event(12, 0));
  }

  lemma ExampleIs()
    ensures WellFormed(OneEvent()) && Event(12, 0) in OneEvent().logs(Events, 12)
    ensures var s := FetchThrows();
            (forall kind, r :: s.handled(kind, r) == 0) && ToBlock(s) == 14 && !HasNothingToDo(10, s) && !IsGap(10, s)
  {
  }

  lemma OneRun(ledger: Ledger, s: Situation)
    ensures var run := RunActions(ledger, 10, s);
            var attempts := [Attempt(s, |run|)];
            && History(ledger, 10, None, attempts) == run
            && Checkpoint(ledger, 10, None, attempts) == (if HasNothingToDo(10, s) then 10 else ToBlock(s))
            && (GapFree(ledger, 10, None, attempts) <==> !IsGap(10, s))
  {
    var attempts := [Attempt(s, |RunActions(ledger, 10, s)|)];
    assert attempts[..0] == [];
    StepOfHistory(ledger, 10, None, attempts);
    RunIsNotEmpty(ledger, 10, s);
    assert Checkpoint(ledger, 10, None, []) == 10 && History(ledger, 10, None, []) == [];
  }

  lemma {:induction false} RequestsHandleNothing(ledger: Ledger, s: Situation, kind: Kind, ranges: seq<Range>)
    requires forall r :: s.handled(kind, r) == 0
    ensures forall x | x in Requests(ledger, s, kind, ranges) :: x.Request? && x.handled == 0
    decreases |ranges|
  {
    if ranges != [] {
      RequestsHandleNothing(ledger, s, kind, ranges[..|ranges| - 1]);
    }
  }

  lemma RunHandlesNothing(ledger: Ledger, lastBlock: int, s: Situation, e: Event)
    requires forall kind, r :: s.handled(kind, r) == 0
    ensures !Handled(ledger, RunActions(ledger, lastBlock, s), e)
  {
    var fromBlock := lastBlock + 1;
    if fromBlock < ToBlock(s) {
      RequestsHandleNothing(ledger, s, Locks, AllBatches(Pages(fromBlock, ToBlock(s), s.currentBlock), RECORDS_PER_PAGE));
      RequestsHandleNothing(ledger, s, Events, AllBatches(Pages(fromBlock, ToBlock(s), ToBlock(s)), RECORDS_PER_PAGE));
    }
    hide Requests, EventsIn, Pages, AllBatches;
    assert forall x | x in RunActions(ledger, lastBlock, s) && x.Request? :: x.handled == 0;
  }
}
