/** The class FederatorHTR: the loops that carry out the actions of the scanner, with the
    checkpoint file they write. Any call to the outside may throw, which is a nondeterministic
    choice here; `threw` then stops everything above it. */
module FederatorHTR {
  import opened Handover
  import opened Paging
  import opened Scanner
  import opened Wrappers

  /** What was done of `todo`: all of it, or if something threw a part up to some point; never
      an event that processLog refuses; and the file is what those actions make of it. */
  ghost predicate Performed(chain: Chain, trace: seq<Action>, file: Option<int>, todo: seq<Action>,
                            trace': seq<Action>, file': Option<int>, threw: bool)
  {
    && trace <= trace'
    && trace'[|trace|..] <= todo
    && (threw || trace'[|trace|..] == todo)
    && (forall k | |trace| <= k < |trace'| && trace'[k].Deliver? :: !IsRefused(chain, trace'[k].event))
    && file' == FileAfter(file, trace'[|trace|..])
  }

  lemma PerformedNothing(chain: Chain, trace: seq<Action>, file: Option<int>, todo: seq<Action>)
    ensures Performed(chain, trace, file, todo, trace, file, true)
    ensures Performed(chain, trace, file, [], trace, file, false)
  {
    assert trace[|trace|..] == [];
  }

  lemma PerformedOne(chain: Chain, trace: seq<Action>, file: Option<int>, x: Action)
    requires x.Deliver? ==> !IsRefused(chain, x.event)
    ensures Performed(chain, trace, file, [x], trace + [x], FileAfter(file, [x]), false)
  {
    assert (trace + [x])[|trace|..] == [x];
  }

  /** First all of one list, then some of the next. */
  lemma PerformedThen(chain: Chain, t0: seq<Action>, f0: Option<int>, one: seq<Action>, t1: seq<Action>, f1: Option<int>,
                      two: seq<Action>, t2: seq<Action>, f2: Option<int>, threw: bool)
    requires Performed(chain, t0, f0, one, t1, f1, false)
    requires Performed(chain, t1, f1, two, t2, f2, threw)
    ensures Performed(chain, t0, f0, one + two, t2, f2, threw)
  {
    assert t1 == t0 + one;
    assert t2 == t1 + t2[|t1|..];
    assert t2[|t0|..] == one + t2[|t1|..];
    FileAfterConcat(f0, one, t2[|t1|..]);
    forall k | |t0| <= k < |t2| && t2[k].Deliver?
      ensures !IsRefused(chain, t2[k].event)
    {
      if k < |t1| {
        assert t2[k] == t1[k];
      }
    }
  }

  lemma PerformedPart(chain: Chain, t0: seq<Action>, f0: Option<int>, one: seq<Action>, more: seq<Action>,
                      t1: seq<Action>, f1: Option<int>)
    requires Performed(chain, t0, f0, one, t1, f1, true)
    ensures Performed(chain, t0, f0, one + more, t1, f1, true)
  {
  }

  class FederatorHTR {
    const chain: Chain
    const startBlock: nat
    var file: Option<int>
    var trace: seq<Action>

    constructor (chain: Chain, startBlock: nat, file: Option<int>)
      ensures this.chain == chain && this.startBlock == startBlock && this.file == file && trace == []
    {
      this.chain := chain;
      this.startBlock := startBlock;
      this.file := file;
      this.trace := [];
    }

    method GetLastBlock() returns (fromBlock: int)
      ensures fromBlock == LastBlock(file, startBlock)
      ensures fromBlock >= startBlock
      ensures fromBlock == startBlock || file == Some(fromBlock)
      ensures file.Some? ==> fromBlock >= file.value
    {
      match file
      case None => fromBlock := startBlock;
      case Some(block) => fromBlock := block;
      if fromBlock < startBlock {
        fromBlock := startBlock;
      }
    }

    method SaveProgress(value: int)
      modifies this
      ensures Performed(chain, old(trace), old(file), if value == 0 then [] else [Save(value)], trace, file, false)
    {
      PerformedNothing(chain, trace, file, []);
      if value != 0 {
        PerformedOne(chain, trace, file, Save(value));
        file := Some(value);
        trace := trace + [Save(value)];
      }
    }

    /** It throws by itself for a token that is neither mapped nor allowed, and for no other;
        `fails` says whether processTransaction or a question to a contract throws. */
    method ProcessLog(e: Event, pass: Pass, fails: bool) returns (threw: bool)
      modifies this
      ensures Performed(chain, old(trace), old(file), EventActions(chain, e, pass), trace, file, threw)
      ensures chain.mappedToken(e.tokenAddress) == ZERO_ADDRESS && !chain.limits(e.tokenAddress).allowed ==> threw
      ensures threw ==> fails || (chain.mappedToken(e.tokenAddress) == ZERO_ADDRESS && !chain.limits(e.tokenAddress).allowed)
    {
      PerformedNothing(chain, trace, file, EventActions(chain, e, pass));
      var early := *;
      if fails && early {
        return true;
      }
      var sideTokenAddress := chain.mappedToken(e.tokenAddress);
      var limits: Limits;
      if sideTokenAddress == ZERO_ADDRESS {
        limits := chain.limits(e.tokenAddress);
        if !limits.allowed {
          return true;
        }
      } else {
        limits := chain.limits(sideTokenAddress);
      }
      if pass.mediumAndSmall {
        if e.amount > limits.largeAmount {
          return false;
        }
        if e.amount > limits.mediumAmount && pass.currentBlock - e.block < pass.confirmations.medium {
          return false;
        }
      }
      if fails {
        return true;
      }
      PerformedOne(chain, trace, file, Deliver(e, pass));
      trace := trace + [Deliver(e, pass)];
      threw := false;
    }

    method ProcessLogs(logs: seq<Event>, pass: Pass) returns (threw: bool)
      modifies this
      ensures Performed(chain, old(trace), old(file), LogActions(chain, logs, pass), trace, file, threw)
    {
      PerformedNothing(chain, trace, file, []);
      for k := 0 to |logs|
        invariant Performed(chain, old(trace), old(file), LogActions(chain, logs[..k], pass), trace, file, false)
      {
        ghost var t, f := trace, file;
        var fails := *;
        var failed := ProcessLog(logs[k], pass, fails);
        assert logs[..k + 1][..k] == logs[..k];
        PerformedThen(chain, old(trace), old(file), LogActions(chain, logs[..k], pass), t, f,
                      EventActions(chain, logs[k], pass), trace, file, failed);
        if failed {
          LogActionsPrefix(chain, logs, k + 1, pass);
          return true;
        }
      }
      assert logs[..|logs|] == logs;
      threw := false;
    }

    /** One page: fetch, process, and in the first pass save. */
    method ProcessPage(r: Range, pass: Pass) returns (threw: bool)
      modifies this
      ensures Performed(chain, old(trace), old(file), PageActions(chain, r, pass), trace, file, threw)
    {
      ghost var t0, f0 := trace, file;
      ghost var fetch, logs := [Fetch(r, pass.mediumAndSmall)], LogActions(chain, EventsIn(chain, r.from, r.to), pass);
      PerformedNothing(chain, t0, f0, PageActions(chain, r, pass));
      if * {
        return true;
      }
      PerformedOne(chain, trace, file, Fetch(r, pass.mediumAndSmall));
      trace := trace + [Fetch(r, pass.mediumAndSmall)];
      ghost var t1 := trace;
      threw := ProcessLogs(EventsIn(chain, r.from, r.to), pass);
      PerformedThen(chain, t0, f0, fetch, t1, f0, logs, trace, file, threw);
      if threw {
        PerformedPart(chain, t0, f0, fetch + logs, SaveActions(r.to, pass), trace, file);
        return;
      }
      ghost var t2, f2 := trace, file;
      PerformedNothing(chain, t2, f2, []);
      if !pass.mediumAndSmall {
        SaveProgress(r.to);
      }
      PerformedThen(chain, t0, f0, fetch + logs, t2, f2, SaveActions(r.to, pass), trace, file, false);
    }

    method GetLogsAndProcess(fromBlock: int, toBlock: int, pass: Pass) returns (threw: bool)
      modifies this
      ensures Performed(chain, old(trace), old(file), PassActions(chain, fromBlock, toBlock, pass), trace, file, threw)
    {
      hide Performed, PageActions;
      PerformedNothing(chain, trace, file, []);
      if fromBlock >= toBlock {
        return false;
      }
      var numberOfPages := PageCount(fromBlock, toBlock);
      var fromPageBlock := fromBlock;
      for currentPage := 1 to numberOfPages + 1
        invariant currentPage <= numberOfPages ==> fromPageBlock == fromBlock + RECORDS_PER_PAGE * (currentPage - 1)
        invariant Performed(chain, old(trace), old(file),
                            PagesActions(chain, FirstPages(fromBlock, numberOfPages, toBlock, currentPage - 1), pass), trace, file, false)
      {
        var toPagedBlock := fromPageBlock + RECORDS_PER_PAGE - 1;
        if currentPage == numberOfPages {
          toPagedBlock := toBlock;
        }
        ghost var t, f := trace, file;
        var failed := ProcessPage(Range(fromPageBlock, toPagedBlock), pass);
        NextPage(chain, old(trace), old(file), fromBlock, numberOfPages, toBlock, currentPage - 1, pass, t, f, trace, file, failed);
        if failed {
          LaterPages(chain, old(trace), old(file), fromBlock, numberOfPages, toBlock, currentPage, pass, trace, file);
          return true;
        }
        fromPageBlock := toPagedBlock + 1;
      }
      threw := false;
    }

    /** What a run returns, unless it threw. */
    method Run(s: Situation) returns (threw: bool, success: bool)
      modifies this
      ensures Performed(chain, old(trace), old(file), RunActions(chain, LastBlock(old(file), startBlock), s), trace, file, threw)
      ensures !threw ==> (success <==> Runs(LastBlock(old(file), startBlock), s))
    {
      hide Performed, PassActions;
      success := false;
      ghost var t0, f0, last := trace, file, LastBlock(file, startBlock);
      PerformedNothing(chain, t0, f0, RunActions(chain, last, s));
      if * {
        return true, false;
      }
      if s.isSyncing {
        return false, false;
      }
      var toBlock := s.currentBlock - s.confirmations.large;
      var newToBlock := s.currentBlock - s.confirmations.small;
      if toBlock <= 0 && newToBlock <= 0 {
        return false, false;
      }
      var fromBlock := GetLastBlock();
      if fromBlock >= toBlock && fromBlock >= newToBlock {
        return false, false;
      }
      fromBlock := fromBlock + 1;
      threw := GetLogsAndProcess(fromBlock, toBlock, Pass(s.currentBlock, s.confirmations, false));
      if threw {
        PerformedPart(chain, t0, f0, FirstPass(chain, last, s), SecondPass(chain, s), trace, file);
        return;
      }
      ghost var t1, f1 := trace, file;
      threw := GetLogsAndProcess(toBlock, newToBlock, Pass(s.currentBlock, s.confirmations, true));
      PerformedThen(chain, t0, f0, FirstPass(chain, last, s), t1, f1, SecondPass(chain, s), trace, file, threw);
      success := true;
    }
  }

  lemma {:induction false} LogActionsPrefix(chain: Chain, logs: seq<Event>, k: nat, pass: Pass)
    requires k <= |logs|
    ensures LogActions(chain, logs[..k], pass) <= LogActions(chain, logs, pass)
    decreases |logs|
  {
    if k < |logs| {
      LogActionsPrefix(chain, logs[..|logs| - 1], k, pass);
      assert logs[..|logs| - 1][..k] == logs[..k];
    } else {
      assert logs[..k] == logs;
    }
  }

  lemma {:induction false} NextPage(chain: Chain, t0: seq<Action>, f0: Option<int>, from: int, count: nat, end: int, k: nat, pass: Pass,
                                    t1: seq<Action>, f1: Option<int>, t2: seq<Action>, f2: Option<int>, threw: bool)
    requires Performed(chain, t0, f0, PagesActions(chain, FirstPages(from, count, end, k), pass), t1, f1, false)
    requires Performed(chain, t1, f1, PageActions(chain, Page(from, count, end, k), pass), t2, f2, threw)
    ensures Performed(chain, t0, f0, PagesActions(chain, FirstPages(from, count, end, k + 1), pass), t2, f2, threw)
  {
    hide Performed;
    PerformedThen(chain, t0, f0, PagesActions(chain, FirstPages(from, count, end, k), pass), t1, f1,
                  PageActions(chain, Page(from, count, end, k), pass), t2, f2, threw);
    PagesActionsSnoc(chain, FirstPages(from, count, end, k), Page(from, count, end, k), pass);
  }

  lemma PagesActionsSnoc(chain: Chain, pages: seq<Range>, r: Range, pass: Pass)
    ensures PagesActions(chain, pages + [r], pass) == PagesActions(chain, pages, pass) + PageActions(chain, r, pass)
  {
    hide PageActions;
    assert (pages + [r])[..|pages|] == pages;
  }

  lemma {:induction false} LaterPages(chain: Chain, t0: seq<Action>, f0: Option<int>, from: int, count: nat, end: int, k: nat,
                                      pass: Pass, t1: seq<Action>, f1: Option<int>)
    requires k <= count && Performed(chain, t0, f0, PagesActions(chain, FirstPages(from, count, end, k), pass), t1, f1, true)
    ensures Performed(chain, t0, f0, PagesActions(chain, FirstPages(from, count, end, count), pass), t1, f1, true)
    decreases count - k
  {
    hide Performed, PageActions;
    if k < count {
      var here, next := FirstPages(from, count, end, k), Page(from, count, end, k);
      PagesActionsSnoc(chain, here, next, pass);
      PerformedPart(chain, t0, f0, PagesActions(chain, here, pass), PageActions(chain, next, pass), t1, f1);
      LaterPages(chain, t0, f0, from, count, end, k + 1, pass, t1, f1);
    }
  }

  /** So the class's runs make exactly the histories whose checkpoints are proved safe: each
      call of Run adds an attempt, cut short only if it threw. */
  lemma {:induction false} RunExtendsHistory(chain: Chain, startBlock: nat, file: Option<int>, attempts: seq<Attempt>, s: Situation,
                                             trace': seq<Action>, file': Option<int>, threw: bool) returns (steps: nat)
    requires var h := History(chain, startBlock, file, attempts);
             Performed(chain, h, FileAfter(file, h), RunActions(chain, LastBlock(FileAfter(file, h), startBlock), s), trace', file', threw)
    ensures trace' == History(chain, startBlock, file, attempts + [Attempt(s, steps)])
    ensures file' == FileAfter(file, trace')
    ensures !threw ==> steps >= |RunActions(chain, Checkpoint(chain, startBlock, file, attempts), s)|
  {
    hide RunActions;
    var h := History(chain, startBlock, file, attempts);
    var done := trace'[|h|..];
    steps := |done|;
    assert (attempts + [Attempt(s, steps)])[..|attempts|] == attempts;
    assert trace' == h + done;
    FileAfterConcat(file, h, done);
  }
}
