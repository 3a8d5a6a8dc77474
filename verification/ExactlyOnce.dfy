/** What the block scanner adds up to over runs that are not cut short. */
module ExactlyOnce {
  import opened CheckpointSafety
  import opened Paging
  import opened Scanner
  import opened Sums
  import opened Wrappers

  ghost predicate AbortFree(chain: Chain, startBlock: nat, file: Option<int>, attempts: seq<Attempt>) {
    attempts == [] ||
    (var before, last := attempts[..|attempts| - 1], attempts[|attempts| - 1];
     && AbortFree(chain, startBlock, file, before)
     && last.steps >= |RunActions(chain, Checkpoint(chain, startBlock, file, before), last.situation)|)
  }

  // ---------- the windows of the first pass ----------

  function Window(x: Action): seq<int> {
    match x
    case Fetch(r, false) => Blocks(r.from, r.to)
    case _ => []
  }

  function FirstPassBlocks(h: seq<Action>): seq<int> {
    if h == [] then [] else FirstPassBlocks(h[..|h| - 1]) + Window(h[|h| - 1])
  }

  lemma {:induction false} FirstPassBlocksConcat(a: seq<Action>, b: seq<Action>)
    ensures FirstPassBlocks(a + b) == FirstPassBlocks(a) + FirstPassBlocks(b)
    decreases |b|
  {
    hide Window;
    if b == [] {
      assert a + b == a;
    } else {
      var n := |b| - 1;
      assert (a + b)[..|a + b| - 1] == a + b[..n];
      FirstPassBlocksConcat(a, b[..n]);
      assert FirstPassBlocks(a) + (FirstPassBlocks(b[..n]) + Window(b[n]))
          == (FirstPassBlocks(a) + FirstPassBlocks(b[..n])) + Window(b[n]);
    }
  }

  lemma {:induction false} NoFirstPassFetch(a: seq<Action>)
    requires forall x | x in a :: x.Fetch? ==> x.mediumAndSmall
    ensures FirstPassBlocks(a) == []
  {
    if a != [] {
      assert a[|a| - 1] in a;
      NoFirstPassFetch(a[..|a| - 1]);
    }
  }

  lemma RestFetchesNothing(chain: Chain, r: Range, pass: Pass)
    ensures forall x | x in LogActions(chain, EventsIn(chain, r.from, r.to), pass) + SaveActions(r.to, pass) :: !x.Fetch?
  {
    LogActionsDeliver(chain, EventsIn(chain, r.from, r.to), pass);
  }

  lemma FirstWindow(x: Action, rest: seq<Action>)
    requires forall y | y in rest :: !y.Fetch?
    ensures FirstPassBlocks([x] + rest) == Window(x)
  {
    hide Window;
    NoFirstPassFetch(rest);
    FirstPassBlocksConcat([x], rest);
    assert [x][..0] == [];
  }

  lemma PageWindow(chain: Chain, r: Range, pass: Pass)
    ensures FirstPassBlocks(PageActions(chain, r, pass)) == if pass.mediumAndSmall then [] else Blocks(r.from, r.to)
  {
    var fetch := Fetch(r, pass.mediumAndSmall);
    var rest := LogActions(chain, EventsIn(chain, r.from, r.to), pass) + SaveActions(r.to, pass);
    RestFetchesNothing(chain, r, pass);
    FirstWindow(fetch, rest);
    assert PageActions(chain, r, pass) == [fetch] + rest;
  }

  lemma {:induction false} PagesWindow(chain: Chain, pages: seq<Range>, pass: Pass)
    ensures FirstPassBlocks(PagesActions(chain, pages, pass)) == if pass.mediumAndSmall then [] else Requested(pages)
    decreases |pages|
  {
    if pages != [] {
      var n := |pages| - 1;
      PagesWindow(chain, pages[..n], pass);
      PageWindow(chain, pages[n], pass);
      FirstPassBlocksConcat(PagesActions(chain, pages[..n], pass), PageActions(chain, pages[n], pass));
    }
  }

  lemma PassWindow(chain: Chain, from: int, to: int, pass: Pass)
    ensures FirstPassBlocks(PassActions(chain, from, to, pass)) ==
            if pass.mediumAndSmall then [] else Blocks(from, PassEnd(from, to))
  {
    var pages := PassTiles(chain, from, to, pass);
    PagesWindow(chain, pages, pass);
    TileIsExact(pages, from, PassEnd(from, to));
  }

  lemma RunWindow(chain: Chain, last: int, s: Situation)
    ensures FirstPassBlocks(RunActions(chain, last, s)) == Blocks(last + 1, RunEnd(last, s))
  {
    hide PassActions;
    var toBlock, newToBlock := s.currentBlock - s.confirmations.large, s.currentBlock - s.confirmations.small;
    var pass1, pass2 := Pass(s.currentBlock, s.confirmations, false), Pass(s.currentBlock, s.confirmations, true);
    PassWindow(chain, last + 1, toBlock, pass1);
    PassWindow(chain, toBlock, newToBlock, pass2);
    FirstPassBlocksConcat(PassActions(chain, last + 1, toBlock, pass1), PassActions(chain, toBlock, newToBlock, pass2));
  }

  lemma {:induction false} CompleteRun(chain: Chain, startBlock: nat, file: Option<int>, attempts: seq<Attempt>)
    requires WellFormed(chain) && attempts != [] && AbortFree(chain, startBlock, file, attempts)
    ensures var before, s := attempts[..|attempts| - 1], attempts[|attempts| - 1].situation;
            var last := Checkpoint(chain, startBlock, file, before);
            && last >= LastBlock(file, startBlock)
            && Checkpoint(chain, startBlock, file, attempts) == RunEnd(last, s) >= last
            && History(chain, startBlock, file, attempts)
               == History(chain, startBlock, file, before) + RunActions(chain, last, s)
  {
    hide RunActions;
    var before, x := attempts[..|attempts| - 1], attempts[|attempts| - 1];
    HistoryIsSafe(chain, startBlock, file, before);
    var last := Checkpoint(chain, startBlock, file, before);
    var reached := RunCut(chain, startBlock, file, LastBlock(file, startBlock), last,
                          History(chain, startBlock, file, before), x.situation, x.steps);
  }

  /** Over abort-free runs the windows of the first pass are contiguous and disjoint: put one
      after the other they are the blocks from the start to the checkpoint, each once. */
  lemma {:induction false} WindowsAreContiguous(chain: Chain, startBlock: nat, file: Option<int>, attempts: seq<Attempt>)
    requires WellFormed(chain) && AbortFree(chain, startBlock, file, attempts)
    ensures FirstPassBlocks(History(chain, startBlock, file, attempts))
            == Blocks(LastBlock(file, startBlock) + 1, Checkpoint(chain, startBlock, file, attempts))
    decreases |attempts|
  {
    hide RunActions, RunEnd, WellFormed, Window;
    if attempts != [] {
      var before, s := attempts[..|attempts| - 1], attempts[|attempts| - 1].situation;
      var last := Checkpoint(chain, startBlock, file, before);
      WindowsAreContiguous(chain, startBlock, file, before);
      CompleteRun(chain, startBlock, file, attempts);
      RunWindow(chain, last, s);
      FirstPassBlocksConcat(History(chain, startBlock, file, before), RunActions(chain, last, s));
      BlocksConcat(LastBlock(file, startBlock) + 1, last, RunEnd(last, s));
    }
  }

  // ---------- how often an event is handed over ----------

  function IsEvent(e: Event): Event -> int {
    (x: Event) => if x == e then 1 else 0
  }

  function IsDelivery(e: Event): Action -> int {
    (x: Action) => if x.Deliver? && x.event == e then 1 else 0
  }

  function Deliveries(h: seq<Action>, e: Event): int {
    Sum(h, IsDelivery(e))
  }

  lemma {:induction false} OnceInItsBlock(logs: seq<Event>, e: Event, n: nat)
    requires n <= |logs| && forall i | 0 <= i < |logs| :: logs[i].position == i
    ensures Sum(logs[..n], IsEvent(e)) == if e.position < n && logs[e.position] == e then 1 else 0
  {
    if n > 0 {
      OnceInItsBlock(logs, e, n - 1);
      SumPrefix(logs, n - 1, IsEvent(e));
    }
  }

  lemma {:induction false} OnceInItsRange(chain: Chain, from: int, to: int, e: Event)
    requires WellFormed(chain) && e in chain.logs(e.block)
    ensures Sum(EventsIn(chain, from, to), IsEvent(e)) == if from <= e.block <= to then 1 else 0
    decreases 0 - from + to
  {
    if from <= to {
      var logs := chain.logs(to);
      OnceInItsRange(chain, from, to - 1, e);
      OnceInItsBlock(logs, e, |logs|);
      assert logs[..|logs|] == logs;
      SumConcat(EventsIn(chain, from, to - 1), logs, IsEvent(e));
      if e.block == to {
        var i :| 0 <= i < |logs| && logs[i] == e;
      }
    }
  }

  lemma {:induction false} LogDeliveries(chain: Chain, logs: seq<Event>, pass: Pass, e: Event)
    ensures Deliveries(LogActions(chain, logs, pass), e)
            == if IsPostponed(chain, e, pass) then 0 else Sum(logs, IsEvent(e))
  {
    if logs != [] {
      var n := |logs| - 1;
      LogDeliveries(chain, logs[..n], pass, e);
      if !IsPostponed(chain, logs[n], pass) {
        SumSnoc(LogActions(chain, logs[..n], pass), Deliver(logs[n], pass), IsDelivery(e));
      } else {
        assert LogActions(chain, logs[..n], pass) + [] == LogActions(chain, logs[..n], pass);
      }
    }
  }

  lemma PageDeliveries(chain: Chain, r: Range, pass: Pass, e: Event)
    requires WellFormed(chain) && e in chain.logs(e.block)
    ensures Deliveries(PageActions(chain, r, pass), e)
            == if IsPostponed(chain, e, pass) || !(r.from <= e.block <= r.to) then 0 else 1
  {
    hide EventsIn, LogActions, Sum, WellFormed, IsPostponed;
    var fetch, logs, save := Fetch(r, pass.mediumAndSmall), LogActions(chain, EventsIn(chain, r.from, r.to), pass), SaveActions(r.to, pass);
    LogDeliveries(chain, EventsIn(chain, r.from, r.to), pass, e);
    OnceInItsRange(chain, r.from, r.to, e);
    SumConcat([fetch] + logs, save, IsDelivery(e));
    SumConcat([fetch], logs, IsDelivery(e));
    SumOfOne(fetch, IsDelivery(e));
    if save != [] {
      SumOfOne(Save(r.to), IsDelivery(e));
    } else {
      assert [fetch] + logs + save == [fetch] + logs;
    }
  }

  lemma {:induction false} PagesDeliveries(chain: Chain, pages: seq<Range>, from: int, end: int, pass: Pass, e: Event)
    requires WellFormed(chain) && e in chain.logs(e.block) && Tile(pages, from, end)
    ensures Deliveries(PagesActions(chain, pages, pass), e)
            == if IsPostponed(chain, e, pass) || !(from <= e.block <= end) then 0 else 1
    decreases |pages|
  {
    if pages != [] {
      var n := |pages| - 1;
      TilePrefix(pages, from, end);
      PagesDeliveries(chain, pages[..n], from, pages[n].from - 1, pass, e);
      PageDeliveries(chain, pages[n], pass, e);
      SumConcat(PagesActions(chain, pages[..n], pass), PageActions(chain, pages[n], pass), IsDelivery(e));
    }
  }

  lemma PassDeliveries(chain: Chain, from: int, to: int, pass: Pass, e: Event)
    requires WellFormed(chain) && e in chain.logs(e.block)
    ensures Deliveries(PassActions(chain, from, to, pass), e)
            == if IsPostponed(chain, e, pass) || !(from <= e.block <= PassEnd(from, to)) then 0 else 1
  {
    var pages := PassTiles(chain, from, to, pass);
    PagesDeliveries(chain, pages, from, PassEnd(from, to), pass, e);
  }

  predicate IsLarge(chain: Chain, e: Event) {
    e.amount > LimitsOf(chain, e).largeAmount
  }

  lemma RunDeliveries(chain: Chain, last: int, s: Situation, e: Event)
    requires WellFormed(chain) && e in chain.logs(e.block) && IsLarge(chain, e)
    ensures Deliveries(RunActions(chain, last, s), e) == if last < e.block <= RunEnd(last, s) then 1 else 0
  {
    hide PassActions, Sum, WellFormed, Deliveries;
    if HasNothingToDo(last, s) {
      NoDeliveries(e);
      assert RunActions(chain, last, s) == [];
    } else {
      var toBlock, newToBlock := s.currentBlock - s.confirmations.large, s.currentBlock - s.confirmations.small;
      var pass1, pass2 := Pass(s.currentBlock, s.confirmations, false), Pass(s.currentBlock, s.confirmations, true);
      PassDeliveries(chain, last + 1, toBlock, pass1, e);
      PassDeliveries(chain, toBlock, newToBlock, pass2, e);
      DeliveriesConcat(PassActions(chain, last + 1, toBlock, pass1), PassActions(chain, toBlock, newToBlock, pass2), e);
    }
  }

  lemma NoDeliveries(e: Event)
    ensures Deliveries([], e) == 0
  {
  }

  lemma DeliveriesConcat(a: seq<Action>, b: seq<Action>, e: Event)
    ensures Deliveries(a + b, e) == Deliveries(a, e) + Deliveries(b, e)
  {
    SumConcat(a, b, IsDelivery(e));
  }

  /** Over abort-free runs an event above the large amount is handed over exactly once if its
      block lies after the start and up to the checkpoint, and not at all before that, however
      often the second pass goes over its block. */
  lemma {:induction false} LargeEventsExactlyOnce(chain: Chain, startBlock: nat, file: Option<int>,
                                                  attempts: seq<Attempt>, e: Event)
    requires WellFormed(chain) && AbortFree(chain, startBlock, file, attempts)
    requires e in chain.logs(e.block) && IsLarge(chain, e)
    ensures Deliveries(History(chain, startBlock, file, attempts), e) ==
            if LastBlock(file, startBlock) < e.block <= Checkpoint(chain, startBlock, file, attempts) then 1 else 0
    decreases |attempts|
  {
    hide RunActions, RunEnd;
    if attempts != [] {
      var before, s := attempts[..|attempts| - 1], attempts[|attempts| - 1].situation;
      var last := Checkpoint(chain, startBlock, file, before);
      LargeEventsExactlyOnce(chain, startBlock, file, before, e);
      CompleteRun(chain, startBlock, file, attempts);
      RunDeliveries(chain, last, s, e);
      SumConcat(History(chain, startBlock, file, before), RunActions(chain, last, s), IsDelivery(e));
    }
  }
}
