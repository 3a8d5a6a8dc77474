/** Exactly which events a run of the block scanner hands over, in which pass and in which order,
    and how far it takes the checkpoint: in block numbers and amounts. */
module Handover {
  import opened CheckpointSafety
  import opened Paging
  import opened Scanner
  import opened Wrappers

  // ---------- one pass ----------

  lemma {:induction false} TileCovers(pages: seq<Range>, from: int, end: int, b: int)
    requires Tile(pages, from, end)
    ensures (exists r :: r in pages && r.from <= b <= r.to) <==> from <= b <= end
    decreases |pages|
  {
    if pages != [] {
      var before, last := pages[..|pages| - 1], pages[|pages| - 1];
      TilePrefix(pages, from, end);
      TileCovers(before, from, last.from - 1, b);
      assert forall r :: r in pages <==> r in before || r == last;
    }
  }

  lemma LogDelivers(chain: Chain, r: Range, pass: Pass, e: Event)
    requires WellFormed(chain)
    ensures Deliver(e, pass) in PageActions(chain, r, pass) <==>
            r.from <= e.block <= r.to && e in chain.logs(e.block) && !IsPostponed(chain, e, pass)
  {
    EventsBelong(chain, r.from, r.to);
    LogActionsDeliver(chain, EventsIn(chain, r.from, r.to), pass);
    hide EventsIn, LogActions, IsPostponed, WellFormed;
    assert Deliver(e, pass) in PageActions(chain, r, pass) <==>
           Deliver(e, pass) in LogActions(chain, EventsIn(chain, r.from, r.to), pass);
  }

  lemma {:induction false} PagesDeliver(chain: Chain, pages: seq<Range>, pass: Pass, e: Event)
    requires WellFormed(chain)
    ensures Deliver(e, pass) in PagesActions(chain, pages, pass) <==>
            (exists r :: r in pages && r.from <= e.block <= r.to) && e in chain.logs(e.block) && !IsPostponed(chain, e, pass)
    decreases |pages|
  {
    if pages != [] {
      var before, last := pages[..|pages| - 1], pages[|pages| - 1];
      hide PageActions, IsPostponed;
      PagesDeliver(chain, before, pass, e);
      LogDelivers(chain, last, pass, e);
      assert forall r :: r in pages <==> r in before || r == last;
    }
  }

  lemma PassDelivers(chain: Chain, from: int, to: int, pass: Pass, e: Event)
    requires WellFormed(chain)
    ensures Deliver(e, pass) in PassActions(chain, from, to, pass) <==>
            from < to && from <= e.block <= to && e in chain.logs(e.block) && !IsPostponed(chain, e, pass)
  {
    var pages := PassTiles(chain, from, to, pass);
    TileCovers(pages, from, PassEnd(from, to), e.block);
    PagesDeliver(chain, pages, pass, e);
  }

  lemma PassDeliversOnly(chain: Chain, from: int, to: int, pass: Pass)
    requires WellFormed(chain)
    ensures forall x | x in PassActions(chain, from, to, pass) && x.Deliver? :: x.pass == pass
  {
    var pages := PassTiles(chain, from, to, pass);
    PagesActionsAre(chain, pages, pass);
  }

  // ---------- a run ----------

  /** The guards of `run`: the node is in sync, and one of the two passes has confirmed blocks, not
      all of them done. */
  predicate Runs(last: int, s: Situation) {
    var toBlock, newToBlock := s.currentBlock - s.confirmations.large, s.currentBlock - s.confirmations.small;
    !s.isSyncing && (toBlock > 0 || newToBlock > 0) && (toBlock > last || newToBlock > last)
  }

  /** Exactly what a run that is not cut short hands over. First pass: every event of the blocks
      after the checkpoint down to the depth for large amounts, if there are two such blocks.
      Second pass: of the blocks from that depth to the depth for small amounts, every event
      that is not large and, if it is medium, lies at the medium depth. The limits are those of
      the token the bridge maps to, or of the token itself if it maps to none. */
  lemma HandedOverIff(chain: Chain, last: int, s: Situation, e: Event)
    requires WellFormed(chain)
    ensures var run := RunActions(chain, last, s);
            var toBlock, newToBlock := s.currentBlock - s.confirmations.large, s.currentBlock - s.confirmations.small;
            var side := chain.mappedToken(e.tokenAddress);
            var limits := chain.limits(if side == "0x0000000000000000000000000000000000000000" then e.tokenAddress else side);
            && (Deliver(e, Pass(s.currentBlock, s.confirmations, false)) in run <==>
                && Runs(last, s) && e in chain.logs(e.block)
                && last + 1 < toBlock && last + 1 <= e.block <= toBlock)
            && (Deliver(e, Pass(s.currentBlock, s.confirmations, true)) in run <==>
                && Runs(last, s) && e in chain.logs(e.block)
                && toBlock < newToBlock && toBlock <= e.block <= newToBlock
                && e.amount <= limits.largeAmount
                && (e.amount > limits.mediumAmount ==> s.currentBlock - e.block >= s.confirmations.medium))
  {
    var toBlock, newToBlock := s.currentBlock - s.confirmations.large, s.currentBlock - s.confirmations.small;
    var pass1, pass2 := Pass(s.currentBlock, s.confirmations, false), Pass(s.currentBlock, s.confirmations, true);
    hide PassActions, WellFormed;
    PassDelivers(chain, last + 1, toBlock, pass1, e);
    PassDelivers(chain, toBlock, newToBlock, pass2, e);
    PassDeliversOnly(chain, last + 1, toBlock, pass1);
    PassDeliversOnly(chain, toBlock, newToBlock, pass2);
  }

  /** Nothing else is handed over, and a run whose guards say so does nothing at all. */
  lemma NothingElse(chain: Chain, last: int, s: Situation)
    requires WellFormed(chain)
    ensures forall x | x in RunActions(chain, last, s) && x.Deliver? ::
              x.pass.currentBlock == s.currentBlock && x.pass.confirmations == s.confirmations
    ensures !Runs(last, s) ==> RunActions(chain, last, s) == []
  {
    hide PassActions, WellFormed;
    var toBlock, newToBlock := s.currentBlock - s.confirmations.large, s.currentBlock - s.confirmations.small;
    PassDeliversOnly(chain, last + 1, toBlock, Pass(s.currentBlock, s.confirmations, false));
    PassDeliversOnly(chain, toBlock, newToBlock, Pass(s.currentBlock, s.confirmations, true));
  }

  /** Where a run that is not cut short leaves the checkpoint: at the depth for large amounts if
      at least two blocks above it are that deep, and where it was otherwise. */
  lemma RunReaches(chain: Chain, startBlock: nat, file: Option<int>, attempts: seq<Attempt>, s: Situation, steps: nat)
    requires WellFormed(chain)
    requires steps >= |RunActions(chain, Checkpoint(chain, startBlock, file, attempts), s)|
    ensures var last, toBlock := Checkpoint(chain, startBlock, file, attempts), s.currentBlock - s.confirmations.large;
            Checkpoint(chain, startBlock, file, attempts + [Attempt(s, steps)])
            == if Runs(last, s) && toBlock >= last + 2 then toBlock else last
  {
    hide RunActions;
    var last := Checkpoint(chain, startBlock, file, attempts);
    HistoryIsSafe(chain, startBlock, file, attempts);
    var reached := RunCut(chain, startBlock, file, LastBlock(file, startBlock), last,
                          History(chain, startBlock, file, attempts), s, steps);
    assert (attempts + [Attempt(s, steps)])[..|attempts|] == attempts;
  }

  // ---------- order ----------

  predicate Before(a: Event, b: Event) {
    a.block < b.block || (a.block == b.block && a.position < b.position)
  }

  ghost predicate AreInOrder(events: seq<Event>) {
    forall i, j | 0 <= i < j < |events| :: Before(events[i], events[j])
  }

  ghost predicate InOrder(h: seq<Action>) {
    forall i, j | 0 <= i < j < |h| && h[i].Deliver? && h[j].Deliver? :: Before(h[i].event, h[j].event)
  }

  ghost predicate Within(h: seq<Action>, from: int, to: int) {
    forall x | x in h && x.Deliver? :: from <= x.event.block <= to
  }

  lemma {:induction false} EventsAreInOrder(chain: Chain, from: int, to: int)
    requires WellFormed(chain)
    ensures AreInOrder(EventsIn(chain, from, to))
    decreases (to - from)
  {
    if from <= to {
      var before := EventsIn(chain, from, to - 1);
      EventsAreInOrder(chain, from, to - 1);
      EventsBelong(chain, from, to - 1);
      assert forall i | 0 <= i < |before| :: before[i] in before;
    }
  }

  lemma {:induction false} LogsInOrder(chain: Chain, logs: seq<Event>, pass: Pass)
    requires AreInOrder(logs)
    ensures InOrder(LogActions(chain, logs, pass))
  {
    if logs != [] {
      var before, last := logs[..|logs| - 1], logs[|logs| - 1];
      LogsInOrder(chain, before, pass);
      LogActionsDeliver(chain, before, pass);
      var h := LogActions(chain, before, pass);
      forall i | 0 <= i < |h|
        ensures Before(h[i].event, last)
      {
        assert h[i] in h;
        var k :| 0 <= k < |before| && before[k] == h[i].event;
        assert logs[k] == before[k];
      }
    }
  }

  lemma InOrderConcat(a: seq<Action>, b: seq<Action>, from: int, mid: int, to: int)
    requires InOrder(a) && InOrder(b) && Within(a, from, mid) && Within(b, mid + 1, to) && from <= mid + 1 <= to + 1
    ensures InOrder(a + b) && Within(a + b, from, to)
  {
    forall i, j | 0 <= i < j < |a + b| && (a + b)[i].Deliver? && (a + b)[j].Deliver?
      ensures Before((a + b)[i].event, (a + b)[j].event)
    {
      assert i < |a| ==> a[i] in a;
      assert j >= |a| ==> b[j - |a|] in b;
    }
  }

  lemma PageInOrder(chain: Chain, r: Range, pass: Pass)
    requires WellFormed(chain)
    ensures InOrder(PageActions(chain, r, pass)) && Within(PageActions(chain, r, pass), r.from, r.to)
  {
    var events := EventsIn(chain, r.from, r.to);
    EventsAreInOrder(chain, r.from, r.to);
    EventsBelong(chain, r.from, r.to);
    LogsInOrder(chain, events, pass);
    LogActionsDeliver(chain, events, pass);
    hide EventsIn, LogActions, WellFormed;
  }

  lemma {:induction false} PagesInOrder(chain: Chain, pages: seq<Range>, from: int, end: int, pass: Pass)
    requires WellFormed(chain) && Tile(pages, from, end)
    ensures InOrder(PagesActions(chain, pages, pass)) && Within(PagesActions(chain, pages, pass), from, end)
    decreases |pages|
  {
    if pages != [] {
      var before, last := pages[..|pages| - 1], pages[|pages| - 1];
      TilePrefix(pages, from, end);
      hide PageActions, InOrder, Within, WellFormed;
      PagesInOrder(chain, before, from, last.from - 1, pass);
      PageInOrder(chain, last, pass);
      InOrderConcat(PagesActions(chain, before, pass), PageActions(chain, last, pass), from, last.from - 1, end);
    }
  }

  /** Each pass hands its events over in the order of the chain, none twice. */
  lemma PassInOrder(chain: Chain, from: int, to: int, pass: Pass)
    requires WellFormed(chain)
    ensures InOrder(PassActions(chain, from, to, pass))
  {
    var pages := PassTiles(chain, from, to, pass);
    PagesInOrder(chain, pages, from, PassEnd(from, to), pass);
  }
}
