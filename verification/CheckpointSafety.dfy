/** What the checkpoint of the block scanner is worth, over every sequence of runs. */
module CheckpointSafety {
  import opened Paging
  import opened Scanner
  import opened Wrappers

  predicate IsDeliveryOf(x: Action, e: Event) {
    x.Deliver? && x.event == e
  }

  ghost predicate Delivered(h: seq<Action>, e: Event) {
    exists k :: 0 <= k < |h| && IsDeliveryOf(h[k], e)
  }

  /** Every event in (first, last] has been handed over. */
  ghost predicate Safe(chain: Chain, first: int, last: int, h: seq<Action>) {
    forall e: Event | first < e.block <= last && e in chain.logs(e.block) :: Delivered(h, e)
  }

  lemma DeliveredStays(h: seq<Action>, more: seq<Action>, e: Event)
    requires Delivered(h, e)
    ensures Delivered(h + more, e)
  {
    var k :| 0 <= k < |h| && IsDeliveryOf(h[k], e);
    assert (h + more)[k] == h[k];
  }

  lemma SafeStays(chain: Chain, first: int, last: int, h: seq<Action>, more: seq<Action>)
    requires Safe(chain, first, last, h)
    ensures Safe(chain, first, last, h + more)
  {
    forall e: Event | first < e.block <= last && e in chain.logs(e.block)
      ensures Delivered(h + more, e)
    {
      DeliveredStays(h, more, e);
    }
  }

  /** The state of a history: file and events handed over agree up to `last`. */
  ghost predicate UpTo(chain: Chain, startBlock: nat, file: Option<int>, first: int, last: int, h: seq<Action>) {
    LastBlock(FileAfter(file, h), startBlock) == last && first <= last && Safe(chain, first, last, h)
  }

  lemma SilentActions(chain: Chain, startBlock: nat, file: Option<int>, first: int, last: int, h: seq<Action>, more: seq<Action>)
    requires UpTo(chain, startBlock, file, first, last, h)
    requires forall x | x in more :: !x.Save?
    ensures UpTo(chain, startBlock, file, first, last, h + more)
  {
    SafeStays(chain, first, last, h, more);
    FileAfterConcat(file, h, more);
    NothingSaved(FileAfter(file, h), more);
  }

  lemma PageDelivers(chain: Chain, first: int, last: int, h: seq<Action>, r: Range, pass: Pass)
    requires WellFormed(chain) && Safe(chain, first, last, h) && !pass.mediumAndSmall && r.from == last + 1
    ensures Safe(chain, first, r.to, h + ([Fetch(r, false)] + LogActions(chain, EventsIn(chain, r.from, r.to), pass)))
  {
    var events := EventsIn(chain, r.from, r.to);
    var logs := LogActions(chain, events, pass);
    var work := [Fetch(r, false)] + logs;
    LogActionsDeliver(chain, events, pass);
    EventsBelong(chain, r.from, r.to);
    SafeStays(chain, first, last, h, work);
    forall e: Event | last < e.block <= r.to && e in chain.logs(e.block)
      ensures Delivered(h + work, e)
    {
      assert Deliver(e, pass) in logs;
      var k :| 0 <= k < |logs| && logs[k] == Deliver(e, pass);
      assert (h + work)[|h| + 1 + k] == Deliver(e, pass);
    }
  }

  lemma SavedLast(file: Option<int>, h: seq<Action>, block: int)
    ensures FileAfter(file, h + [Save(block)]) == Some(block)
  {
  }

  /** A page of the first pass, cut anywhere: the checkpoint moves only with its last action,
      and then every event of the page has been handed over. */
  lemma PageCut(chain: Chain, startBlock: nat, file: Option<int>, first: int, last: int, h: seq<Action>,
                r: Range, pass: Pass, n: nat)
    requires WellFormed(chain) && UpTo(chain, startBlock, file, first, last, h)
    requires !pass.mediumAndSmall && r.from == last + 1 && startBlock <= last && r.from <= r.to && r.to != 0
    ensures var page := PageActions(chain, r, pass);
            UpTo(chain, startBlock, file, first, if n >= |page| then r.to else last, h + Cut(page, n))
  {
    var logs := LogActions(chain, EventsIn(chain, r.from, r.to), pass);
    var work := [Fetch(r, false)] + logs;
    LogActionsDeliver(chain, EventsIn(chain, r.from, r.to), pass);
    assert PageActions(chain, r, pass) == work + [Save(r.to)];
    if n <= |work| {
      assert Cut(work + [Save(r.to)], n) == Cut(work, n);
      CutMembers(work, n);
      SilentActions(chain, startBlock, file, first, last, h, Cut(work, n));
    } else {
      assert h + (work + [Save(r.to)]) == (h + work) + [Save(r.to)];
      PageDelivers(chain, first, last, h, r, pass);
      SafeStays(chain, first, r.to, h + work, [Save(r.to)]);
      assert Cut(work + [Save(r.to)], n) == work + [Save(r.to)];
      SavedLast(file, h + work, r.to);
    }
  }

  lemma MorePages(chain: Chain, pages: seq<Range>, pass: Pass, h: seq<Action>, n: nat)
    requires pages != []
    ensures var earlier := PagesActions(chain, pages[..|pages| - 1], pass);
            var page := PageActions(chain, pages[|pages| - 1], pass);
            && |PagesActions(chain, pages, pass)| == |earlier| + |page| && |page| > 0
            && (n <= |earlier| ==> Cut(PagesActions(chain, pages, pass), n) == Cut(earlier, n))
            && (n > |earlier| ==> h + Cut(PagesActions(chain, pages, pass), n) == (h + earlier) + Cut(page, n - |earlier|)
                                  && Cut(earlier, n) == earlier)
  {
    var earlier := PagesActions(chain, pages[..|pages| - 1], pass);
    var page := PageActions(chain, pages[|pages| - 1], pass);
    CutConcat(earlier, page, n);
    if n > |earlier| {
      assert h + (earlier + Cut(page, n - |earlier|)) == (h + earlier) + Cut(page, n - |earlier|);
    }
  }

  lemma {:induction false} PagesCut(chain: Chain, startBlock: nat, file: Option<int>, first: int, last: int, h: seq<Action>,
                                    pages: seq<Range>, end: int, pass: Pass, n: nat) returns (reached: int)
    requires WellFormed(chain) && UpTo(chain, startBlock, file, first, last, h)
    requires !pass.mediumAndSmall && startBlock <= last && Tile(pages, last + 1, end)
    ensures UpTo(chain, startBlock, file, first, reached, h + Cut(PagesActions(chain, pages, pass), n))
    ensures last <= reached && (n >= |PagesActions(chain, pages, pass)| ==> reached == end)
    decreases |pages|
  {
    if pages == [] {
      assert h + Cut(PagesActions(chain, pages, pass), n) == h;
      reached := last;
    } else {
      var k := |pages| - 1;
      var earlier := |PagesActions(chain, pages[..k], pass)|;
      TilePrefix(pages, last + 1, end);
      MorePages(chain, pages, pass, h, n);
      reached := PagesCut(chain, startBlock, file, first, last, h, pages[..k], pages[k].from - 1, pass, n);
      if n > earlier {
        PageCut(chain, startBlock, file, first, reached, h + PagesActions(chain, pages[..k], pass), pages[k], pass, n - earlier);
        if n - earlier >= |PageActions(chain, pages[k], pass)| {
          reached := pages[k].to;
        }
      }
    }
  }

  lemma NothingDone(h: seq<Action>, n: nat)
    ensures h + Cut([], n) == h
  {
  }

  function PassEnd(from: int, to: int): int {
    if from < to then to else from - 1
  }

  lemma PassTiles(chain: Chain, from: int, to: int, pass: Pass) returns (pages: seq<Range>)
    ensures Tile(pages, from, PassEnd(from, to))
    ensures PassActions(chain, from, to, pass) == PagesActions(chain, pages, pass)
  {
    if from < to {
      pages := Pages(from, to, to);
      PagesTile(from, to, to);
    } else {
      pages := [];
    }
  }

  lemma PassCut(chain: Chain, startBlock: nat, file: Option<int>, first: int, last: int, h: seq<Action>,
                from: int, to: int, pass: Pass, n: nat) returns (reached: int)
    requires WellFormed(chain) && UpTo(chain, startBlock, file, first, last, h)
    requires startBlock <= last && from == last + 1 && !pass.mediumAndSmall
    ensures UpTo(chain, startBlock, file, first, reached, h + Cut(PassActions(chain, from, to, pass), n))
    ensures last <= reached && (n >= |PassActions(chain, from, to, pass)| ==> reached == PassEnd(from, to))
  {
    var pages := PassTiles(chain, from, to, pass);
    reached := PagesCut(chain, startBlock, file, first, last, h, pages, PassEnd(from, to), pass, n);
  }

  lemma PassSavesNothing(chain: Chain, from: int, to: int, pass: Pass)
    requires WellFormed(chain) && pass.mediumAndSmall
    ensures forall x | x in PassActions(chain, from, to, pass) :: !x.Save?
  {
    var pages := PassTiles(chain, from, to, pass);
    PagesActionsAre(chain, pages, pass);
  }

  lemma ThenSilent(chain: Chain, startBlock: nat, file: Option<int>, first: int, last: int, h: seq<Action>,
                   one: seq<Action>, two: seq<Action>, n: nat)
    requires UpTo(chain, startBlock, file, first, last, h + Cut(one, n))
    requires forall x | x in two :: !x.Save?
    ensures UpTo(chain, startBlock, file, first, last, h + Cut(one + two, n))
  {
    CutConcat(one, two, n);
    if n > |one| {
      var rest := Cut(two, n - |one|);
      CutMembers(two, n - |one|);
      assert Cut(one, n) == one;
      SilentActions(chain, startBlock, file, first, last, h + one, rest);
      assert h + (one + rest) == (h + one) + rest;
    }
  }

  lemma TwoPassesCut(chain: Chain, startBlock: nat, file: Option<int>, first: int, last: int, h: seq<Action>,
                     from: int, toBlock: int, newToBlock: int, pass1: Pass, pass2: Pass, n: nat) returns (reached: int)
    requires WellFormed(chain) && UpTo(chain, startBlock, file, first, last, h)
    requires startBlock <= last && from == last + 1 && !pass1.mediumAndSmall && pass2.mediumAndSmall
    ensures UpTo(chain, startBlock, file, first, reached,
                 h + Cut(PassActions(chain, from, toBlock, pass1) + PassActions(chain, toBlock, newToBlock, pass2), n))
    ensures last <= reached
    ensures n >= |PassActions(chain, from, toBlock, pass1)| ==> reached == PassEnd(from, toBlock)
  {
    var one, two := PassActions(chain, from, toBlock, pass1), PassActions(chain, toBlock, newToBlock, pass2);
    reached := PassCut(chain, startBlock, file, first, last, h, from, toBlock, pass1, n);
    PassSavesNothing(chain, toBlock, newToBlock, pass2);
    ThenSilent(chain, startBlock, file, first, reached, h, one, two, n);
  }

  /** The checkpoint after a run that is not cut short. */
  function RunEnd(last: int, s: Situation): int {
    if HasNothingToDo(last, s) then last else PassEnd(last + 1, s.currentBlock - s.confirmations.large)
  }

  lemma RunCut(chain: Chain, startBlock: nat, file: Option<int>, first: int, last: int, h: seq<Action>,
               s: Situation, n: nat) returns (reached: int)
    requires WellFormed(chain) && UpTo(chain, startBlock, file, first, last, h) && startBlock <= last
    ensures UpTo(chain, startBlock, file, first, reached, h + Cut(RunActions(chain, last, s), n))
    ensures last <= reached && (n >= |RunActions(chain, last, s)| ==> reached == RunEnd(last, s))
  {
    hide PassActions;
    if HasNothingToDo(last, s) {
      NothingDone(h, n);
      reached := last;
    } else {
      reached := TwoPassesCut(chain, startBlock, file, first, last, h, last + 1,
                              s.currentBlock - s.confirmations.large, s.currentBlock - s.confirmations.small,
                              Pass(s.currentBlock, s.confirmations, false), Pass(s.currentBlock, s.confirmations, true), n);
    }
  }

  lemma {:induction false} HistoryIsSafe(chain: Chain, startBlock: nat, file: Option<int>, attempts: seq<Attempt>)
    requires WellFormed(chain)
    ensures UpTo(chain, startBlock, file, LastBlock(file, startBlock), Checkpoint(chain, startBlock, file, attempts),
                 History(chain, startBlock, file, attempts))
    ensures attempts != [] ==>
              Checkpoint(chain, startBlock, file, attempts[..|attempts| - 1]) <= Checkpoint(chain, startBlock, file, attempts)
    decreases |attempts|
  {
    if attempts != [] {
      var before, x := attempts[..|attempts| - 1], attempts[|attempts| - 1];
      HistoryIsSafe(chain, startBlock, file, before);
      var reached := RunCut(chain, startBlock, file, LastBlock(file, startBlock), Checkpoint(chain, startBlock, file, before),
                            History(chain, startBlock, file, before), x.situation, x.steps);
    }
  }

  /** Checkpoint safety, at every point of every sequence of runs, each of which may be cut off
      after any number of its actions: every Cross event in a block after the start and up to
      the saved checkpoint has been handed to processTransaction. */
  lemma {:induction false} CheckpointIsSafe(chain: Chain, startBlock: nat, file: Option<int>, attempts: seq<Attempt>, e: Event)
    requires WellFormed(chain) && e in chain.logs(e.block)
    requires LastBlock(file, startBlock) < e.block <= Checkpoint(chain, startBlock, file, attempts)
    ensures Delivered(History(chain, startBlock, file, attempts), e)
  {
    HistoryIsSafe(chain, startBlock, file, attempts);
  }

  /** And no further run, cut off or not, takes the checkpoint back. */
  lemma {:induction false} CheckpointNeverDecreases(chain: Chain, startBlock: nat, file: Option<int>, attempts: seq<Attempt>, next: Attempt)
    requires WellFormed(chain)
    ensures Checkpoint(chain, startBlock, file, attempts) <= Checkpoint(chain, startBlock, file, attempts + [next])
  {
    HistoryIsSafe(chain, startBlock, file, attempts + [next]);
    assert (attempts + [next])[..|attempts|] == attempts;
  }

  /** An event that processLog refuses therefore stops the checkpoint short of its block for good. */
  lemma RefusedEventHoldsCheckpoint(chain: Chain, startBlock: nat, file: Option<int>, attempts: seq<Attempt>, e: Event)
    requires WellFormed(chain) && e in chain.logs(e.block) && LastBlock(file, startBlock) < e.block
    requires forall x | x in History(chain, startBlock, file, attempts) && x.Deliver? :: !IsRefused(chain, x.event)
    requires chain.mappedToken(e.tokenAddress) == ZERO_ADDRESS && !chain.limits(e.tokenAddress).allowed
    ensures Checkpoint(chain, startBlock, file, attempts) < e.block
  {
    if e.block <= Checkpoint(chain, startBlock, file, attempts) {
      CheckpointIsSafe(chain, startBlock, file, attempts, e);
    }
  }

  // ---------- confirmations ----------

  function NeededConfirmations(chain: Chain, e: Event, c: Confirmations): nat {
    var limits := LimitsOf(chain, e);
    if e.amount > limits.largeAmount then c.large
    else if e.amount > limits.mediumAmount then c.medium
    else c.small
  }

  predicate IsDeepEnough(chain: Chain, x: Action) {
    x.Deliver? ==> x.pass.currentBlock - x.event.block >= NeededConfirmations(chain, x.event, x.pass.confirmations)
  }

  predicate Ordered(c: Confirmations) {
    c.small <= c.medium <= c.large
  }

  lemma TileEnd(pages: seq<Range>, from: int, end: int, r: Range)
    requires Tile(pages, from, end) && r in pages
    ensures from <= r.from && r.to <= end
    decreases |pages|
  {
    TilePrefix(pages, from, end);
    if r != pages[|pages| - 1] {
      TileEnd(pages[..|pages| - 1], from, pages[|pages| - 1].from - 1, r);
    }
  }

  lemma PassIsDeep(chain: Chain, from: int, to: int, pass: Pass)
    requires WellFormed(chain) && Ordered(pass.confirmations)
    requires to == pass.currentBlock - if pass.mediumAndSmall then pass.confirmations.small else pass.confirmations.large
    ensures forall x | x in PassActions(chain, from, to, pass) :: IsDeepEnough(chain, x)
  {
    var pages := PassTiles(chain, from, to, pass);
    PagesActionsAre(chain, pages, pass);
    forall x | x in PassActions(chain, from, to, pass) && x.Deliver?
      ensures IsDeepEnough(chain, x)
    {
      var r :| r in pages && r.from <= x.event.block <= r.to;
      TileEnd(pages, from, PassEnd(from, to), r);
      assert from < to;
    }
  }

  lemma RunIsDeep(chain: Chain, lastBlock: int, s: Situation)
    requires WellFormed(chain) && Ordered(s.confirmations)
    ensures forall x | x in RunActions(chain, lastBlock, s) :: IsDeepEnough(chain, x)
  {
    hide PassActions;
    var large, small := s.currentBlock - s.confirmations.large, s.currentBlock - s.confirmations.small;
    PassIsDeep(chain, lastBlock + 1, large, Pass(s.currentBlock, s.confirmations, false));
    PassIsDeep(chain, large, small, Pass(s.currentBlock, s.confirmations, true));
  }

  /** Confirmation safety: in both passes of every run, cut short or not, nothing is handed over
      with fewer confirmations than its amount needs. */
  lemma {:induction false} DeliveriesAreDeep(chain: Chain, startBlock: nat, file: Option<int>, attempts: seq<Attempt>)
    requires WellFormed(chain) && forall a | a in attempts :: Ordered(a.situation.confirmations)
    ensures forall x | x in History(chain, startBlock, file, attempts) :: IsDeepEnough(chain, x)
    decreases |attempts|
  {
    if attempts != [] {
      var before, last := attempts[..|attempts| - 1], attempts[|attempts| - 1];
      assert last in attempts && forall a | a in before :: a in attempts;
      DeliveriesAreDeep(chain, startBlock, file, before);
      var from := Checkpoint(chain, startBlock, file, before);
      RunIsDeep(chain, from, last.situation);
      CutMembers(RunActions(chain, from, last.situation), last.steps);
    }
  }
}
