/** What the federation mints on Hathor against what was deposited on the EVM chain. */
module Solvency {
  import opened Amounts
  import opened EvmBroker
  import opened Protocol
  import opened Quorum
  import opened Sums
  import opened Utxo
  import opened Wrappers
  import HathorBroker

  function VerdictOf<E>(r: Result<bool, E>): Verdict {
    if r == Success(true) then Valid else if r == Success(false) then Invalid else Raises
  }

  /** Validation is done by the two brokers: the one for melts looks at the Hathor deposit, the
      one for mints and transfers at the EVM deposit. */
  function BrokerVerdict(evm: Evm, decode: Hex -> Tx, id: TransactionId, hex: Hex, original: Option<Tx>, isProcessed: bool): Verdict {
    if id.kind == Melt then VerdictOf(HathorBroker.ValidateTx(decode(hex), original, isProcessed))
    else VerdictOf(EvmBroker.ValidateTx(evm, decode(hex), id.txHash))
  }

  ghost predicate UsesBrokers(w: World) {
    forall id, hex, original, isProcessed ::
      w.validateTx(id, hex, original, isProcessed) == BrokerVerdict(w.evm, w.decode, id, hex, original, isProcessed)
  }

  /** A melt that is already processed is approved by nobody any more, at any stage. */
  lemma ProcessedMeltIsNotApproved(w: World, s: State, x: Action)
    requires UsesBrokers(w) && x.id.kind == Melt && x.id in s.ledger.processed
    ensures Step(w, s, x).ledger.approvals == s.ledger.approvals
  {
    forall hex, original
      ensures !Validates(w, x.id, hex, original, true)
    {
      assert BrokerVerdict(w.evm, w.decode, x.id, hex, original, true) != Valid;
    }
  }

  // ---------- totals ----------

  function MintedBy(w: World, t: Token): Push -> int {
    (p: Push) => var n := NetCreation(w.decode(p.hex), t); if n > 0 then n else 0
  }

  /** Everything the pushed proposals ever created of Hathor token t, melts not deducted. */
  function Minted(w: World, l: Ledger, t: Token): int {
    Sum(l.pushes, MintedBy(w, t))
  }

  function DepositedBy(token: string): CrossEvent -> int {
    (e: CrossEvent) => if e.tokenAddress == token then e.amount else 0
  }

  function Deposited(evm: Evm, token: string): int {
    Sum(evm.events, DepositedBy(token))
  }

  // ---------- what can be minted ----------

  /** Validation of id is about minting t. */
  predicate IsMintOf(evm: Evm, id: TransactionId, t: Token) {
    && id.kind != Melt && EventOf(evm, id.txHash).Some?
    && evm.hathorToken(EventOf(evm, id.txHash).value.tokenAddress) == t
  }

  /** How much of t validation lets id mint. */
  function Quota(evm: Evm, t: Token): TransactionId -> int {
    (id: TransactionId) => if IsMintOf(evm, id, t) then Quantity(evm, EventOf(evm, id.txHash).value) else 0
  }

  /** The ids of events, each once. */
  function DistinctIds(evm: Evm, events: seq<CrossEvent>): seq<TransactionId> {
    if events == [] then []
    else
      var ids, id := DistinctIds(evm, events[..|events| - 1]), EventId(evm, events[|events| - 1]);
      if id in ids then ids else ids + [id]
  }

  /** For every id of an event of the chain, the converted amount of the first event of its
      transaction, if that is of the token's twin: events that share an id count once, and
      events that share a transaction count for the first. */
  function MostMintable(evm: Evm, token: string): int {
    Sum(DistinctIds(evm, evm.events), Quota(evm, evm.hathorToken(token)))
  }

  ghost predicate NoDuplicates(ids: seq<TransactionId>) {
    forall i, j | 0 <= i < j < |ids| :: ids[i] != ids[j]
  }

  lemma {:induction false} DistinctIdsAre(evm: Evm, events: seq<CrossEvent>)
    ensures forall e | e in events :: EventId(evm, e) in DistinctIds(evm, events)
    ensures forall id | id in DistinctIds(evm, events) :: exists e :: e in events && EventId(evm, e) == id
    ensures NoDuplicates(DistinctIds(evm, events))
  {
    if events != [] {
      hide EventId;
      var before, last := events[..|events| - 1], events[|events| - 1];
      DistinctIdsAre(evm, before);
      assert events == before + [last];
      var ids, all, id := DistinctIds(evm, before), DistinctIds(evm, events), EventId(evm, last);
      assert all == if id in ids then ids else ids + [id];
      forall e | e in events
        ensures EventId(evm, e) in all
      {
        assert e in before || e == last;
      }
      forall i | i in all
        ensures exists e :: e in events && EventId(evm, e) == i
      {
        if i in ids {
          var e :| e in before && EventId(evm, e) == i;
          assert e in events;
        } else {
          assert last in events;
        }
      }
    }
  }

  // ---------- two conditions ----------

  /** The event that validation finds for e's transaction is e, or one no larger than e of the
      same token: for this token the first event of each transaction speaks for all. */
  ghost predicate FirstEventSpeaks(evm: Evm, token: string) {
    forall e | e in evm.events ::
      match EventOf(evm, e.txHash)
      case None => true
      case Some(first) => evm.hathorToken(first.tokenAddress) == evm.hathorToken(token) ==>
        e.tokenAddress == token && Quantity(evm, first) <= Quantity(evm, e)
  }

  ghost predicate SoleTwin(evm: Evm, token: string) {
    forall e | e in evm.events && evm.hathorToken(e.tokenAddress) == evm.hathorToken(token) :: e.tokenAddress == token
  }

  /** A proposal for something else creates no t on the side. Validation would not see outputs of
      another token that the wallet calls its own. */
  predicate NoSideMint(w: World, id: TransactionId, hex: Hex, t: Token) {
    IsMintOf(w.evm, id, t) || NetCreation(w.decode(hex), t) <= 0
  }

  /** No proposal that validation would let through mints on the side. */
  ghost predicate IsClean(w: World, id: TransactionId, hex: Hex, t: Token) {
    Acceptable(w, id, hex) ==> NoSideMint(w, id, hex, t)
  }

  // ---------- one push ----------

  lemma {:induction false} FirstEventIsEvent(events: seq<CrossEvent>, block: int, txHash: string)
    ensures match FirstEvent(events, block, txHash)
            case None => true
            case Some(e) => e in events && e.txHash == txHash
  {
    if events != [] {
      FirstEventIsEvent(events[1..], block, txHash);
    }
  }

  lemma FoundEvent(evm: Evm, txHash: string)
    requires EventOf(evm, txHash).Some?
    ensures EventOf(evm, txHash).value in evm.events
  {
    FirstEventIsEvent(evm.events, evm.blockOf(txHash).value, txHash);
  }

  lemma {:induction false} FindsEqual(events: seq<CrossEvent>, e: CrossEvent)
    requires e in events
    requires forall x | x in events && x.txHash == e.txHash :: x == e
    ensures FirstEvent(events, e.block, e.txHash) == Some(e)
  {
    if events[0].txHash == e.txHash {
      assert events[0] in events;
    } else {
      FindsEqual(events[1..], e);
    }
  }

  /** An accepted mint creates exactly its quota, which is positive, and spends something. */
  lemma AcceptedMint(w: World, id: TransactionId, hex: Hex, t: Token)
    requires UsesBrokers(w) && Acceptable(w, id, hex)
    requires IsMintOf(w.evm, id, t) && w.evm.originChainId(t) == w.evm.mainChainId
    ensures NetCreation(w.decode(hex), t) == Quota(w.evm, t)(id) > 0
    ensures w.decode(hex).inputs != []
  {
    var first := EventOf(w.evm, id.txHash).value;
    FoundEvent(w.evm, id.txHash);
    var original, isProcessed :| Validates(w, id, hex, original, isProcessed);
    assert BrokerVerdict(w.evm, w.decode, id, hex, original, isProcessed) == Valid;
    MintAcceptance(w.evm, w.decode(hex), id.txHash, first);
  }

  /** Exactly when one mint is backed by the deposit its id stands for: when the event that
      validation looks at converts to no more than the deposit itself does. */
  lemma MintIsBackedIff(w: World, e: CrossEvent, hex: Hex)
    requires UsesBrokers(w) && e in w.evm.events && Acceptable(w, EventId(w.evm, e), hex)
    requires IsEvmNative(w.evm, e.tokenAddress)
    requires IsMintOf(w.evm, EventId(w.evm, e), w.evm.hathorToken(e.tokenAddress))
    ensures NetCreation(w.decode(hex), w.evm.hathorToken(e.tokenAddress)) * Scale(TokenDecimals(w.evm, e.tokenAddress)) <= e.amount
            <==> Quantity(w.evm, EventOf(w.evm, e.txHash).value) <= Quantity(w.evm, e)
  {
    AcceptedMint(w, EventId(w.evm, e), hex, w.evm.hathorToken(e.tokenAddress));
    var first := EventOf(w.evm, e.txHash).value;
    FitsIff(Quantity(w.evm, first), e.amount, TokenDecimals(w.evm, e.tokenAddress));
  }

  lemma FitsIff(q: nat, amount: nat, decimals: nat)
    ensures q * Scale(decimals) <= amount <==> q <= Convertible(amount, decimals)
  {
    ConversionLoss(amount, decimals);
    MulGap(Scale(decimals), q, Convertible(amount, decimals));
    MulGap(Scale(decimals), Convertible(amount, decimals), q);
  }

  // ---------- all pushes ----------

  ghost predicate DraftsClean(w: World, actions: seq<Action>, t: Token) {
    forall x | x in actions :: IsClean(w, x.id, x.answers.draft, t)
  }

  ghost predicate Clean(w: World, s: State, t: Token) {
    && (forall id | id in s.ledger.hex :: IsClean(w, id, s.ledger.hex[id], t))
    && (forall f, id :: PcClean(w, PcOf(s, f, id), id, t))
  }

  ghost predicate PcClean(w: World, pc: Pc, id: TransactionId, t: Token) {
    match pc
    case Drafted(hex) => IsClean(w, id, hex, t)
    case ProposeValid(hex) => IsClean(w, id, hex, t)
    case _ => true
  }

  lemma StepStaysClean(w: World, s: State, x: Action, t: Token)
    requires Clean(w, s, t) && IsClean(w, x.id, x.answers.draft, t)
    ensures Clean(w, Step(w, s, x), t)
  {
    var pc, s' := PcOf(s, x.member, x.id), Step(w, s, x);
    assert PcClean(w, pc, x.id, t);
    forall f, id
      ensures PcClean(w, PcOf(s', f, id), id, t)
    {
      assert PcClean(w, PcOf(s, f, id), id, t);
    }
  }

  lemma {:induction false} RunStaysClean(w: World, actions: seq<Action>, t: Token)
    requires DraftsClean(w, actions, t)
    ensures Clean(w, Run(w, actions), t)
  {
    if actions != [] {
      var n := |actions| - 1;
      assert actions == actions[..n] + [actions[n]];
      RunStaysClean(w, actions[..n], t);
      StepStaysClean(w, Run(w, actions[..n]), actions[n], t);
    }
  }

  function MintIds(w: World, pushes: seq<Push>, t: Token): set<TransactionId> {
    set p | p in pushes && MintedBy(w, t)(p) > 0 :: p.id
  }

  lemma {:induction false} SumRaises<T>(xs: seq<T>, f: T -> int, g: T -> int, x: T, d: int)
    requires forall y | y in xs :: f(y) <= g(y)
    requires x in xs && g(x) >= f(x) + d
    ensures Sum(xs, g) >= Sum(xs, f) + d
  {
    var n := |xs| - 1;
    assert xs == xs[..n] + [xs[n]];
    if xs[n] == x {
      SumMonotone(xs[..n], f, g);
    } else {
      SumRaises(xs[..n], f, g, x, d);
    }
  }

  lemma {:induction false} SumMonotone<T>(xs: seq<T>, f: T -> int, g: T -> int)
    requires forall y | y in xs :: f(y) <= g(y)
    ensures Sum(xs, f) <= Sum(xs, g)
  {
    if xs != [] {
      assert xs[|xs| - 1] in xs;
      SumMonotone(xs[..|xs| - 1], f, g);
    }
  }

  lemma MintIdsSnoc(w: World, pushes: seq<Push>, p: Push, t: Token)
    ensures MintIds(w, pushes + [p], t) == MintIds(w, pushes, t) + if MintedBy(w, t)(p) > 0 then {p.id} else {}
  {
  }

  /** The quotas of ids in a set. */
  function QuotaIn(evm: Evm, t: Token, ids: set<TransactionId>): TransactionId -> int {
    (id: TransactionId) => if id in ids then Quota(evm, t)(id) else 0
  }

  /** The quotas of the first n pushes that mint. */
  function UsedUpTo(w: World, l: Ledger, t: Token, n: nat): int
    requires n <= |l.pushes|
  {
    Sum(DistinctIds(w.evm, w.evm.events), QuotaIn(w.evm, t, MintIds(w, l.pushes[..n], t)))
  }

  /** The n-th push uses at least as much quota as it mints. */
  ghost predicate StaysInQuota(w: World, l: Ledger, t: Token, n: nat)
    requires n < |l.pushes|
  {
    MintedBy(w, t)(l.pushes[n]) <= UsedUpTo(w, l, t, n + 1) - UsedUpTo(w, l, t, n)
  }

  lemma IdlePushStaysInQuota(w: World, l: Ledger, t: Token, n: nat)
    requires n < |l.pushes| && MintedBy(w, t)(l.pushes[n]) == 0
    ensures StaysInQuota(w, l, t, n)
  {
    assert l.pushes[..n + 1] == l.pushes[..n] + [l.pushes[n]];
    MintIdsSnoc(w, l.pushes[..n], l.pushes[n], t);
    assert MintIds(w, l.pushes[..n + 1], t) == MintIds(w, l.pushes[..n], t);
  }

  lemma MintStaysInQuota(w: World, l: Ledger, t: Token, n: nat)
    requires n < |l.pushes| && MintedBy(w, t)(l.pushes[n]) > 0
    requires l.pushes[n].id in DistinctIds(w.evm, w.evm.events)
    requires MintedBy(w, t)(l.pushes[n]) <= Quota(w.evm, t)(l.pushes[n].id)
    requires l.pushes[n].id !in MintIds(w, l.pushes[..n], t)
    ensures StaysInQuota(w, l, t, n)
  {
    var id, ids := l.pushes[n].id, MintIds(w, l.pushes[..n], t);
    assert l.pushes[..n + 1] == l.pushes[..n] + [l.pushes[n]];
    MintIdsSnoc(w, l.pushes[..n], l.pushes[n], t);
    SumRaises(DistinctIds(w.evm, w.evm.events), QuotaIn(w.evm, t, ids), QuotaIn(w.evm, t, ids + {id}), id, Quota(w.evm, t)(id));
  }

  lemma PushStaysInQuota(w: World, l: Ledger, t: Token, n: nat)
    requires UsesBrokers(w) && LedgerOk(w, l) && n < |l.pushes|
    requires w.evm.originChainId(t) == w.evm.mainChainId
    requires IsClean(w, l.pushes[n].id, l.pushes[n].hex, t)
    ensures StaysInQuota(w, l, t, n)
  {
    var p := l.pushes[n];
    if MintedBy(w, t)(p) == 0 {
      IdlePushStaysInQuota(w, l, t, n);
    } else {
      assert PushOk(w, l, p);
      assert Acceptable(w, p.id, p.hex) && IsKnown(w, p.id);
      AcceptedMint(w, p.id, p.hex, t);
      DistinctIdsAre(w.evm, w.evm.events);
      NewId(w, l, t, n);
      MintStaysInQuota(w, l, t, n);
    }
  }

  /** The first n pushes mint no more than their quotas. */
  lemma {:induction false} QuotasAddUp(w: World, l: Ledger, t: Token, n: nat)
    requires n <= |l.pushes| && forall k | 0 <= k < n :: StaysInQuota(w, l, t, k)
    ensures Sum(l.pushes[..n], MintedBy(w, t)) <= UsedUpTo(w, l, t, n)
  {
    if n == 0 {
      SumNonNegative(DistinctIds(w.evm, w.evm.events), QuotaIn(w.evm, t, MintIds(w, l.pushes[..0], t)));
    } else {
      QuotasAddUp(w, l, t, n - 1);
      SumPrefix(l.pushes, n - 1, MintedBy(w, t));
      assert StaysInQuota(w, l, t, n - 1);
    }
  }

  /** A push that spends something has an id no earlier push has. */
  lemma NewId(w: World, l: Ledger, t: Token, n: nat)
    requires LedgerOk(w, l) && n < |l.pushes| && w.decode(l.pushes[n].hex).inputs != []
    ensures l.pushes[n].id !in MintIds(w, l.pushes[..n], t)
  {
    SpendsSomething(w.decode(l.pushes[n].hex));
    forall i | 0 <= i < n
      ensures l.pushes[i].id != l.pushes[n].id
    {
      assert PushOk(w, l, l.pushes[i]) && PushOk(w, l, l.pushes[n]);
    }
  }

  /** In every reachable state of every interleaving, whatever the wallet drafts short of mints on
      the side, no more of an EVM-native token's twin was ever minted than its events allow. */
  lemma MintedAtMost(w: World, actions: seq<Action>, token: string)
    requires UsesBrokers(w) && IsEvmNative(w.evm, token)
    requires DraftsClean(w, actions, w.evm.hathorToken(token))
    ensures Minted(w, Run(w, actions).ledger, w.evm.hathorToken(token)) <= MostMintable(w.evm, token)
  {
    var l, t := Run(w, actions).ledger, w.evm.hathorToken(token);
    RunKeepsInv(w, actions);
    RunStaysClean(w, actions, t);
    forall k | 0 <= k < |l.pushes|
      ensures StaysInQuota(w, l, t, k)
    {
      assert PushOk(w, l, l.pushes[k]);
      PushStaysInQuota(w, l, t, k);
    }
    QuotasAddUp(w, l, t, |l.pushes|);
    assert l.pushes[..|l.pushes|] == l.pushes;
    SumMonotone(DistinctIds(w.evm, w.evm.events), QuotaIn(w.evm, t, MintIds(w, l.pushes, t)), Quota(w.evm, t));
  }

  // ---------- a condition that is easy to meet ----------

  /** Where the first event speaks, what can be minted of the first n events is covered by them. */
  lemma {:induction false} QuotasAreCovered(evm: Evm, token: string, n: nat)
    requires n <= |evm.events| && FirstEventSpeaks(evm, token)
    ensures Sum(DistinctIds(evm, evm.events[..n]), Quota(evm, evm.hathorToken(token))) * Scale(TokenDecimals(evm, token))
            <= Sum(evm.events[..n], DepositedBy(token))
  {
    if n > 0 {
      var e, quota := evm.events[n - 1], Quota(evm, evm.hathorToken(token));
      var ids, id := DistinctIds(evm, evm.events[..n - 1]), EventId(evm, e);
      assert evm.events[..n][..n - 1] == evm.events[..n - 1];
      QuotasAreCovered(evm, token, n - 1);
      SumPrefix(evm.events, n - 1, DepositedBy(token));
      hide Quota, Scale, TokenDecimals, FirstEventSpeaks;
      if id !in ids {
        SumSnoc(ids, id, quota);
        QuotaIsCovered(evm, token, e);
        Distribute(Sum(ids, quota), quota(id), Scale(TokenDecimals(evm, token)));
      }
    }
  }

  lemma QuotaIsCovered(evm: Evm, token: string, e: CrossEvent)
    requires e in evm.events && FirstEventSpeaks(evm, token)
    ensures Quota(evm, evm.hathorToken(token))(EventId(evm, e)) * Scale(TokenDecimals(evm, token)) <= DepositedBy(token)(e)
  {
    if IsMintOf(evm, EventId(evm, e), evm.hathorToken(token)) {
      FitsIff(Quantity(evm, EventOf(evm, e.txHash).value), e.amount, TokenDecimals(evm, token));
    }
  }

  lemma Distribute(a: int, b: int, c: int)
    ensures (a + b) * c == a * c + b * c
  {
  }

  /** Solvency, for every chain on which the first event of each transaction speaks: in every
      reachable state of every interleaving, what was ever minted of an EVM-native token's twin,
      in units of the token, does not exceed what was deposited. */
  lemma SolvencyHolds(w: World, actions: seq<Action>, token: string)
    requires UsesBrokers(w) && IsEvmNative(w.evm, token) && FirstEventSpeaks(w.evm, token)
    requires DraftsClean(w, actions, w.evm.hathorToken(token))
    ensures Minted(w, Run(w, actions).ledger, w.evm.hathorToken(token)) * Scale(TokenDecimals(w.evm, token))
            <= Deposited(w.evm, token)
  {
    MintedAtMost(w, actions, token);
    QuotasAreCovered(w.evm, token, |w.evm.events|);
    assert w.evm.events[..|w.evm.events|] == w.evm.events;
    ScaleMonotone(Minted(w, Run(w, actions).ledger, w.evm.hathorToken(token)), MostMintable(w.evm, token), Scale(TokenDecimals(w.evm, token)));
  }

  lemma ScaleMonotone(a: int, b: int, c: nat)
    requires a <= b
    ensures a * c <= b * c
  {
  }

  /** So it does on chains with at most one Cross event per transaction. */
  lemma OneEventPerTransactionSpeaks(evm: Evm, token: string)
    requires forall e, x | e in evm.events && x in evm.events && e.txHash == x.txHash :: e == x
    requires forall e | e in evm.events :: evm.blockOf(e.txHash) == Some(e.block)
    requires SoleTwin(evm, token)
    ensures FirstEventSpeaks(evm, token)
  {
    forall e | e in evm.events
      ensures EventOf(evm, e.txHash) == Some(e)
    {
      FindsEqual(evm.events, e);
    }
  }
}
