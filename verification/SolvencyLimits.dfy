/** Exactly which chains are solvent: runs that mint everything validation allows, and runs that
    mint on the side. */
module SolvencyLimits {
  import opened EvmBroker
  import opened Amounts
  import opened Protocol
  import opened Progress
  import opened Quorum
  import opened Solvency
  import opened Sums
  import opened Utxo
  import opened Wrappers
  import HathorBroker
  import TokenData

  // ---------- a federator alone, one signature required ----------

  predicate Fresh(w: World, l: Ledger, id: TransactionId) {
    id !in l.hex && SignaturesOf(l, id) == [] && id !in l.processed && IsKnown(w, id)
  }

  function Thrice(w: World, l: Ledger, f: Federator, id: TransactionId, a: Answers): Ledger {
    SendTokens(w, SendTokens(w, SendTokens(w, l, f, id, a), f, id, a), f, id, a)
  }

  lemma FreshStays(w: World, l: Ledger, f: Federator, id: TransactionId, a: Answers, i: TransactionId)
    requires i != id && Fresh(w, l, i)
    ensures Fresh(w, SendTokens(w, l, f, id, a), i)
  {
  }

  /** Its three calls propose, sign and push, and touch no other transfer. */
  lemma ThriceIsEnough(w: World, l: Ledger, f: Federator, id: TransactionId, a: Answers)
    requires Fresh(w, l, id) && Cooperative(w, l, id, a)
    requires w.maxSignatures == Some(1) && w.multisigOrder(f) <= 1
    ensures var l' := Thrice(w, l, f, id, a);
            && l'.pushes == l.pushes + [Push(f, id, a.draft, [Signature(f, a.draft)])]
            && l'.spent == l.spent + SpentBy(w.decode(a.draft))
            && (forall i | i != id && Fresh(w, l, i) :: Fresh(w, l', i))
  {
    var l1 := SendTokens(w, l, f, id, a);
    assert l1 == SendProposal(w, l, f, id, a);
    var l2 := SendTokens(w, l1, f, id, a);
    assert l2 == SignProposal(w, l1, f, id, a);
    assert SignaturesOf(l2, id) == [Signature(f, a.draft)];
    assert SignaturesOf(l2, id)[0].member == f;
    assert Take([Signature(f, a.draft)], 1) == [Signature(f, a.draft)];
    var l3 := SendTokens(w, l2, f, id, a);
    assert l3 == PushProposal(w, l2, f, id, a);
    forall i | i != id && Fresh(w, l, i)
      ensures Fresh(w, l3, i)
    {
      FreshStays(w, l, f, id, a, i);
      FreshStays(w, l1, f, id, a, i);
      FreshStays(w, l2, f, id, a, i);
    }
  }

  ghost predicate AllIdle(s: State) {
    forall f, id :: PcOf(s, f, id) == Idle
  }

  lemma OnceIsARun(w: World, s: State, f: Federator, id: TransactionId, a: Answers) returns (actions: seq<Action>)
    requires Inv(w, s) && AllIdle(s)
    ensures forall x | x in actions :: x == Action(f, id, a)
    ensures var s' := RunFrom(w, s, actions);
            s'.ledger == SendTokens(w, s.ledger, f, id, a) && Inv(w, s') && AllIdle(s')
  {
    assert SignaturesOk(s.ledger, id);
    assert PcOf(s, f, id) == Idle;
    actions := CallIsARun(w, s, f, id, _ => a);
    UninterruptedCall(w, s.ledger, f, id, a);
    RunFromKeepsInv(w, s, actions);
  }

  lemma ThriceIsARun(w: World, s: State, f: Federator, id: TransactionId, a: Answers) returns (actions: seq<Action>)
    requires Inv(w, s) && AllIdle(s)
    ensures forall x | x in actions :: x == Action(f, id, a)
    ensures var s' := RunFrom(w, s, actions);
            s'.ledger == Thrice(w, s.ledger, f, id, a) && Inv(w, s') && AllIdle(s')
  {
    hide Inv, AllIdle, RunFrom, SendTokens;
    var one := OnceIsARun(w, s, f, id, a);
    var two := OnceIsARun(w, RunFrom(w, s, one), f, id, a);
    var three := OnceIsARun(w, RunFrom(w, RunFrom(w, s, one), two), f, id, a);
    RunConcat(w, s, one, two);
    RunConcat(w, s, one + two, three);
    actions := one + two + three;
  }

  function Alone(evm: Evm, decode: Hex -> Tx): World {
    World(evm, decode,
          (id, hex, original, isProcessed) => BrokerVerdict(evm, decode, id, hex, original, isProcessed),
          f => 1, Some(1))
  }

  lemma AloneIs(evm: Evm, decode: Hex -> Tx)
    ensures var w := Alone(evm, decode);
            UsesBrokers(w) && w.evm == evm && w.decode == decode && w.maxSignatures == Some(1) && w.multisigOrder("f") <= 1
  {
  }

  function Draft(hex: Hex, original: Option<Tx>): Answers {
    Answers(hex, original, true, true, false)
  }

  // ---------- minting all there is to mint ----------

  /** A mint of q of t; each hex spends an authority of its own. */
  function MintTx(t: Token, q: int, hex: Hex): Tx {
    Tx(1, false, [Input(t, 1, 129, "M", Outpoint(hex, 0))], [Output(t, q, 1, "P2PKH", "W", Null, None, None)])
  }

  lemma MintTxDoes(t: Token, q: int, hex: Hex)
    ensures NetCreation(MintTx(t, q, hex), t) == q
    ensures SpendsMint(MintTx(t, q, hex).inputs, t) && OnlyTokenSent(MintTx(t, q, hex).outputs, t)
    ensures SpentBy(MintTx(t, q, hex)) == {Outpoint(hex, 0)}
  {
    var tx := MintTx(t, q, hex);
    SumOfOne(tx.outputs[0], Creates(t));
    SumOfOne(tx.inputs[0], Consumes(t));
    assert tx.inputs[0].token == t && IsMint(tx.inputs[0].tokenData, tx.inputs[0].value);
  }

  /** The hex of the k-th id is a text of length k. */
  function Tag(k: nat): Hex {
    seq(k, i => '0')
  }

  /** The k-th hex mints the quota of the k-th id. */
  function Minter(evm: Evm, token: string): Hex -> Tx {
    (hex: Hex) =>
      var ids := DistinctIds(evm, evm.events);
      MintTx(evm.hathorToken(token), if |hex| < |ids| then Quota(evm, evm.hathorToken(token))(ids[|hex|]) else 0, hex)
  }

  /** The first k ids have minted their quotas, and no other id has been touched. */
  ghost predicate HasMinted(evm: Evm, token: string, w: World, l: Ledger, k: nat) {
    var t, ids := evm.hathorToken(token), DistinctIds(evm, evm.events);
    && k <= |ids|
    && Minted(w, l, t) == Sum(ids[..k], Quota(evm, t))
    && (forall j | k <= j < |ids| :: Fresh(w, l, ids[j]))
    && (forall j | j >= k :: Outpoint(Tag(j), 0) !in l.spent)
  }

  lemma QuotaIsCooperative(evm: Evm, token: string, l: Ledger, k: nat)
    requires IsEvmNative(evm, token) && k < |DistinctIds(evm, evm.events)|
    requires Quota(evm, evm.hathorToken(token))(DistinctIds(evm, evm.events)[k]) > 0
    requires DistinctIds(evm, evm.events)[k] !in l.hex && Outpoint(Tag(k), 0) !in l.spent
    ensures Cooperative(Alone(evm, Minter(evm, token)), l, DistinctIds(evm, evm.events)[k], Draft(Tag(k), None))
  {
    var t, id := evm.hathorToken(token), DistinctIds(evm, evm.events)[k];
    var first := EventOf(evm, id.txHash).value;
    MintTxDoes(t, Quota(evm, t)(id), Tag(k));
    MintAcceptance(evm, Minter(evm, token)(Tag(k)), id.txHash, first);
  }

  lemma MintedByPush(w: World, l: Ledger, l': Ledger, p: Push, t: Token)
    requires l'.pushes == l.pushes + [p] && NetCreation(w.decode(p.hex), t) >= 0
    ensures Minted(w, l', t) == Minted(w, l, t) + NetCreation(w.decode(p.hex), t)
  {
    SumSnoc(l.pushes, p, MintedBy(w, t));
  }

  lemma TagsDiffer(l: Ledger, spent: set<Outpoint>, k: nat)
    requires forall j | j >= k :: Outpoint(Tag(j), 0) !in l.spent
    requires spent == l.spent + {Outpoint(Tag(k), 0)}
    ensures forall j | j >= k + 1 :: Outpoint(Tag(j), 0) !in spent
  {
    assert forall j: nat | j > k :: |Tag(j)| != |Tag(k)|;
  }

  /** What three calls for the k-th id do to the ledger. */
  lemma PushOneMore(evm: Evm, token: string, w: World, l: Ledger, k: nat)
    requires HasMinted(evm, token, w, l, k) && k < |DistinctIds(evm, evm.events)|
    requires Cooperative(w, l, DistinctIds(evm, evm.events)[k], Draft(Tag(k), None))
    requires w.maxSignatures == Some(1) && w.multisigOrder("f") <= 1
    requires SpentBy(w.decode(Tag(k))) == {Outpoint(Tag(k), 0)}
    requires NetCreation(w.decode(Tag(k)), evm.hathorToken(token))
             == Quota(evm, evm.hathorToken(token))(DistinctIds(evm, evm.events)[k]) >= 0
    ensures HasMinted(evm, token, w, Thrice(w, l, "f", DistinctIds(evm, evm.events)[k], Draft(Tag(k), None)), k + 1)
  {
    var t, ids := evm.hathorToken(token), DistinctIds(evm, evm.events);
    var id, quota, a := ids[k], Quota(evm, t), Draft(Tag(k), None);
    var l' := Thrice(w, l, "f", id, a);
    DistinctIdsAre(evm, evm.events);
    hide Cooperative, Thrice, Fresh, DistinctIds, Quota, Minted, Sum, NetCreation, SpentBy, Tag;
    ThriceIsEnough(w, l, "f", id, a);
    SumPrefix(ids, k, quota);
    MintedByPush(w, l, l', Push("f", id, Tag(k), [Signature("f", Tag(k))]), t);
    TagsDiffer(l, l'.spent, k);
    forall j | k + 1 <= j < |ids|
      ensures Fresh(w, l', ids[j])
    {
      assert ids[j] != id;
    }
  }

  lemma MintOneMore(evm: Evm, token: string, w: World, l: Ledger, k: nat)
    requires w == Alone(evm, Minter(evm, token)) && IsEvmNative(evm, token)
    requires HasMinted(evm, token, w, l, k) && k < |DistinctIds(evm, evm.events)|
    requires Quota(evm, evm.hathorToken(token))(DistinctIds(evm, evm.events)[k]) > 0
    ensures HasMinted(evm, token, w, Thrice(w, l, "f", DistinctIds(evm, evm.events)[k], Draft(Tag(k), None)), k + 1)
  {
    var t, ids := evm.hathorToken(token), DistinctIds(evm, evm.events);
    assert Outpoint(Tag(k), 0) !in l.spent && ids[k] !in l.hex;
    QuotaIsCooperative(evm, token, l, k);
    MintTxDoes(t, Quota(evm, t)(ids[k]), Tag(k));
    hide HasMinted, Thrice, DistinctIds, Quota, Cooperative;
    PushOneMore(evm, token, w, l, k);
  }

  lemma {:induction false} MintFirst(evm: Evm, token: string, k: nat) returns (actions: seq<Action>)
    requires IsEvmNative(evm, token) && k <= |DistinctIds(evm, evm.events)|
    ensures var w := Alone(evm, Minter(evm, token));
            && HasMinted(evm, token, w, Run(w, actions).ledger, k)
            && Inv(w, Run(w, actions)) && AllIdle(Run(w, actions))
            && DraftsClean(w, actions, evm.hathorToken(token))
  {
    var w, t, ids := Alone(evm, Minter(evm, token)), evm.hathorToken(token), DistinctIds(evm, evm.events);
    if k == 0 {
      actions := [];
      RunKeepsInv(w, []);
      AllAreFresh(evm, w);
    } else {
      actions := MintFirst(evm, token, k - 1);
      var id, s := ids[k - 1], Run(w, actions);
      hide Inv, AllIdle, Thrice, DistinctIds, Alone, Fresh;
      if Quota(evm, t)(id) == 0 {
        SumPrefix(ids, k - 1, Quota(evm, t));
      } else {
        MintOneMore(evm, token, w, s.ledger, k - 1);
        hide HasMinted;
        var more := ThriceIsARun(w, s, "f", id, Draft(Tag(k - 1), None));
        RunConcat(w, INITIAL, actions, more);
        AloneIs(evm, Minter(evm, token));
        assert IsMintOf(w.evm, id, t);
        actions := actions + more;
      }
    }
  }

  lemma AllAreFresh(evm: Evm, w: World)
    requires w.evm == evm
    ensures forall id | id in DistinctIds(evm, evm.events) :: Fresh(w, EMPTY, id)
  {
    DistinctIdsAre(evm, evm.events);
  }

  /** On every chain there is a run without side mints that mints all that validation allows. */
  lemma MostMintableIsReached(evm: Evm, token: string) returns (w: World, actions: seq<Action>)
    requires IsEvmNative(evm, token)
    ensures w.evm == evm && UsesBrokers(w) && DraftsClean(w, actions, evm.hathorToken(token))
    ensures Minted(w, Run(w, actions).ledger, evm.hathorToken(token)) == MostMintable(evm, token)
  {
    var ids := DistinctIds(evm, evm.events);
    w := Alone(evm, Minter(evm, token));
    AloneIs(evm, Minter(evm, token));
    actions := MintFirst(evm, token, |ids|);
    assert ids[..|ids|] == ids;
  }

  /** No run without side mints ever mints more than was deposited. */
  ghost predicate Solvent(evm: Evm, token: string) {
    forall w: World, actions: seq<Action> |
      w.evm == evm && UsesBrokers(w) && DraftsClean(w, actions, evm.hathorToken(token)) ::
      Minted(w, Run(w, actions).ledger, evm.hathorToken(token)) * Scale(TokenDecimals(evm, token)) <= Deposited(evm, token)
  }

  /** The exact condition, which can be read off the chain: what its events allow to be minted
      does not exceed what they deposit. */
  lemma SolventIff(evm: Evm, token: string)
    requires IsEvmNative(evm, token)
    ensures Solvent(evm, token) <==> MostMintable(evm, token) * Scale(TokenDecimals(evm, token)) <= Deposited(evm, token)
  {
    var scale := Scale(TokenDecimals(evm, token));
    if MostMintable(evm, token) * scale <= Deposited(evm, token) {
      forall w: World, actions: seq<Action> | w.evm == evm && UsesBrokers(w) && DraftsClean(w, actions, evm.hathorToken(token))
        ensures Minted(w, Run(w, actions).ledger, evm.hathorToken(token)) * scale <= Deposited(evm, token)
      {
        MintedAtMost(w, actions, token);
        ScaleMonotone(Minted(w, Run(w, actions).ledger, evm.hathorToken(token)), MostMintable(evm, token), scale);
      }
    } else {
      var w, actions := MostMintableIsReached(evm, token);
    }
  }

  // ---------- two events in one transaction ----------

  /** One EVM transaction deposits 1000 and then 1 of the same token of two decimals. */
  function TwoDeposits(): Evm {
    Evm([CrossEvent(7, "0x01", "0xa", 1000, "0xs", "W"), CrossEvent(7, "0x01", "0xa", 1, "0xs", "W")],
        hash => Some(7), token => "t", t => 1, (token, chain) => 2, 1)
  }

  lemma TwoDepositIds()
    ensures var evm := TwoDeposits();
            DistinctIds(evm, evm.events) == [EventId(evm, evm.events[0]), EventId(evm, evm.events[1])]
  {
    var evm := TwoDeposits();
    var e1, e2 := evm.events[0], evm.events[1];
    assert evm.events[..1] == [e1] && [e1][..0] == [];
    assert EventId(evm, e1).amount != EventId(evm, e2).amount;
    assert DistinctIds(evm, [e1]) == [EventId(evm, e1)];
  }

  lemma TwoDepositsSums()
    ensures MostMintable(TwoDeposits(), "0xa") == 2000 && Deposited(TwoDeposits(), "0xa") == 1001
  {
    var evm := TwoDeposits();
    var e1, e2 := evm.events[0], evm.events[1];
    TwoDepositIds();
    hide DistinctIds;
    assert EventOf(evm, "0x01") == Some(e1) && Scale(2) == 1;
    SumOfTwo(e1, e2, DepositedBy("0xa"));
    SumOfTwo(EventId(evm, e1), EventId(evm, e2), Quota(evm, "t"));
  }

  /** Both ids are validated against the first event, so a hex minting 1000 passes for each:
      2000 are minted for 1001 deposited. */
  lemma SecondEventBreaksSolvency() returns (w: World, actions: seq<Action>)
    ensures w.evm == TwoDeposits() && UsesBrokers(w) && IsEvmNative(w.evm, "0xa") && DraftsClean(w, actions, "t")
    ensures Minted(w, Run(w, actions).ledger, "t") * Scale(TokenDecimals(w.evm, "0xa")) == 2000
    ensures Deposited(w.evm, "0xa") == 1001 && !Solvent(w.evm, "0xa")
  {
    w, actions := MostMintableIsReached(TwoDeposits(), "0xa");
    TwoDepositsSums();
    assert Scale(2) == 1;
  }

  // ---------- a mint on the side ----------

  /** One deposit of 100 of token 0xb, whose twin is "u"; token 0xa with twin "t" is never deposited. */
  function OtherDeposit(): Evm {
    Evm([CrossEvent(7, "0x01", "0xb", 100, "0xs", "W")],
        hash => Some(7), token => if token == "0xa" then "t" else "u", t => 1, (token, chain) => 2, 1)
  }

  /** Mints 100 of "u" for the receiver, and 1 of "t" for an address the wallet owns. */
  function MintWithSide(hex: Hex): Tx {
    Tx(1, false, [Input("u", 1, 129, "M", Outpoint(hex, 0)), Input("t", 1, 129, "M", Outpoint(hex, 1))],
       [Output("u", 100, 1, "P2PKH", "W", Null, None, None), Output("t", 1, 1, "MultiSig", "M", Null, None, Some(true))])
  }

  lemma MintWithSideCreates(hex: Hex)
    ensures NetCreation(MintWithSide(hex), "u") == 100 && NetCreation(MintWithSide(hex), "t") == 1
    ensures SpendsMint(MintWithSide(hex).inputs, "u")
    ensures OnlyTokenSent(MintWithSide(hex).outputs, "u")
  {
    var tx := MintWithSide(hex);
    SumOfTwo(tx.outputs[0], tx.outputs[1], Creates("u"));
    SumOfTwo(tx.outputs[0], tx.outputs[1], Creates("t"));
    SumOfTwo(tx.inputs[0], tx.inputs[1], Consumes("u"));
    SumOfTwo(tx.inputs[0], tx.inputs[1], Consumes("t"));
    assert tx.inputs[0].token == "u" && IsMint(tx.inputs[0].tokenData, tx.inputs[0].value);
  }

  lemma MintWithSideAccepted(hex: Hex)
    ensures ValidateTx(OtherDeposit(), MintWithSide(hex), "0x01") == Success(true)
  {
    var evm := OtherDeposit();
    assert EventOf(evm, "0x01") == Some(evm.events[0]);
    assert Scale(2) == 1;
    MintWithSideCreates(hex);
    MintAcceptance(evm, MintWithSide(hex), "0x01", evm.events[0]);
  }

  lemma SideIsPushed() returns (actions: seq<Action>)
    ensures var w := Alone(OtherDeposit(), MintWithSide);
            |Run(w, actions).ledger.pushes| == 1 && Run(w, actions).ledger.pushes[0].hex == "A"
  {
    var w, a := Alone(OtherDeposit(), MintWithSide), Draft("A", None);
    var id := EventId(w.evm, w.evm.events[0]);
    MintWithSideAccepted("A");
    assert w.evm.events[0] in w.evm.events;
    assert id.kind == Mint && Cooperative(w, EMPTY, id, a) && Fresh(w, EMPTY, id);
    RunKeepsInv(w, []);
    assert AllIdle(INITIAL);
    hide Cooperative, Fresh, Inv, AllIdle, Thrice;
    ThriceIsEnough(w, EMPTY, "f", id, a);
    actions := ThriceIsARun(w, INITIAL, "f", id, a);
  }

  /** Validation compares the balance of the deposited token alone, so the side mint passes. */
  lemma SideMintBreaksSolvency() returns (actions: seq<Action>)
    ensures var w := Alone(OtherDeposit(), MintWithSide);
            && UsesBrokers(w) && IsEvmNative(w.evm, "0xa") && FirstEventSpeaks(w.evm, "0xa")
            && Minted(w, Run(w, actions).ledger, "t") == 1 && Deposited(w.evm, "0xa") == 0
  {
    var w := Alone(OtherDeposit(), MintWithSide);
    AloneIs(OtherDeposit(), MintWithSide);
    OtherDepositIs();
    hide Alone, UsesBrokers, Run, FirstEventSpeaks, OtherDeposit;
    actions := SideIsPushed();
    var l := Run(w, actions).ledger;
    MintWithSideCreates("A");
    SumOfOne(l.pushes[0], MintedBy(w, "t"));
    assert l.pushes == [l.pushes[0]];
  }

  lemma OtherDepositIs()
    ensures var evm := OtherDeposit();
            IsEvmNative(evm, "0xa") && FirstEventSpeaks(evm, "0xa") && Deposited(evm, "0xa") == 0
  {
    SumOfOne(OtherDeposit().events[0], DepositedBy("0xa"));
  }

  /** The deposit on Hathor of 1 of another token, which the wallet reports. */
  function OtherHathorDeposit(u: Token): Tx {
    Tx(1, false, [Input(u, 1, 1, "A", Outpoint("d", 0))], [Output(u, 1, 1, "MultiSig", "M", Null, None, None)])
  }

  /** Melts that 1 of u, and mints n of t for an address the wallet owns. */
  function MeltWithSide(u: Token, t: Token, n: int): Tx {
    Tx(1, false,
       [Input(u, 2, 129, "M", Outpoint("a", 0)), Input(u, 1, 1, "M", Outpoint("b", 0)), Input(t, 1, 129, "M", Outpoint("c", 0))],
       [Output(t, n, 1, "MultiSig", "M", Null, None, Some(true))])
  }

  lemma MeltWithSideAccepted(u: Token, t: Token, n: int)
    requires u != t && u != ""
    ensures NetCreation(MeltWithSide(u, t, n), t) == n
    ensures HathorBroker.ValidateTx(MeltWithSide(u, t, n), Some(OtherHathorDeposit(u)), false) == Success(true)
  {
    var tx, original := MeltWithSide(u, t, n), OtherHathorDeposit(u);
    SumOfOne(tx.outputs[0], Creates(u));
    SumOfOne(tx.outputs[0], Creates(t));
    SumOfThree(tx.inputs[0], tx.inputs[1], tx.inputs[2], Consumes(u));
    SumOfThree(tx.inputs[0], tx.inputs[1], tx.inputs[2], Consumes(t));
    assert IsMelt(tx.inputs[0].tokenData, tx.inputs[0].value) && !IsMint(tx.inputs[0].tokenData, tx.inputs[0].value);
    assert SpendsPureMelt(tx.inputs, u);
    ReadDeposit(u);
    HathorBroker.AcceptanceByReading(tx, original, false);
  }

  lemma ReadDeposit(u: Token)
    requires u != ""
    ensures var tx := OtherHathorDeposit(u);
            TokenData.ReadOnValidation(tx.inputs, tx.outputs) == Success(Some(TokenData.Deposit(u, "A", "M", 1)))
  {
    var tx := OtherHathorDeposit(u);
    assert tx.outputs[..0] == [];
    assert TokenData.Filter(tx.outputs, TokenData.IsAvailableMultiSigOutput) == tx.outputs;
    SumOfOne(tx.outputs[0], TokenData.Value());
  }

  lemma SideMeltIsPushed(evm: Evm, u: Token, t: Token, n: int) returns (w: World, actions: seq<Action>)
    requires u != t && u != "" && n > 0
    ensures w.evm == evm && UsesBrokers(w)
    ensures Minted(w, Run(w, actions).ledger, t) == n
  {
    var decode := hex => MeltWithSide(u, t, n);
    var id, a := TransactionId(u, "h", 1, "A", "R", Melt), Draft("A", Some(OtherHathorDeposit(u)));
    w := Alone(evm, decode);
    AloneIs(evm, decode);
    hide Alone;
    MeltWithSideAccepted(u, t, n);
    assert Cooperative(w, EMPTY, id, a) && Fresh(w, EMPTY, id);
    RunKeepsInv(w, []);
    assert AllIdle(INITIAL);
    hide Cooperative, Fresh, Inv, AllIdle, Thrice, UsesBrokers, BrokerVerdict;
    ThriceIsEnough(w, EMPTY, "f", id, a);
    actions := ThriceIsARun(w, INITIAL, "f", id, a);
    SumOfOne(Push("f", id, "A", [Signature("f", "A")]), MintedBy(w, t));
    assert Run(w, actions).ledger.pushes == [Push("f", id, "A", [Signature("f", "A")])];
  }

  /** No chain is solvent without the condition on drafts: one melt of another token can mint any
      amount on the side, and its broker looks at that token alone. */
  lemma SideMintBreaksEveryChain(evm: Evm, token: string) returns (w: World, actions: seq<Action>)
    ensures w.evm == evm && UsesBrokers(w)
    ensures Minted(w, Run(w, actions).ledger, evm.hathorToken(token)) * Scale(TokenDecimals(evm, token)) > Deposited(evm, token)
  {
    var t, n := evm.hathorToken(token), Deposited(evm, token) + 1;
    SumNonNegative(evm.events, DepositedBy(token));
    assert |t + "u"| != |t|;
    w, actions := SideMeltIsPushed(evm, t + "u", t, n);
    ScaleMonotone(1, Scale(TokenDecimals(evm, token)), n);
  }
}
