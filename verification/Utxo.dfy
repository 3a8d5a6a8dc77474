/** Hathor transactions as the wallet decodes them, and the accounting of
    federator/src/lib/Broker/Broker.ts over their inputs and outputs. */
module Utxo {
  import opened Sums
  import opened Wrappers

  type Token = string

  datatype Timelock = Null | Undefined | Until(timestamp: int)

  /** `token` is "" when the wallet gives none, `address` is "undefined" when the script has no
      address (the text JavaScript makes of it), `spentBy` and `mine` are None when missing. */
  datatype Output = Output(
    token: Token, value: int, tokenData: int, kind: string, address: string,
    timelock: Timelock, spentBy: Option<string>, mine: Option<bool>)

  datatype Outpoint = Outpoint(txId: string, index: nat)

  datatype Input = Input(token: Token, value: int, tokenData: int, address: string, spends: Outpoint)

  datatype Tx = Tx(version: int, isVoided: bool, inputs: seq<Input>, outputs: seq<Output>)

  function SpentBy(tx: Tx): set<Outpoint> {
    set i | i in tx.inputs :: i.spends
  }

  // ---------- authorities ----------

  // The masks 0b10000000, 0b1 and 0b10, on two's complement numbers of either sign.

  predicate IsAuthority(tokenData: int) {
    (tokenData / 128) % 2 == 1
  }

  predicate IsMint(tokenData: int, value: int) {
    IsAuthority(tokenData) && value % 2 == 1
  }

  predicate IsMelt(tokenData: int, value: int) {
    IsAuthority(tokenData) && (value / 2) % 2 == 1
  }

  /** Bit 7 of the token data tells an authority, whatever the other bits. */
  lemma AuthorityBit(high: int, authority: int, low: int)
    requires 0 <= authority <= 1 && 0 <= low < 128
    ensures IsAuthority(256 * high + 128 * authority + low) <==> authority == 1
  {
    var tokenData := 256 * high + 128 * authority + low;
    assert tokenData == 128 * (2 * high + authority) + low;
    assert tokenData / 128 == 2 * high + authority;
  }

  /** Bits 0 and 1 of an authority's value tell mint and melt, each on its own: 3 is both. */
  lemma MintAndMeltBits(tokenData: int, high: int, melt: int, mint: int)
    requires 0 <= melt <= 1 && 0 <= mint <= 1
    ensures IsMint(tokenData, 4 * high + 2 * melt + mint) <==> IsAuthority(tokenData) && mint == 1
    ensures IsMelt(tokenData, 4 * high + 2 * melt + mint) <==> IsAuthority(tokenData) && melt == 1
  {
    var value := 4 * high + 2 * melt + mint;
    assert value == 2 * (2 * high + melt) + mint;
    assert value / 2 == 2 * high + melt;
  }

  // ---------- balances ----------

  function Creates(t: Token): Output -> int {
    (o: Output) => if !IsAuthority(o.tokenData) && o.token == t then o.value else 0
  }

  function Consumes(t: Token): Input -> int {
    (i: Input) => if !IsAuthority(i.tokenData) && i.token == t then i.value else 0
  }

  /** Tokens of t that exist after the transaction and did not before. */
  function NetCreation(tx: Tx, t: Token): int {
    Sum(tx.outputs, Creates(t)) - Sum(tx.inputs, Consumes(t))
  }

  predicate Moves(tx: Tx, t: Token) {
    || (exists k :: 0 <= k < |tx.outputs| && !IsAuthority(tx.outputs[k].tokenData) && tx.outputs[k].token == t)
    || (exists k :: 0 <= k < |tx.inputs| && !IsAuthority(tx.inputs[k].tokenData) && tx.inputs[k].token == t)
  }

  predicate SpendsMint(inputs: seq<Input>, t: Token) {
    exists k :: 0 <= k < |inputs| && inputs[k].token == t && IsMint(inputs[k].tokenData, inputs[k].value)
  }

  /** Only an authority without the mint bit counts: the code asks for melt in the else branch. */
  predicate SpendsPureMelt(inputs: seq<Input>, t: Token) {
    exists k :: 0 <= k < |inputs| && inputs[k].token == t
                && IsMelt(inputs[k].tokenData, inputs[k].value) && !IsMint(inputs[k].tokenData, inputs[k].value)
  }

  datatype TransactionInfo = TransactionInfo(balances: map<Token, int>, canMint: set<Token>, canMelt: set<Token>)

  /** `balances[t] ?? 0` */
  function Held(balances: map<Token, int>, t: Token): int {
    if t in balances then balances[t] else 0
  }

  function AddOutput(b: map<Token, int>, o: Output): map<Token, int> {
    if IsAuthority(o.tokenData) then b else b[o.token := Held(b, o.token) + o.value]
  }

  function AddInput(info: TransactionInfo, i: Input): TransactionInfo {
    if !IsAuthority(i.tokenData) then
      info.(balances := info.balances[i.token := Held(info.balances, i.token) - i.value])
    else if IsMint(i.tokenData, i.value) then info.(canMint := info.canMint + {i.token})
    else if IsMelt(i.tokenData, i.value) then info.(canMelt := info.canMelt + {i.token})
    else info
  }

  function OutputBalances(outputs: seq<Output>): map<Token, int> {
    if outputs == [] then map[]
    else AddOutput(OutputBalances(outputs[..|outputs| - 1]), outputs[|outputs| - 1])
  }

  function Info(outputs: seq<Output>, inputs: seq<Input>): TransactionInfo {
    if inputs == [] then TransactionInfo(OutputBalances(outputs), {}, {})
    else AddInput(Info(outputs, inputs[..|inputs| - 1]), inputs[|inputs| - 1])
  }

  function InfoOf(tx: Tx): TransactionInfo {
    Info(tx.outputs, tx.inputs)
  }

  lemma {:induction false} OutputBalancesMeaning(outputs: seq<Output>, t: Token)
    ensures Held(OutputBalances(outputs), t) == Sum(outputs, Creates(t))
    ensures t in OutputBalances(outputs) <==>
            exists k :: 0 <= k < |outputs| && !IsAuthority(outputs[k].tokenData) && outputs[k].token == t
  {
    if outputs != [] {
      OutputBalancesMeaning(outputs[..|outputs| - 1], t);
    }
  }

  lemma {:induction false} InfoMeaning(outputs: seq<Output>, inputs: seq<Input>, t: Token)
    ensures var info := Info(outputs, inputs);
            && Held(info.balances, t) == Sum(outputs, Creates(t)) - Sum(inputs, Consumes(t))
            && (t in info.balances <==>
                (t in OutputBalances(outputs)
                 || exists k :: 0 <= k < |inputs| && !IsAuthority(inputs[k].tokenData) && inputs[k].token == t))
            && (t in info.canMint <==> SpendsMint(inputs, t))
            && (t in info.canMelt <==> SpendsPureMelt(inputs, t))
  {
    if inputs == [] {
      OutputBalancesMeaning(outputs, t);
    } else {
      InfoMeaning(outputs, inputs[..|inputs| - 1], t);
    }
  }

  /** What the information means, token by token: a balance for exactly the tokens that some
      non-authority input or output moves, equal to outputs minus inputs; mint for exactly the
      tokens with a mint authority spent; melt for those with a melt authority lacking the
      mint bit. */
  lemma InfoOfMeaning(tx: Tx, t: Token)
    ensures t in InfoOf(tx).balances <==> Moves(tx, t)
    ensures Held(InfoOf(tx).balances, t) == NetCreation(tx, t)
    ensures t in InfoOf(tx).canMint <==> SpendsMint(tx.inputs, t)
    ensures t in InfoOf(tx).canMelt <==> SpendsPureMelt(tx.inputs, t)
  {
    InfoMeaning(tx.outputs, tx.inputs, t);
    OutputBalancesMeaning(tx.outputs, t);
  }

  /** The two loops over a map: outputs are added, then inputs are subtracted, and the
      authorities among the inputs are collected on the way. */
  method GetTransactionInfo(tx: Tx) returns (info: TransactionInfo)
    ensures info == InfoOf(tx)
    ensures forall t :: t in info.balances <==> Moves(tx, t)
    ensures forall t | t in info.balances :: info.balances[t] == NetCreation(tx, t)
  {
    var balances: map<Token, int> := map[];
    var canMint: set<Token>, canMelt: set<Token> := {}, {};
    for k := 0 to |tx.outputs|
      invariant balances == OutputBalances(tx.outputs[..k])
    {
      var output := tx.outputs[k];
      assert tx.outputs[..k + 1][..k] == tx.outputs[..k];
      if IsAuthority(output.tokenData) {
        continue;
      }
      balances := balances[output.token := Held(balances, output.token) + output.value];
    }
    assert tx.outputs[..|tx.outputs|] == tx.outputs;
    for k := 0 to |tx.inputs|
      invariant TransactionInfo(balances, canMint, canMelt) == Info(tx.outputs, tx.inputs[..k])
    {
      var input := tx.inputs[k];
      assert tx.inputs[..k + 1][..k] == tx.inputs[..k];
      if IsAuthority(input.tokenData) {
        if IsMint(input.tokenData, input.value) {
          canMint := canMint + {input.token};
        } else if IsMelt(input.tokenData, input.value) {
          canMelt := canMelt + {input.token};
        }
        continue;
      }
      balances := balances[input.token := Held(balances, input.token) - input.value];
    }
    assert tx.inputs[..|tx.inputs|] == tx.inputs;
    info := TransactionInfo(balances, canMint, canMelt);
    forall t ensures (t in info.balances <==> Moves(tx, t)) && Held(info.balances, t) == NetCreation(tx, t) {
      InfoOfMeaning(tx, t);
    }
  }

  lemma SameElements<T>(xs: seq<T>, ys: seq<T>, k: nat)
    requires multiset(xs) == multiset(ys) && k < |xs|
    ensures exists j :: 0 <= j < |ys| && ys[j] == xs[k]
  {
    assert xs[k] in multiset(ys);
  }

  lemma MovesIgnoresOrder(tx: Tx, shuffled: Tx, t: Token)
    requires multiset(tx.inputs) == multiset(shuffled.inputs)
    requires multiset(tx.outputs) == multiset(shuffled.outputs)
    requires Moves(tx, t) || SpendsMint(tx.inputs, t) || SpendsPureMelt(tx.inputs, t)
    ensures Moves(tx, t) ==> Moves(shuffled, t)
    ensures SpendsMint(tx.inputs, t) ==> SpendsMint(shuffled.inputs, t)
    ensures SpendsPureMelt(tx.inputs, t) ==> SpendsPureMelt(shuffled.inputs, t)
  {
    forall k | 0 <= k < |tx.inputs|
      ensures exists j :: 0 <= j < |shuffled.inputs| && shuffled.inputs[j] == tx.inputs[k]
    {
      SameElements(tx.inputs, shuffled.inputs, k);
    }
    forall k | 0 <= k < |tx.outputs|
      ensures exists j :: 0 <= j < |shuffled.outputs| && shuffled.outputs[j] == tx.outputs[k]
    {
      SameElements(tx.outputs, shuffled.outputs, k);
    }
  }

  /** The information does not depend on the order in which the wallet lists inputs and outputs. */
  lemma InfoIgnoresOrder(tx: Tx, shuffled: Tx)
    requires multiset(tx.inputs) == multiset(shuffled.inputs)
    requires multiset(tx.outputs) == multiset(shuffled.outputs)
    ensures InfoOf(tx) == InfoOf(shuffled)
  {
    var a, b := InfoOf(tx), InfoOf(shuffled);
    forall t
      ensures (t in a.balances <==> t in b.balances) && Held(a.balances, t) == Held(b.balances, t)
      ensures (t in a.canMint <==> t in b.canMint) && (t in a.canMelt <==> t in b.canMelt)
    {
      InfoOfMeaning(tx, t);
      InfoOfMeaning(shuffled, t);
      SumPermutation(tx.outputs, shuffled.outputs, Creates(t));
      SumPermutation(tx.inputs, shuffled.inputs, Consumes(t));
      if Moves(tx, t) || SpendsMint(tx.inputs, t) || SpendsPureMelt(tx.inputs, t) {
        MovesIgnoresOrder(tx, shuffled, t);
      }
      if Moves(shuffled, t) || SpendsMint(shuffled.inputs, t) || SpendsPureMelt(shuffled.inputs, t) {
        MovesIgnoresOrder(shuffled, tx, t);
      }
    }
    forall t | t in a.balances
      ensures a.balances[t] == b.balances[t]
    {
      assert Held(a.balances, t) == Held(b.balances, t);
    }
    assert a.balances == b.balances && a.canMint == b.canMint && a.canMelt == b.canMelt;
  }

  // ---------- totals by address and token ----------

  function Key(address: string, token: Token): string {
    address + ":" + token
  }

  function AtKey(key: string): Output -> int {
    (o: Output) => if Key(o.address, o.token) == key then o.value else 0
  }

  function Keys(outputs: seq<Output>): set<string> {
    set o | o in outputs :: Key(o.address, o.token)
  }

  function SumsByKey(outputs: seq<Output>): map<string, int> {
    map key | key in Keys(outputs) :: Sum(outputs, AtKey(key))
  }

  lemma {:induction false} UntouchedKey(outputs: seq<Output>, key: string)
    requires key !in Keys(outputs)
    ensures Sum(outputs, AtKey(key)) == 0
  {
    if outputs != [] {
      var n := |outputs| - 1;
      assert outputs == outputs[..n] + [outputs[n]];
      assert outputs[n] in outputs;
      UntouchedKey(outputs[..n], key);
    }
  }

  method SumByAddressAndToken(outputs: seq<Output>) returns (result: map<string, int>)
    ensures result == SumsByKey(outputs)
  {
    result := map[];
    for k := 0 to |outputs|
      invariant result.Keys == Keys(outputs[..k])
      invariant forall key | key in result :: result[key] == Sum(outputs[..k], AtKey(key))
    {
      var txn := outputs[k];
      ghost var seen := outputs[..k];
      assert outputs[..k + 1] == seen + [txn];
      forall key ensures Sum(outputs[..k + 1], AtKey(key)) == Sum(seen, AtKey(key)) + AtKey(key)(txn) {
        SumSnoc(seen, txn, AtKey(key));
      }
      var key := Key(txn.address, txn.token);
      if key !in result {
        UntouchedKey(seen, key);
        result := result[key := 0];
      }
      result := result[key := result[key] + txn.value];
    }
    assert outputs[..|outputs|] == outputs;
  }

  lemma LastColon(a: string, t: Token)
    requires ':' !in t
    ensures Key(a, t)[|a|] == ':'
    ensures forall j :: |a| < j < |Key(a, t)| ==> Key(a, t)[j] != ':'
  {
    forall j | |a| < j < |Key(a, t)|
      ensures Key(a, t)[j] != ':'
    {
      assert Key(a, t)[j] == t[j - |a| - 1];
    }
  }

  /** The keys tell addresses and tokens apart as long as token ids contain no colon. */
  lemma KeyInjective(a: string, t: Token, a': string, t': Token)
    requires ':' !in t && ':' !in t'
    ensures Key(a, t) == Key(a', t') <==> a == a' && t == t'
  {
    LastColon(a, t);
    LastColon(a', t');
    if Key(a, t) == Key(a', t') {
      assert a == Key(a, t)[..|a|] && t == Key(a, t)[|a| + 1..];
    }
  }

  // ---------- outputs of other tokens ----------

  /** What `validateTokensOutput` refuses: an unspent output of another token that the wallet
      says is not its own. Outputs with no `mine` field pass. */
  predicate IsForeignOutput(o: Output, destinationToken: Token) {
    o.token != destinationToken && o.spentBy == None && o.mine == Some(false)
  }

  predicate OnlyTokenSent(outputs: seq<Output>, destinationToken: Token) {
    forall o | o in outputs :: !IsForeignOutput(o, destinationToken)
  }
}
