/** federator/src/contracts/IHathorFederationV1.ts: how arguments become 32-byte words of the
    ledger and come back, so that every federator computes the same id for a transfer. Of
    web3 it takes `padLeft`, `isAddress` and `toChecksumAddress`. */
module TransactionIds {
  import opened Wrappers
  import EvmBroker
  import Protocol

  // ---------- text ----------

  predicate IsHexDigit(c: char) {
    '0' <= c <= '9' || 'a' <= c <= 'f' || 'A' <= c <= 'F'
  }

  predicate IsHex(s: string) {
    forall i | 0 <= i < |s| :: IsHexDigit(s[i])
  }

  function LowerChar(c: char): char {
    if 'A' <= c <= 'Z' then (c as int + 32) as char else c
  }

  function Lower(s: string): (l: string)
    ensures |l| == |s|
  {
    seq(|s|, i requires 0 <= i < |s| => LowerChar(s[i]))
  }

  predicate HasPrefix(s: string) {
    |s| >= 2 && s[0] == '0' && s[1] == 'x'
  }

  /** `s.indexOf('0x') >= 0` */
  predicate Contains0x(s: string) {
    exists i :: 0 <= i < |s| - 1 && s[i] == '0' && s[i + 1] == 'x'
  }

  function Strip(s: string): string {
    if HasPrefix(s) then s[2..] else s
  }

  function Zeros(n: nat): string {
    seq(n, i => '0')
  }

  function PadStart(s: string, n: nat): string {
    if |s| < n then Zeros(n - |s|) + s else s
  }

  /** web3: pads the digits of a hex string, any other text as it is. */
  function PadLeft(s: string, n: nat): string {
    if HasPrefix(s) && IsHex(s[2..]) then "0x" + PadStart(s[2..], n) else PadStart(s, n)
  }

  function SetPadding(param: string): string {
    var result := if !Contains0x(param) then "0x" + param else param;
    if |param| < 64 then PadLeft(result, 64) else result
  }

  // ---------- addresses ----------

  datatype Web3 = Web3(checksumOk: string -> bool, toChecksum: string -> string)

  /** Checksumming only changes the case of digits. */
  ghost predicate KeepsDigits(w: Web3) {
    forall s :: Lower(w.toChecksum(s)) == Lower(s) && (HasPrefix(s) ==> HasPrefix(w.toChecksum(s)))
  }

  predicate OneCase(s: string) {
    (forall i | 0 <= i < |s| :: !('A' <= s[i] <= 'F')) || (forall i | 0 <= i < |s| :: !('a' <= s[i] <= 'f'))
  }

  predicate IsAddress(w: Web3, s: string) {
    |s| == 42 && HasPrefix(s) && IsHex(s[2..]) && (OneCase(s[2..]) || w.checksumOk(s))
  }

  datatype AddressError = NoAddress

  /** Only the last 40 characters can be an address. */
  function AddressIn(w: Web3, address: string): Result<string, AddressError> {
    if |address| >= 40 && IsAddress(w, "0x" + address[|address| - 40..]) then
      Success(w.toChecksum("0x" + address[|address| - 40..]))
    else
      Failure(NoAddress)
  }

  /** Tries one suffix after the other; the text that is left over when none fits is refused
      by toChecksumAddress. */
  method GetAddress(w: Web3, address: string) returns (r: Result<string, AddressError>)
    ensures r == AddressIn(w, address)
  {
    var i := -1;
    var exit := false;
    var result := address;
    while !exit && i < |address|
      invariant -1 <= i <= |address|
      invariant i >= 0 ==> result == "0x" + address[i..]
      invariant exit <==> i >= 0 && IsAddress(w, "0x" + address[i..])
      invariant forall j | 0 <= j < i :: !IsAddress(w, "0x" + address[j..])
      decreases |address| - i, !exit
    {
      i := i + 1;
      result := "0x" + address[i..];
      exit := IsAddress(w, result);
    }
    r := if IsAddress(w, result) then Success(w.toChecksum(result)) else Failure(NoAddress);
    if exit {
      assert i == |address| - 40;
    }
  }

  /** The search finds an address exactly if some end of the text is one, and returns that end
      checksummed; there is at most one such end. */
  lemma AddressFoundIff(w: Web3, address: string, i: nat)
    requires i <= |address|
    ensures IsAddress(w, "0x" + address[i..]) ==> AddressIn(w, address) == Success(w.toChecksum("0x" + address[i..]))
    ensures AddressIn(w, address).Success? ==> exists j :: 0 <= j <= |address| && IsAddress(w, "0x" + address[j..])
  {
    if AddressIn(w, address).Success? {
      assert IsAddress(w, "0x" + address[|address| - 40..]);
    }
  }

  // ---------- padding ----------

  lemma HexHasNoPrefix(s: string)
    requires IsHex(s)
    ensures !Contains0x(s)
  {
  }

  lemma PaddedDigits(digits: string)
    requires IsHex(digits)
    ensures SetPadding(digits) == "0x" + PadStart(digits, 64)
    ensures SetPadding("0x" + digits) == "0x" + if |digits| < 62 then PadStart(digits, 64) else digits
  {
    HexHasNoPrefix(digits);
    var prefixed := "0x" + digits;
    assert prefixed[0] == '0' && prefixed[1] == 'x' && prefixed[2..] == digits;
  }

  /** When the result is a full word of 64 digits: always for up to 64 bare digits, but with a
      prefix, which counts towards the length, not for 62 or 63. */
  lemma PaddingIsFullIff(digits: string)
    requires IsHex(digits)
    ensures |SetPadding(digits)| == 66 <==> |digits| <= 64
    ensures |SetPadding("0x" + digits)| == 66 <==> |digits| <= 61 || |digits| == 64
  {
    PaddedDigits(digits);
  }

  /** What a full word is: zeros and then the digits, with or without a prefix before. */
  lemma PaddedWithZeros(digits: string, i: nat)
    requires IsHex(digits) && |digits| <= 61 && i < 66
    ensures var word := SetPadding(digits);
            && word == SetPadding("0x" + digits) && |word| == 66
            && word[i] == (if i == 0 then '0' else if i == 1 then 'x'
                           else if i < 66 - |digits| then '0' else digits[i - (66 - |digits|)])
  {
    PaddedDigits(digits);
  }

  /** Texts that are not digits: one with a prefix anywhere gets no other, and is padded as it is
      unless the prefix is in front. */
  lemma PaddingOfText(param: string, i: nat)
    ensures i + 2 <= |param| && param[i..i + 2] == "0x" && |param| >= 64 ==> SetPadding(param) == param
    ensures i + 2 <= |param| && param[i..i + 2] == "0x" && |param| < 64 && !HasPrefix(param) ==>
              SetPadding(param) == Zeros(64 - |param|) + param
    ensures (forall j | 0 <= j < |param| - 1 :: param[j] != '0' || param[j + 1] != 'x') && |param| >= 64 ==>
              SetPadding(param) == "0x" + param
  {
    if i + 2 <= |param| && param[i..i + 2] == "0x" {
      assert param[i] == param[i..i + 2][0] && param[i + 1] == param[i..i + 2][1];
    }
  }

  lemma PadStartHex(digits: string)
    requires IsHex(digits)
    ensures IsHex(PadStart(digits, 64)) && |PadStart(digits, 64)| >= 64
  {
  }

  lemma LowerConcat(a: string, b: string)
    ensures Lower(a + b) == Lower(a) + Lower(b)
  {
  }

  lemma LowerPrefixed(digits: string)
    ensures Lower("0x" + digits) == "0x" + Lower(digits)
  {
    LowerConcat("0x", digits);
    assert Lower("0x") == "0x";
  }

  lemma LowerHex(digits: string)
    ensures Lower(Lower(digits)) == Lower(digits)
    ensures IsHex(Lower(digits)) <==> IsHex(digits)
    ensures OneCase(Lower(digits))
  {
    assert forall i | 0 <= i < |digits| :: IsHexDigit(LowerChar(digits[i])) <==> IsHexDigit(digits[i]);
    assert forall i | 0 <= i < |digits| :: IsHexDigit(Lower(digits)[i]) <==> IsHexDigit(digits[i]);
  }

  lemma LowerPadStart(digits: string)
    ensures Lower(PadStart(digits, 64)) == PadStart(Lower(digits), 64)
  {
    if |digits| < 64 {
      LowerConcat(Zeros(64 - |digits|), digits);
      assert Lower(Zeros(64 - |digits|)) == Zeros(64 - |digits|);
    }
  }

  // ---------- the same id again ----------

  /** The id of a transfer: a hash, taken to be injective, of words, whose case is lost. */
  function LedgerId(token: string, txHash: string, value: nat, sender: string, receiver: string,
                    kind: EvmBroker.TransactionType): Protocol.TransactionId
  {
    Protocol.TransactionId(Lower(SetPadding(token)), Lower(SetPadding(txHash)), value, sender, receiver, kind)
  }

  /** How a word comes back in an event of the ledger. */
  function Word(param: string): string {
    Lower(SetPadding(param))
  }

  lemma WordOfDigits(digits: string)
    requires IsHex(digits)
    ensures Word(digits) == "0x" + PadStart(Lower(digits), 64)
  {
    PaddedDigits(digits);
    LowerPrefixed(PadStart(digits, 64));
    LowerPadStart(digits);
  }

  /** Padding, taking the prefix off and padding again is padding once, for up to 64 digits in
      any case; so is padding what came back as it is. */
  lemma {:induction false} WordIsStable(digits: string)
    requires IsHex(digits) && |digits| <= 64
    ensures Word(Strip(Word(digits))) == Word(digits)
    ensures Word(Word(digits)) == Word(digits)
  {
    LowerHex(digits);
    WordOfDigits(digits);
    PadStartHex(Lower(digits));
    var word := PadStart(Lower(digits), 64);
    assert Word(digits)[2..] == word && HasPrefix(Word(digits));
    LowerPadStart(Lower(digits));
    WordOfDigits(word);
    PaddedDigits(word);
    LowerPrefixed(word);
  }

  /** Out of a padded address the search brings back the same 40 digits, up to case: always
      from the lower case in which words come back, and from any other exactly if the address
      is one that web3 recognises. */
  lemma AddressSurvives(w: Web3, digits: string)
    requires KeepsDigits(w) && IsHex(digits) && |digits| == 40
    ensures AddressIn(w, Word("0x" + digits)).Success?
    ensures Lower(AddressIn(w, Word("0x" + digits)).value) == Lower("0x" + digits)
    ensures AddressIn(w, Word("0x" + digits)).value == w.toChecksum("0x" + Lower(digits))
    ensures AddressIn(w, SetPadding("0x" + digits)).Success? <==> IsAddress(w, "0x" + digits)
  {
    PaddedDigits(digits);
    var padded := SetPadding("0x" + digits);
    assert padded[|padded| - 40..] == digits;
    LowerPrefixed(PadStart(digits, 64));
    LowerPadStart(digits);
    LowerHex(digits);
    LowerPrefixed(digits);
    LowerPrefixed(Lower(digits));
    var word := Word("0x" + digits);
    assert word[|word| - 40..] == Lower(digits);
    assert ("0x" + Lower(digits))[2..] == Lower(digits);
  }

  lemma WordOfPrefixed(digits: string)
    requires IsHex(digits) && (|digits| < 62 || |digits| == 64)
    ensures Word("0x" + digits) == Word(digits)
  {
    PaddedDigits(digits);
  }

  lemma WordOfSameAddress(address: string, digits: string)
    requires HasPrefix(address) && IsHex(digits) && |digits| == 40 && Lower(address) == Lower("0x" + digits)
    ensures Word(address) == Word(digits)
  {
    var own := address[2..];
    assert address == "0x" + own;
    LowerPrefixed(digits);
    LowerPrefixed(own);
    assert Lower(own) == Lower(address)[2..] == Lower(digits);
    LowerHex(digits);
    LowerHex(own);
    WordOfPrefixed(own);
    WordOfDigits(own);
    WordOfDigits(digits);
  }

  /** A deposit on the EVM chain: the id recomputed from the ledger's event, with the token
      searched out of its word and the transaction hash as the event has it, is the id under
      which the deposit was first proposed. */
  lemma {:induction false} EvmIdIsStable(w: Web3, token: string, txHash: string, value: nat, sender: string, receiver: string,
                                         kind: EvmBroker.TransactionType)
    requires KeepsDigits(w) && IsHex(token) && |token| == 40 && IsHex(txHash) && |txHash| == 64
    ensures var found := AddressIn(w, Word("0x" + token));
            && found.Success?
            && LedgerId(found.value, Word("0x" + txHash), value, sender, receiver, kind)
               == LedgerId("0x" + token, "0x" + txHash, value, sender, receiver, kind)
  {
    AddressSurvives(w, token);
    var found := AddressIn(w, Word("0x" + token)).value;
    WordOfPrefixed(token);
    FoundHasPrefix(w, Word("0x" + token));
    WordOfSameAddress(found, token);
    WordOfPrefixed(txHash);
    WordIsStable(txHash);
  }

  lemma FoundHasPrefix(w: Web3, address: string)
    requires KeepsDigits(w) && AddressIn(w, address).Success?
    ensures HasPrefix(AddressIn(w, address).value)
  {
  }

  /** A deposit on Hathor: the token id is stripped of its prefix, the transaction id is not. */
  lemma HathorIdIsStable(uid: string, txId: string, value: nat, sender: string, receiver: string)
    requires IsHex(uid) && |uid| <= 64 && IsHex(txId) && |txId| == 64
    ensures LedgerId(Strip(Word(uid)), Word(txId), value, sender, receiver, EvmBroker.Melt)
            == LedgerId(uid, txId, value, sender, receiver, EvmBroker.Melt)
  {
    WordIsStable(uid);
    WordIsStable(txId);
  }

  // ---------- the ids of the protocol ----------

  /** An event as the EVM chain reports it: full-length hex, spelled the same everywhere. */
  ghost predicate IsCanonical(e: EvmBroker.CrossEvent) {
    && HasPrefix(e.tokenAddress) && |e.tokenAddress| == 42 && IsHex(e.tokenAddress[2..])
    && HasPrefix(e.txHash) && |e.txHash| == 66 && IsHex(e.txHash[2..])
  }

  function LedgerIdOf(id: Protocol.TransactionId): Protocol.TransactionId {
    LedgerId(id.tokenAddress, id.txHash, id.amount, id.sender, id.receiver, id.kind)
  }

  lemma {:induction false} WordTells(a: string, b: string)
    requires HasPrefix(a) && IsHex(a[2..]) && HasPrefix(b) && IsHex(b[2..]) && |a| == |b|
    requires |a| < 64 || |a| == 66
    ensures Word(a) == Word(b) <==> Lower(a) == Lower(b)
  {
    var x, y := a[2..], b[2..];
    assert a == "0x" + x && b == "0x" + y;
    WordOfPrefixed(x);
    WordOfPrefixed(y);
    WordOfDigits(x);
    WordOfDigits(y);
    LowerPrefixed(x);
    LowerPrefixed(y);
    var p, q := PadStart(Lower(x), 64), PadStart(Lower(y), 64);
    assert p[|p| - |x|..] == Lower(x) && q[|q| - |y|..] == Lower(y);
    assert Word(a)[2..] == p && Word(b)[2..] == q;
    assert Lower(a)[2..] == Lower(x) && Lower(b)[2..] == Lower(y);
  }

  /** The ids of the protocol tell events apart as the ledger does, as long as no two events
      spell the same token or transaction differently; and the id that a federator recomputes
      from the ledger's own event is the one under which the deposit is known. */
  lemma {:induction false} EventIdsAreLedgerIds(w: Web3, evm: EvmBroker.Evm, e: EvmBroker.CrossEvent, x: EvmBroker.CrossEvent)
    requires KeepsDigits(w) && IsCanonical(e) && IsCanonical(x)
    requires Lower(e.tokenAddress) == Lower(x.tokenAddress) ==> e.tokenAddress == x.tokenAddress
    requires Lower(e.txHash) == Lower(x.txHash) ==> e.txHash == x.txHash
    ensures LedgerIdOf(Protocol.EventId(evm, e)) == LedgerIdOf(Protocol.EventId(evm, x)) <==>
            Protocol.EventId(evm, e) == Protocol.EventId(evm, x)
    ensures var id := Protocol.EventId(evm, e);
            var found := AddressIn(w, Word(id.tokenAddress));
            && found.Success?
            && LedgerId(found.value, Word(id.txHash), id.amount, id.sender, id.receiver, id.kind) == LedgerIdOf(id)
  {
    WordTells(e.tokenAddress, x.tokenAddress);
    WordTells(e.txHash, x.txHash);
    var token, hash := e.tokenAddress[2..], e.txHash[2..];
    assert e.tokenAddress == "0x" + token && e.txHash == "0x" + hash;
    var id := Protocol.EventId(evm, e);
    WordOfPrefixed(token);
    EvmIdIsStable(w, token, hash, id.amount, id.sender, id.receiver, id.kind);
  }
}
