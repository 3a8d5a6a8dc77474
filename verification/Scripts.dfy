/** federator/src/utils/scripts.ts: the data outputs in which a Hathor deposit names its EVM
    receiver. Decoding the data as UTF-8 is left to the caller. */
module Scripts {
  import opened Wrappers

  newtype byte = b: int | 0 <= b < 256

  const OP_PUSHDATA1: byte := 0x4c
  const OP_CHECKSIG: byte := 0xac

  datatype ScriptError = TooShort | WrongLength | NoCheckSig | EmptyBuffer

  /** `buffer.slice(start, end)`: bounds beyond the buffer are clamped. */
  function Slice(buff: seq<byte>, start: nat, end: nat): seq<byte> {
    if start >= |buff| || end <= start then [] else if end > |buff| then buff[start..] else buff[start..end]
  }

  function GetPushData(buff: seq<byte>): Result<seq<byte>, ScriptError> {
    if |buff| == 0 then Failure(EmptyBuffer)
    else if buff[0] > 75 then
      // a missing length byte makes the end NaN, which slice reads as 0
      Success(if |buff| == 1 then [] else Slice(buff, 2, 2 + buff[1] as nat))
    else Success(Slice(buff, 1, 1 + buff[0] as nat))
  }

  function ParseScriptData(buff: seq<byte>): Result<seq<byte>, ScriptError> {
    if |buff| < 2 then Failure(TooShort)
    else
      var pushData1 := buff[0] == OP_PUSHDATA1;
      var dataBytesLen := if pushData1 then buff[1] as nat else buff[0] as nat;
      var expectedLen := (if pushData1 then 3 else 2) + dataBytesLen;
      if expectedLen != |buff| then Failure(WrongLength)
      else if buff[expectedLen - 1] != OP_CHECKSIG then Failure(NoCheckSig)
      else GetPushData(buff)
  }

  /** A data script: the length, after OP_PUSHDATA1 or on its own, the data, OP_CHECKSIG. */
  ghost predicate IsDataScript(buff: seq<byte>, data: seq<byte>) {
    && |data| <= 255
    && var length := |data| as byte;
    || buff == [OP_PUSHDATA1, length] + data + [OP_CHECKSIG]
    || (|data| <= 75 && buff == [length] + data + [OP_CHECKSIG])
  }

  /** Every data script of either form parses back to its data. */
  lemma {:induction false} DataScriptParses(buff: seq<byte>, data: seq<byte>)
    requires IsDataScript(buff, data)
    ensures ParseScriptData(buff) == Success(data)
  {
    var length := |data| as byte;
    if buff == [OP_PUSHDATA1, length] + data + [OP_CHECKSIG] {
      assert buff[2..2 + |data|] == data;
    } else {
      assert buff[1..1 + |data|] == data;
    }
  }

  /** What else the parser accepts: a first byte above OP_PUSHDATA1 counts the whole script,
      yet the byte after it says where the data ends. */
  ghost predicate IsLongScript(buff: seq<byte>, data: seq<byte>) {
    && |buff| >= 2 && buff[0] > OP_PUSHDATA1 && |buff| == buff[0] as nat + 2
    && buff[|buff| - 1] == OP_CHECKSIG
    && data == Slice(buff, 2, 2 + buff[1] as nat)
  }

  /** The parser returns data from exactly the data scripts and the long ones, and which of the
      two it was shows in the first byte. */
  lemma {:induction false} ParsedExactly(buff: seq<byte>, data: seq<byte>)
    ensures ParseScriptData(buff) == Success(data) <==> IsDataScript(buff, data) || IsLongScript(buff, data)
    ensures ParseScriptData(buff) == Success(data) ==> (IsDataScript(buff, data) <==> buff[0] <= OP_PUSHDATA1)
  {
    if IsDataScript(buff, data) {
      DataScriptParses(buff, data);
    } else if ParseScriptData(buff) == Success(data) && buff[0] <= OP_PUSHDATA1 {
      ParsedIsDataScript(buff, data);
    }
  }

  lemma ParsedIsDataScript(buff: seq<byte>, data: seq<byte>)
    requires ParseScriptData(buff) == Success(data) && buff[0] <= OP_PUSHDATA1
    ensures IsDataScript(buff, data)
  {
    var n := |buff| - 1;
    if buff[0] == OP_PUSHDATA1 {
      assert data == buff[2..n];
      assert buff == buff[..2] + buff[2..n] + [buff[n]];
      assert buff[..2] == [OP_PUSHDATA1, |data| as byte];
    } else {
      assert data == buff[1..n];
      assert buff == buff[..1] + buff[1..n] + [buff[n]];
      assert buff[..1] == [|data| as byte];
    }
  }

  /** Which exception a refused script meets. */
  lemma RefusalOf(buff: seq<byte>)
    ensures var r := ParseScriptData(buff);
            var right := |buff| >= 2 && |buff| == if buff[0] == 0x4c then 3 + buff[1] as nat else 2 + buff[0] as nat;
            && (r == Failure(TooShort) <==> |buff| < 2)
            && (r == Failure(WrongLength) <==> |buff| >= 2 && !right)
            && (r == Failure(NoCheckSig) <==> right && buff[|buff| - 1] != 0xac)
            && r != Failure(EmptyBuffer)
  {
  }

  /** getPushData on its own: a first byte up to 75 is the length, any other is followed by it;
      data that is missing at the end is left out. */
  lemma PushDataIs(data: seq<byte>, rest: seq<byte>, op: byte)
    requires |data| <= 255
    ensures |data| <= 75 ==> GetPushData([|data| as byte] + data + rest) == Success(data)
    ensures op > 75 ==> GetPushData([op, |data| as byte] + data + rest) == Success(data)
    ensures |data| <= 75 ==> forall n | 0 <= n <= |data| :: GetPushData([|data| as byte] + data[..n]) == Success(data[..n])
    ensures GetPushData([]) == Failure(EmptyBuffer)
  {
    if |data| <= 75 {
      assert ([|data| as byte] + data + rest)[1..1 + |data|] == data;
      forall n | 0 <= n <= |data|
        ensures GetPushData([|data| as byte] + data[..n]) == Success(data[..n])
      {
        var buff := [|data| as byte] + data[..n];
        assert buff[1..] == data[..n] && buff[1..1 + n] == data[..n];
      }
    }
    assert ([op, |data| as byte] + data + rest)[2..2 + |data|] == data;
  }
}
