/**
 * Truncation of a response to a byte budget (`truncateResponse` in internal/pkg/interceptors/truncate.go). The
 * encoded size follows the Protocol Buffers encoding: a length-delimited record takes one byte of tag, its
 * length as a varint, and its bytes; empty strings are not encoded. A char stands for a byte.
 */
module Truncate {
  import opened GoInts
  import opened Wrappers

  /** Bytes of a base-128 varint. */
  function Varint(n: nat): nat {
    if n < 128 then 1 else 1 + Varint(n / 128)
  }

  function Power128(k: nat): nat {
    if k == 0 then 1 else 128 * Power128(k - 1)
  }

  /** A varint has the fewest groups of seven bits that hold the number. */
  lemma {:induction false} VarintExactly(n: nat)
    ensures n < Power128(Varint(n)) && (Varint(n) > 1 ==> Power128(Varint(n) - 1) <= n)
  {
    if n < 128 {
      assert Power128(1) == 128 * Power128(0);
    } else {
      VarintExactly(n / 128);
    }
  }

  function Record(length: nat): nat {
    1 + Varint(length) + length
  }

  function BytesField(length: nat): nat {
    if length == 0 then 0 else Record(length)
  }

  /** `other` is the encoded size of the fields truncation never touches. */
  datatype Result = Result(msg: string, other: nat)
  datatype Response = Response(stdout: string, stderr: string, result: Option<Result>, other: nat)

  function ResultSize(r: Result): nat {
    BytesField(|r.msg|) + r.other
  }

  /** proto.Size */
  function Size(r: Response): nat {
    BytesField(|r.stdout|) + BytesField(|r.stderr|)
    + (if r.result.Some? then Record(ResultSize(r.result.value)) else 0) + r.other
  }

  // ---------------------------------------------------------------------------------------------
  // The encoding
  // ---------------------------------------------------------------------------------------------

  /** Seven bits in each byte, the lowest first; the high bit says that more follow. */
  function EncodeVarint(n: nat): seq<nat> {
    if n < 128 then [n] else [n % 128 + 128] + EncodeVarint(n / 128)
  }

  function DecodeVarint(bytes: seq<nat>): (nat, seq<nat>) {
    if bytes == [] then (0, [])
    else if bytes[0] < 128 then (bytes[0], bytes[1..])
    else
      var (high, rest) := DecodeVarint(bytes[1..]);
      (bytes[0] - 128 + 128 * high, rest)
  }

  lemma {:induction false} VarintReadsBack(n: nat, rest: seq<nat>)
    ensures DecodeVarint(EncodeVarint(n) + rest) == (n, rest)
    ensures |EncodeVarint(n)| == Varint(n)
  {
    var bytes := EncodeVarint(n) + rest;
    if n >= 128 {
      VarintReadsBack(n / 128, rest);
      assert bytes[1..] == EncodeVarint(n / 128) + rest;
    } else {
      assert bytes[1..] == rest;
    }
  }

  function Bytes(s: string): seq<nat> {
    seq(|s|, i requires 0 <= i < |s| => s[i] as int)
  }

  /** A length-delimited record whose tag fits one byte. */
  function EncodeRecord(tag: nat, payload: seq<nat>): seq<nat> {
    [tag] + EncodeVarint(|payload|) + payload
  }

  /** A string or bytes field, which is left out when it is empty. */
  function EncodeField(tag: nat, field: string): seq<nat> {
    if field == "" then [] else EncodeRecord(tag, Bytes(field))
  }

  // Field numbers 1, 2 and 3, each with the wire type 2 of length-delimited records.
  const STDOUT_TAG := 10
  const STDERR_TAG := 18
  const RESULT_TAG := 26

  /**
   * The response on the wire; `others` and `resultOthers` are the fields that truncation never touches, and
   * `msgTag` is the one-byte tag of the message in a command result, which the SDK defines.
   */
  function Encode(r: Response, msgTag: nat, resultOthers: seq<nat>, others: seq<nat>): seq<nat> {
    EncodeField(STDOUT_TAG, r.stdout) + EncodeField(STDERR_TAG, r.stderr)
    + (if r.result.Some? then EncodeRecord(RESULT_TAG, EncodeField(msgTag, r.result.value.msg) + resultOthers) else [])
    + others
  }

  /** proto.Size is the length of the encoding. */
  lemma SizeIsLength(r: Response, msgTag: nat, resultOthers: seq<nat>, others: seq<nat>)
    requires |others| == r.other && (r.result.Some? ==> |resultOthers| == r.result.value.other)
    ensures Size(r) == |Encode(r, msgTag, resultOthers, others)|
  {
    VarintReadsBack(|r.stdout|, []);
    VarintReadsBack(|r.stderr|, []);
    if r.result.Some? {
      VarintReadsBack(|r.result.value.msg|, []);
      VarintReadsBack(ResultSize(r.result.value), []);
      assert |EncodeField(msgTag, r.result.value.msg) + resultOthers| == ResultSize(r.result.value);
    }
  }

  const MIN_FIELD_LEN := 1024

  /** The text that replaces what is cut off; the dump file is named if writing it worked. */
  function TruncPrefix(dump: Option<string>): string {
    match dump
    case None => "[content truncated]..."
    case Some(fileName) => "[content truncated, full response in " + fileName + "]..."
  }

  function MinFieldLen(prefix: string): nat {
    if MIN_FIELD_LEN < |prefix| then |prefix| else MIN_FIELD_LEN
  }

  /** getTruncFieldLen: how much of a field to keep behind the prefix. */
  function TruncFieldLen(responseSize: int, currentFieldLen: int, maxResponseSize: int, minFieldLen: int, prefixLen: int): int {
    var truncFieldLen := maxResponseSize - (responseSize - currentFieldLen) - prefixLen;
    if truncFieldLen >= minFieldLen - prefixLen then truncFieldLen else minFieldLen - prefixLen
  }

  /** The range of getTruncFieldLen whenever it is used, so the slice taken with it is always in range. */
  lemma TruncFieldLenInRange(responseSize: int, currentFieldLen: int, maxResponseSize: int, minFieldLen: int, prefixLen: int)
    requires responseSize > maxResponseSize && currentFieldLen > minFieldLen >= prefixLen >= 0
    ensures var n := TruncFieldLen(responseSize, currentFieldLen, maxResponseSize, minFieldLen, prefixLen);
      && 0 <= n && minFieldLen <= prefixLen + n < currentFieldLen
      && prefixLen + n == Max(minFieldLen, currentFieldLen - (responseSize - maxResponseSize))
  {
  }

  /** One field after its turn, in a response that is over the budget. */
  function TruncField(field: string, responseSize: int, maxResponseSize: int, prefix: string): string
    requires responseSize > maxResponseSize
  {
    if |field| <= MinFieldLen(prefix) then field
    else
      TruncFieldLenInRange(responseSize, |field|, maxResponseSize, MinFieldLen(prefix), |prefix|);
      var n := TruncFieldLen(responseSize, |field|, maxResponseSize, MinFieldLen(prefix), |prefix|);
      prefix + field[|field| - n..]
  }

  /** The response after the turns of stderr, stdout and the result message, stopping once it fits. */
  function Truncated(r: Response, max: int, prefix: string): Response {
    if Size(r) <= max then r
    else
      var r1 := r.(stderr := TruncField(r.stderr, Size(r), max, prefix));
      if Size(r1) <= max then r1
      else
        var r2 := r1.(stdout := TruncField(r1.stdout, Size(r1), max, prefix));
        if Size(r2) <= max || r2.result.None? then r2
        else r2.(result := Some(r2.result.value.(msg := TruncField(r2.result.value.msg, Size(r2), max, prefix))))
  }

  class CommandResult {
    var msg: string
    const other: nat

    constructor (msg: string, other: nat)
      ensures this.msg == msg && this.other == other
    {
      this.msg := msg;
      this.other := other;
    }
  }

  class RunResponse {
    var stdout: string
    var stderr: string
    const result: CommandResult?
    const other: nat

    constructor (stdout: string, stderr: string, result: CommandResult?, other: nat)
      ensures this.stdout == stdout && this.stderr == stderr && this.result == result && this.other == other
    {
      this.stdout, this.stderr, this.result, this.other := stdout, stderr, result, other;
    }

    function Value(): Response
      reads this, result
    {
      Response(stdout, stderr, if result == null then None else Some(Result(result.msg, result.other)), other)
    }

    /** The block that truncateResponse repeats for each of the three fields. */
    method Cut(field: string, responseSize: int, maxResponseSize: int, truncPrefix: string) returns (cut: string)
      requires responseSize > maxResponseSize
      ensures cut == TruncField(field, responseSize, maxResponseSize, truncPrefix)
    {
      var minFieldLen := MIN_FIELD_LEN;
      if minFieldLen < |truncPrefix| {
        minFieldLen := |truncPrefix|;
      }
      cut := field;
      var fieldLen := |field|;
      if fieldLen > minFieldLen {
        TruncFieldLenInRange(responseSize, fieldLen, maxResponseSize, minFieldLen, |truncPrefix|);
        var truncFieldLen := TruncFieldLen(responseSize, fieldLen, maxResponseSize, minFieldLen, |truncPrefix|);
        cut := truncPrefix + field[fieldLen - truncFieldLen..];
      }
    }

    /** truncateResponse; `dump` is the outcome of writing the full response to a file. */
    method TruncateResponse(maxResponseSize: int, dump: Option<string>)
      modifies this, result
      ensures Value() == Truncated(old(Value()), maxResponseSize, TruncPrefix(dump))
    {
      var responseSize := Size(Value());
      if responseSize <= maxResponseSize {
        return;
      }
      var truncPrefix := TruncPrefix(dump);
      stderr := Cut(stderr, responseSize, maxResponseSize, truncPrefix);
      responseSize := Size(Value());
      if responseSize <= maxResponseSize {
        return;
      }
      stdout := Cut(stdout, responseSize, maxResponseSize, truncPrefix);
      responseSize := Size(Value());
      if responseSize <= maxResponseSize || result == null {
        return;
      }
      result.msg := Cut(result.msg, responseSize, maxResponseSize, truncPrefix);
    }
  }

  // ---------------------------------------------------------------------------------------------
  // What truncation achieves
  // ---------------------------------------------------------------------------------------------

  lemma {:induction false} VarintMonotone(a: nat, b: nat)
    requires a <= b
    ensures Varint(a) <= Varint(b)
  {
    if a >= 128 {
      VarintMonotone(a / 128, b / 128);
    }
  }

  /** Taking bytes out of a field takes at least as many out of the encoding. */
  lemma ShorterMeansSmaller(short: nat, long: nat)
    requires short <= long
    ensures BytesField(short) + (long - short) <= BytesField(long)
    ensures Record(short) + (long - short) <= Record(long)
  {
    VarintMonotone(short, long);
  }

  /** Either the field is down to the minimum, or all the excess came out of it. */
  lemma FieldTurn(field: string, size: int, max: int, prefix: string)
    requires size > max
    ensures var t := TruncField(field, size, max, prefix);
      |t| <= MinFieldLen(prefix) || |t| == |field| - (size - max)
    ensures |TruncField(field, size, max, prefix)| <= |field|
  {
    if |field| > MinFieldLen(prefix) {
      TruncFieldLenInRange(size, |field|, max, MinFieldLen(prefix), |prefix|);
    }
  }

  /** The length to which a field is cut that is over by `excess` on its turn. */
  function CutLength(length: nat, excess: int, prefix: string): int {
    var minimum := Max(1024, |prefix|);
    if length <= minimum then length else Max(minimum, length - excess)
  }

  lemma FieldLength(field: string, size: int, max: int, prefix: string)
    requires size > max
    ensures |TruncField(field, size, max, prefix)| == CutLength(|field|, size - max, prefix)
  {
    if |field| > MinFieldLen(prefix) {
      TruncFieldLenInRange(size, |field|, max, MinFieldLen(prefix), |prefix|);
    }
  }

  /**
   * Each field gives up exactly what the response is over the budget on its turn, unless that takes it below the
   * larger of 1024 and the length of the prefix; a field whose turn does not come is as it was.
   */
  lemma LengthsExactly(r: Response, max: int, prefix: string)
    ensures var t := Truncated(r, max, prefix);
      var r1 := r.(stderr := t.stderr);
      var r2 := r1.(stdout := t.stdout);
      && |t.stderr| == (if Size(r) <= max then |r.stderr| else CutLength(|r.stderr|, Size(r) - max, prefix))
      && |t.stdout| == (if Size(r1) <= max then |r.stdout| else CutLength(|r.stdout|, Size(r1) - max, prefix))
      && (t.result.Some? && r.result.Some? ==>
            |t.result.value.msg| ==
              if Size(r2) <= max then |r.result.value.msg| else CutLength(|r.result.value.msg|, Size(r2) - max, prefix))
  {
    if Size(r) > max {
      FieldLength(r.stderr, Size(r), max, prefix);
      var r1 := r.(stderr := TruncField(r.stderr, Size(r), max, prefix));
      if Size(r1) > max {
        FieldLength(r1.stdout, Size(r1), max, prefix);
        var r2 := r1.(stdout := TruncField(r1.stdout, Size(r1), max, prefix));
        if Size(r2) > max && r2.result.Some? {
          FieldLength(r2.result.value.msg, Size(r2), max, prefix);
        }
      }
    }
  }

  predicate AtMinimum(r: Response, prefix: string) {
    && |r.stderr| <= MinFieldLen(prefix) && |r.stdout| <= MinFieldLen(prefix)
    && (r.result.Some? ==> |r.result.value.msg| <= MinFieldLen(prefix))
  }

  /** The outcome fits the budget, or every field that may be cut has been cut as far as allowed. */
  lemma FitsOrMinimal(r: Response, max: int, prefix: string)
    ensures Size(Truncated(r, max, prefix)) <= max || AtMinimum(Truncated(r, max, prefix), prefix)
  {
    if Size(r) > max {
      var r1 := r.(stderr := TruncField(r.stderr, Size(r), max, prefix));
      FieldTurn(r.stderr, Size(r), max, prefix);
      ShorterMeansSmaller(|r1.stderr|, |r.stderr|);
      if Size(r1) > max {
        var r2 := r1.(stdout := TruncField(r1.stdout, Size(r1), max, prefix));
        FieldTurn(r1.stdout, Size(r1), max, prefix);
        ShorterMeansSmaller(|r2.stdout|, |r1.stdout|);
        if Size(r2) > max && r2.result.Some? {
          MessageTurn(r2, max, prefix);
        }
      }
    }
  }

  lemma MessageTurn(r: Response, max: int, prefix: string)
    requires Size(r) > max && r.result.Some?
    ensures var m := TruncField(r.result.value.msg, Size(r), max, prefix);
      |m| <= MinFieldLen(prefix) || Size(r.(result := Some(r.result.value.(msg := m)))) <= max
  {
    var before := r.result.value;
    var after := before.(msg := TruncField(before.msg, Size(r), max, prefix));
    FieldTurn(before.msg, Size(r), max, prefix);
    ShorterMeansSmaller(|after.msg|, |before.msg|);
    ShorterMeansSmaller(ResultSize(after), ResultSize(before));
  }

  /** A field is as it was, or is the prefix followed by the end of what it was, and strictly shorter. */
  predicate CutFrom(field: string, original: string, prefix: string) {
    field == original ||
    (|field| < |original| && |field| >= MinFieldLen(prefix) &&
     field == prefix + original[|original| - (|field| - |prefix|)..])
  }

  lemma FieldIsCut(field: string, size: int, max: int, prefix: string)
    requires size > max
    ensures CutFrom(TruncField(field, size, max, prefix), field, prefix)
  {
    if |field| > MinFieldLen(prefix) {
      TruncFieldLenInRange(size, |field|, max, MinFieldLen(prefix), |prefix|);
    }
  }

  /** Truncation only cuts: every field is kept or shortened from the front, and nothing else changes. */
  lemma OnlyCuts(r: Response, max: int, prefix: string)
    ensures var t := Truncated(r, max, prefix);
      && CutFrom(t.stderr, r.stderr, prefix) && CutFrom(t.stdout, r.stdout, prefix)
      && (t.result.Some? <==> r.result.Some?) && t.other == r.other
      && (t.result.Some? ==>
            t.result.value.other == r.result.value.other && CutFrom(t.result.value.msg, r.result.value.msg, prefix))
  {
    if Size(r) > max {
      FieldIsCut(r.stderr, Size(r), max, prefix);
      var r1 := r.(stderr := TruncField(r.stderr, Size(r), max, prefix));
      if Size(r1) > max {
        FieldIsCut(r1.stdout, Size(r1), max, prefix);
        var r2 := r1.(stdout := TruncField(r1.stdout, Size(r1), max, prefix));
        if Size(r2) > max && r2.result.Some? {
          FieldIsCut(r2.result.value.msg, Size(r2), max, prefix);
        }
      }
    }
  }

  /** What is cut says so first, and names the file with the full response if there is one. */
  lemma CutsAreAnnounced(r: Response, max: int, dump: Option<string>)
    ensures var t := Truncated(r, max, TruncPrefix(dump));
      && (t.stderr != r.stderr ==> Announced(t.stderr, dump))
      && (t.stdout != r.stdout ==> Announced(t.stdout, dump))
      && (t.result != r.result ==> Announced(t.result.value.msg, dump))
  {
    OnlyCuts(r, max, TruncPrefix(dump));
  }

  predicate Announced(field: string, dump: Option<string>) {
    match dump
    case None => "[content truncated]..." <= field
    case Some(file) => "[content truncated, full response in " + file + "]..." <= field
  }

  /** The order of sacrifice: stdout is touched only if cutting stderr was not enough, and the message last. */
  lemma CutsInOrder(r: Response, max: int, prefix: string)
    ensures var t := Truncated(r, max, prefix);
      && (Size(r) <= max ==> t == r)
      && (t.stdout != r.stdout ==> |t.stderr| <= MinFieldLen(prefix))
      && (t.result != r.result ==> |t.stderr| <= MinFieldLen(prefix) && |t.stdout| <= MinFieldLen(prefix))
  {
    if Size(r) > max {
      var r1 := r.(stderr := TruncField(r.stderr, Size(r), max, prefix));
      FieldTurn(r.stderr, Size(r), max, prefix);
      ShorterMeansSmaller(|r1.stderr|, |r.stderr|);
      if Size(r1) > max {
        var r2 := r1.(stdout := TruncField(r1.stdout, Size(r1), max, prefix));
        FieldTurn(r1.stdout, Size(r1), max, prefix);
        ShorterMeansSmaller(|r2.stdout|, |r1.stdout|);
      }
    }
  }

  /** So a budget with room for what is never cut and for minimal fields is always met. */
  lemma RoomyBudgetIsMet(r: Response, max: int, prefix: string)
    requires max >= r.other + 2 * Record(MinFieldLen(prefix)) +
      (if r.result.Some? then Record(r.result.value.other + Record(MinFieldLen(prefix))) else 0)
    ensures Size(Truncated(r, max, prefix)) <= max
  {
    FitsOrMinimal(r, max, prefix);
    OnlyCuts(r, max, prefix);
    var t := Truncated(r, max, prefix);
    if AtMinimum(t, prefix) {
      ShorterMeansSmaller(|t.stderr|, MinFieldLen(prefix));
      ShorterMeansSmaller(|t.stdout|, MinFieldLen(prefix));
      if t.result.Some? {
        ShorterMeansSmaller(|t.result.value.msg|, MinFieldLen(prefix));
        ShorterMeansSmaller(ResultSize(t.result.value), r.result.value.other + Record(MinFieldLen(prefix)));
      }
    }
  }
}
