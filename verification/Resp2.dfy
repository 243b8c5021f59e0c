/** RESP2 framing: the incremental parser (src/proto/resp2_parser.cpp) and the writer (src/proto/resp2_writer.cpp). */
module Resp2 {
  import opened Octets
  import Decimal

  const BULK: Byte := 36   // '$'
  const ARRAY: Byte := 42  // '*'
  const MAX_ARRAY: nat := 1024

  datatype Frame = Bulk(body: Bytes) | Array(elements: seq<Bytes>)

  datatype Error =
    | ExpectedBulkMarker
    | BadBulkLength
    | NullBulk
    | BulkTooLong
    | MissingCrlf
    | BadArrayLength
    | ArrayLengthOutOfRange
    | UnexpectedType

  /** `Incomplete` is the source's `Ok(0)`; `Complete(n, f)` is `Ok(n)` with `n > 0`. */
  datatype ParseResult = Incomplete | Malformed(error: Error) | Complete(consumed: nat, frame: Frame)

  datatype BulkResult = NeedMore | BadBulk(error: Error) | GotBulk(valueOff: nat, valueLen: nat, end: nat)

  datatype ElementsResult = NeedMoreElements | BadElement(error: Error) | GotElements(elements: seq<Bytes>, end: nat)

  // ---------------- what the parser computes ----------------

  predicate CrlfAt(data: Bytes, i: nat) {
    i + 1 < |data| && data[i] == CR && data[i + 1] == LF
  }

  function NextCrlf(data: Bytes, from: nat): (r: Option<nat>)
    ensures r.Some? ==> from <= r.value && CrlfAt(data, r.value)
    decreases |data| - from
  {
    if from + 1 >= |data| then None
    else if CrlfAt(data, from) then Some(from)
    else NextCrlf(data, from + 1)
  }

  lemma {:induction false} NextCrlfIsFirst(data: Bytes, from: nat, i: nat)
    requires from <= i && CrlfAt(data, i)
    ensures NextCrlf(data, from).Some? && NextCrlf(data, from).value <= i
    decreases i - from
  {
    if from < i {
      NextCrlfIsFirst(data, from + 1, i);
    }
  }

  /** A marker with none before it is the one that the search finds. */
  lemma NextCrlfUnique(data: Bytes, from: nat, i: nat)
    requires from <= i && CrlfAt(data, i)
    requires forall j :: from <= j < i ==> !CrlfAt(data, j)
    ensures NextCrlf(data, from) == Some(i)
  {
    NextCrlfIsFirst(data, from, i);
  }

  /** One bulk string that starts at `off`. */
  function BulkAt(data: Bytes, off: nat, maxBulk: nat): (r: BulkResult)
    ensures r.GotBulk? ==>
              off < r.valueOff && r.valueOff + r.valueLen + 2 == r.end <= |data| && r.valueLen <= maxBulk
  {
    if off >= |data| then NeedMore
    else if data[off] != BULK then BadBulk(ExpectedBulkMarker)
    else
      match NextCrlf(data, off + 1)
      case None => NeedMore
      case Some(hdrEnd) =>
        match Decimal.SimpleAtoi(data[off + 1..hdrEnd])
        case None => BadBulk(BadBulkLength)
        case Some(len) =>
          if len < 0 then BadBulk(NullBulk)
          else if len > maxBulk then BadBulk(BulkTooLong)
          else
            var bodyEnd := hdrEnd + 2 + len;
            if bodyEnd + 2 > |data| then NeedMore
            else if !CrlfAt(data, bodyEnd) then BadBulk(MissingCrlf)
            else GotBulk(hdrEnd + 2, len, bodyEnd + 2)
  }

  /** `n` bulk strings, one after the other. */
  function ElementsAt(data: Bytes, off: nat, n: nat, maxBulk: nat): (r: ElementsResult)
    requires off <= |data|
    ensures r.GotElements? ==> |r.elements| == n && off <= r.end <= |data|
    decreases n
  {
    if n == 0 then GotElements([], off)
    else
      match BulkAt(data, off, maxBulk)
      case NeedMore => NeedMoreElements
      case BadBulk(e) => BadElement(e)
      case GotBulk(vo, vl, end) =>
        match ElementsAt(data, end, n - 1, maxBulk)
        case GotElements(es, last) => GotElements([data[vo..vo + vl]] + es, last)
        case other => other
  }

  /** One top-level value at the front of `data`. */
  function Parse(data: Bytes, maxBulk: nat): (r: ParseResult)
    ensures r.Complete? ==> 0 < r.consumed <= |data|
  {
    if data == [] then Incomplete
    else if data[0] == BULK then
      match BulkAt(data, 0, maxBulk)
      case NeedMore => Incomplete
      case BadBulk(e) => Malformed(e)
      case GotBulk(vo, vl, end) => Complete(end, Bulk(data[vo..vo + vl]))
    else if data[0] == ARRAY then
      match NextCrlf(data, 1)
      case None => Incomplete
      case Some(hdrEnd) =>
        match Decimal.SimpleAtoi(data[1..hdrEnd])
        case None => Malformed(BadArrayLength)
        case Some(n) =>
          if n < 0 || n > MAX_ARRAY then Malformed(ArrayLengthOutOfRange)
          else
            match ElementsAt(data, hdrEnd + 2, n, maxBulk)
            case NeedMoreElements => Incomplete
            case BadElement(e) => Malformed(e)
            case GotElements(es, end) => Complete(end, Array(es))
    else Malformed(UnexpectedType)
  }

  // ---------------- the parser ----------------

  method FindCrlf(data: Bytes, from: nat) returns (r: Option<nat>)
    ensures r == NextCrlf(data, from)
    ensures r.Some? ==> from <= r.value && CrlfAt(data, r.value) && forall i :: from <= i < r.value ==> !CrlfAt(data, i)
    ensures r.None? ==> forall i :: from <= i ==> !CrlfAt(data, i)
  {
    if |data| < 2 {
      return None;
    }
    var i := from;
    while i + 1 < |data|
      invariant from <= i
      invariant forall j :: from <= j < i ==> !CrlfAt(data, j)
    {
      if data[i] == CR && data[i + 1] == LF {
        NextCrlfUnique(data, from, i);
        return Some(i);
      }
      i := i + 1;
    }
    return None;
  }

  method ParseBulkString(data: Bytes, off: nat, maxBulk: nat) returns (r: BulkResult)
    ensures r == BulkAt(data, off, maxBulk)
  {
    if off >= |data| {
      return NeedMore;
    }
    if data[off] != BULK {
      return BadBulk(ExpectedBulkMarker);
    }
    var hdrEnd := FindCrlf(data, off + 1);
    if hdrEnd.None? {
      return NeedMore;
    }
    var len := Decimal.SimpleAtoi(data[off + 1..hdrEnd.value]);
    if len.None? {
      return BadBulk(BadBulkLength);
    }
    if len.value < 0 {
      return BadBulk(NullBulk);
    }
    if len.value > maxBulk {
      return BadBulk(BulkTooLong);
    }
    var bodyStart := hdrEnd.value + 2;
    var bodyEnd := bodyStart + len.value;
    if bodyEnd + 2 > |data| {
      return NeedMore;
    }
    if data[bodyEnd] != CR || data[bodyEnd + 1] != LF {
      return BadBulk(MissingCrlf);
    }
    return GotBulk(bodyStart, len.value, bodyEnd + 2);
  }

  method TryParse(data: Bytes, maxBulk: nat) returns (r: ParseResult)
    ensures r == Parse(data, maxBulk)
  {
    if |data| == 0 {
      return Incomplete;
    }
    if data[0] == BULK {
      var b := ParseBulkString(data, 0, maxBulk);
      match b {
        case NeedMore => return Incomplete;
        case BadBulk(e) => return Malformed(e);
        case GotBulk(vo, vl, end) => return Complete(end, Bulk(data[vo..vo + vl]));
      }
    }
    if data[0] != ARRAY {
      return Malformed(UnexpectedType);
    }
    var hdrEnd := FindCrlf(data, 1);
    if hdrEnd.None? {
      return Incomplete;
    }
    var n := Decimal.SimpleAtoi(data[1..hdrEnd.value]);
    if n.None? {
      return Malformed(BadArrayLength);
    }
    if n.value < 0 || n.value > MAX_ARRAY {
      return Malformed(ArrayLengthOutOfRange);
    }
    var es := ParseElements(data, hdrEnd.value + 2, n.value, maxBulk);
    match es {
      case NeedMoreElements => return Incomplete;
      case BadElement(e) => return Malformed(e);
      case GotElements(elements, end) => return Complete(end, Array(elements));
    }
  }

  /** The element loop of `tryParse`. */
  method ParseElements(data: Bytes, start: nat, n: nat, maxBulk: nat) returns (r: ElementsResult)
    requires start <= |data|
    ensures r == ElementsAt(data, start, n, maxBulk)
  {
    hide BulkAt;
    var elements: seq<Bytes>, off: nat := [], start;
    ghost var whole := ElementsAt(data, start, n, maxBulk);
    for i := 0 to n
      invariant off <= |data|
      invariant whole == Prepend(elements, ElementsAt(data, off, n - i, maxBulk))
    {
      var b := ParseBulkString(data, off, maxBulk);
      match b {
        case NeedMore => return NeedMoreElements;
        case BadBulk(e) => return BadElement(e);
        case GotBulk(vo, vl, end) =>
          var x := data[vo..vo + vl];
          ElementsStep(data, off, n - i, maxBulk, x, end);
          PrependOne(elements, x, ElementsAt(data, end, n - i - 1, maxBulk));
          elements, off := elements + [x], end;
      }
    }
    assert elements + [] == elements;
    return GotElements(elements, off);
  }

  function Prepend(front: seq<Bytes>, r: ElementsResult): ElementsResult {
    match r
    case GotElements(es, end) => GotElements(front + es, end)
    case other => other
  }

  lemma {:induction false} PrependOne(front: seq<Bytes>, x: Bytes, r: ElementsResult)
    ensures Prepend(front + [x], r) == Prepend(front, Prepend([x], r))
  {
    if r.GotElements? {
      assert front + [x] + r.elements == front + ([x] + r.elements);
    }
  }

  // ---------------- the writer ----------------

  function BulkWire(payload: Bytes): Bytes {
    [BULK] + Decimal.Print(|payload|) + CRLF + payload + CRLF
  }

  function BulkWires(parts: seq<Bytes>): Bytes {
    if parts == [] then [] else BulkWire(parts[0]) + BulkWires(parts[1..])
  }

  function ArrayWire(parts: seq<Bytes>): Bytes {
    [ARRAY] + Decimal.Print(|parts|) + CRLF + BulkWires(parts)
  }

  function Wire(f: Frame): Bytes {
    match f
    case Bulk(body) => BulkWire(body)
    case Array(elements) => ArrayWire(elements)
  }

  method WriteBulk(out: ByteString, payload: Bytes)
    modifies out
    ensures out.bytes == old(out.bytes) + BulkWire(payload)
  {
    out.Append([BULK]);
    out.Append(Decimal.Print(|payload|));
    out.Append(CRLF);
    out.Append(payload);
    out.Append(CRLF);
  }

  method WriteArray(out: ByteString, parts: seq<Bytes>)
    modifies out
    ensures out.bytes == old(out.bytes) + ArrayWire(parts)
  {
    hide Decimal.Print, BulkWire;
    out.Append([ARRAY]);
    out.Append(Decimal.Print(|parts|));
    out.Append(CRLF);
    ghost var header := out.bytes;
    for i := 0 to |parts|
      invariant out.bytes + BulkWires(parts[i..]) == header + BulkWires(parts)
    {
      assert parts[i..][1..] == parts[i + 1..];
      WriteBulk(out, parts[i]);
    }
    assert parts[|parts|..] == [];
    assert out.bytes == header + BulkWires(parts);
  }

  // ---------------- appending bytes does not change an answer ----------------

  lemma {:induction false} NextCrlfExtend(data: Bytes, from: nat, more: Bytes)
    requires NextCrlf(data, from).Some?
    ensures NextCrlf(data + more, from) == NextCrlf(data, from)
  {
    var i := NextCrlf(data, from).value;
    forall j | from <= j < i ensures !CrlfAt(data + more, j) {
      if CrlfAt(data + more, j) {
        NextCrlfIsFirst(data, from, j);
      }
    }
    NextCrlfUnique(data + more, from, i);
  }

  lemma {:induction false} BulkAtExtend(data: Bytes, off: nat, maxBulk: nat, more: Bytes)
    requires !BulkAt(data, off, maxBulk).NeedMore?
    ensures BulkAt(data + more, off, maxBulk) == BulkAt(data, off, maxBulk)
  {
    if data[off] == BULK {
      NextCrlfExtend(data, off + 1, more);
      var hdrEnd := NextCrlf(data, off + 1).value;
      assert (data + more)[off + 1..hdrEnd] == data[off + 1..hdrEnd];
    }
  }

  lemma {:induction false} ElementsAtExtend(data: Bytes, off: nat, n: nat, maxBulk: nat, more: Bytes)
    requires off <= |data|
    requires !ElementsAt(data, off, n, maxBulk).NeedMoreElements?
    ensures ElementsAt(data + more, off, n, maxBulk) == ElementsAt(data, off, n, maxBulk)
    decreases n
  {
    hide BulkAt;
    if n > 0 {
      BulkAtExtend(data, off, maxBulk, more);
      var b := BulkAt(data, off, maxBulk);
      if b.GotBulk? {
        ElementsAtExtend(data, b.end, n - 1, maxBulk, more);
        assert (data + more)[b.valueOff..b.valueOff + b.valueLen] == data[b.valueOff..b.valueOff + b.valueLen];
      }
    }
  }

  /** A complete parse, or an error, is final: no bytes that arrive later can change it. */
  lemma {:induction false} ParseExtend(data: Bytes, maxBulk: nat, more: Bytes)
    requires !Parse(data, maxBulk).Incomplete?
    ensures Parse(data + more, maxBulk) == Parse(data, maxBulk)
  {
    if data[0] == BULK {
      BulkAtExtend(data, 0, maxBulk, more);
      var b := BulkAt(data, 0, maxBulk);
      if b.GotBulk? {
        assert (data + more)[b.valueOff..b.valueOff + b.valueLen] == data[b.valueOff..b.valueOff + b.valueLen];
      }
    } else if data[0] == ARRAY {
      NextCrlfExtend(data, 1, more);
      var hdrEnd := NextCrlf(data, 1).value;
      assert (data + more)[1..hdrEnd] == data[1..hdrEnd];
      var n := Decimal.SimpleAtoi(data[1..hdrEnd]);
      if n.Some? && 0 <= n.value <= MAX_ARRAY {
        ElementsAtExtend(data, hdrEnd + 2, n.value, maxBulk, more);
      }
    }
  }

  // ---------------- parse after print ----------------

  /** A body that the parser's limit and its 64-bit length field both admit. */
  predicate FitsBulk(body: Bytes, maxBulk: nat) {
    |body| <= maxBulk && |body| < Decimal.I64_LIMIT
  }

  predicate Fits(f: Frame, maxBulk: nat) {
    match f
    case Bulk(body) => FitsBulk(body, maxBulk)
    case Array(elements) =>
      |elements| <= MAX_ARRAY && forall i :: 0 <= i < |elements| ==> FitsBulk(elements[i], maxBulk)
  }

  /** The header `marker Print(n) CRLF` is found whole, and its number reads back. */
  lemma {:induction false} HeaderAt(data: Bytes, off: nat, n: nat, tail: Bytes)
    requires off < |data| && data[off + 1..] == Decimal.Print(n) + CRLF + tail
    ensures NextCrlf(data, off + 1) == Some(off + 1 + |Decimal.Print(n)|)
    ensures data[off + 1..off + 1 + |Decimal.Print(n)|] == Decimal.Print(n)
    ensures data[off + 3 + |Decimal.Print(n)|..] == tail
    ensures Decimal.SimpleAtoi(Decimal.Print(n)) == if n < Decimal.I64_LIMIT then Some(n) else None
  {
    hide Decimal.Print, Decimal.SimpleAtoi, NextCrlf;
    var digits := Decimal.Print(n);
    var at := off + 1 + |digits|;
    var rest := data[off + 1..];
    assert forall i :: off + 1 <= i < |data| ==> data[i] == rest[i - off - 1];
    assert CrlfAt(data, at);
    forall i | off + 1 <= i < at ensures !CrlfAt(data, i) {
      assert data[i] == digits[i - off - 1];
      Decimal.PrintIsDigits(n, i - off - 1);
    }
    NextCrlfUnique(data, off + 1, at);
    Decimal.ReadBack(n);
  }

  lemma {:induction false} BulkAfterPrint(data: Bytes, off: nat, maxBulk: nat, body: Bytes, tail: Bytes)
    requires off <= |data| && data[off..] == BulkWire(body) + tail
    requires FitsBulk(body, maxBulk)
    ensures var r := BulkAt(data, off, maxBulk);
            r.GotBulk? && r.end == off + |BulkWire(body)| && data[r.valueOff..r.valueOff + r.valueLen] == body
    ensures data[off + |BulkWire(body)|..] == tail
  {
    hide BulkAt, NextCrlf, Decimal.SimpleAtoi;
    var digits := Decimal.Print(|body|);
    var start := off + 3 + |digits|;
    assert data[off] == data[off..][0] == BULK;
    assert data[off + 1..] == data[off..][1..] == digits + CRLF + (body + CRLF + tail);
    HeaderAt(data, off, |body|, body + CRLF + tail);
    BodyAt(data, start, body, tail);
    BulkAtGot(data, off, maxBulk, start - 2, |body|);
  }

  lemma {:induction false} BodyAt(data: Bytes, start: nat, body: Bytes, tail: Bytes)
    requires start <= |data| && data[start..] == body + CRLF + tail
    ensures start + |body| + 2 <= |data| && data[start..start + |body|] == body && CrlfAt(data, start + |body|)
    ensures data[start + |body| + 2..] == tail
  {
    var rest := data[start..];
    assert rest[..|body|] == body && rest[|body|] == CR && rest[|body| + 1] == LF && rest[|body| + 2..] == tail;
    assert data[start..start + |body|] == rest[..|body|];
    assert data[start + |body| + 2..] == rest[|body| + 2..];
  }

  lemma {:induction false} BulkAtGot(data: Bytes, off: nat, maxBulk: nat, hdrEnd: nat, len: nat)
    requires off < hdrEnd <= |data| && data[off] == BULK && NextCrlf(data, off + 1) == Some(hdrEnd)
    requires Decimal.SimpleAtoi(data[off + 1..hdrEnd]) == Some(len) && len <= maxBulk
    requires CrlfAt(data, hdrEnd + 2 + len)
    ensures BulkAt(data, off, maxBulk) == GotBulk(hdrEnd + 2, len, hdrEnd + 2 + len + 2)
  {
  }

  lemma {:induction false} ElementsStep(data: Bytes, off: nat, n: nat, maxBulk: nat, x: Bytes, end: nat)
    requires off <= |data| && n > 0
    requires var r := BulkAt(data, off, maxBulk);
             r.GotBulk? && r.end == end && data[r.valueOff..r.valueOff + r.valueLen] == x
    ensures end <= |data|
    ensures ElementsAt(data, off, n, maxBulk) == Prepend([x], ElementsAt(data, end, n - 1, maxBulk))
  {
  }

  lemma {:induction false} ElementsAfterPrint(data: Bytes, off: nat, maxBulk: nat, parts: seq<Bytes>, tail: Bytes)
    requires off <= |data| && data[off..] == BulkWires(parts) + tail
    requires forall i :: 0 <= i < |parts| ==> FitsBulk(parts[i], maxBulk)
    ensures ElementsAt(data, off, |parts|, maxBulk) == GotElements(parts, off + |BulkWires(parts)|)
    decreases parts
  {
    if parts != [] {
      var first, rest := BulkWire(parts[0]), BulkWires(parts[1..]);
      assert first + rest + tail == first + (rest + tail);
      BulkAfterPrint(data, off, maxBulk, parts[0], rest + tail);
      var end := off + |first|;
      ElementsStep(data, off, |parts|, maxBulk, parts[0], end);
      ElementsAfterPrint(data, end, maxBulk, parts[1..], tail);
      assert [parts[0]] + parts[1..] == parts;
    }
  }

  lemma {:induction false} BulkFrameAfterPrint(body: Bytes, maxBulk: nat, tail: Bytes)
    requires FitsBulk(body, maxBulk)
    ensures Parse(BulkWire(body) + tail, maxBulk) == Complete(|BulkWire(body)|, Bulk(body))
  {
    var data := BulkWire(body) + tail;
    assert data[0..] == data && data[0] == BULK;
    BulkAfterPrint(data, 0, maxBulk, body, tail);
  }

  lemma {:induction false} ArrayAfterPrint(parts: seq<Bytes>, maxBulk: nat, tail: Bytes)
    requires Fits(Array(parts), maxBulk)
    ensures Parse(ArrayWire(parts) + tail, maxBulk) == Complete(|ArrayWire(parts)|, Array(parts))
  {
    hide BulkAt, ElementsAt, BulkWires, Decimal.SimpleAtoi, NextCrlf;
    var data, digits, bulks := ArrayWire(parts) + tail, Decimal.Print(|parts|), BulkWires(parts);
    assert data[0] == ARRAY;
    assert data[1..] == digits + CRLF + (bulks + tail);
    HeaderAt(data, 0, |parts|, bulks + tail);
    ElementsAfterPrint(data, 3 + |digits|, maxBulk, parts, tail);
    assert |ArrayWire(parts)| == 3 + |digits| + |bulks|;
  }

  /** Printing and parsing: a value that fits comes back, and exactly its own bytes are consumed. */
  lemma {:induction false} ParseAfterPrint(f: Frame, maxBulk: nat, tail: Bytes)
    requires Fits(f, maxBulk)
    ensures Parse(Wire(f) + tail, maxBulk) == Complete(|Wire(f)|, f)
  {
    match f {
      case Bulk(body) => BulkFrameAfterPrint(body, maxBulk, tail);
      case Array(elements) => ArrayAfterPrint(elements, maxBulk, tail);
    }
  }

  /** Every proper prefix of a printed value asks for more bytes: never an error, never a shorter value. */
  lemma {:induction false} PrefixIsIncomplete(f: Frame, maxBulk: nat, k: nat)
    requires Fits(f, maxBulk) && k < |Wire(f)|
    ensures Parse(Wire(f)[..k], maxBulk) == Incomplete
  {
    var w := Wire(f);
    ParseAfterPrint(f, maxBulk, []);
    assert w + [] == w && w[..k] + w[k..] == w;
    if !Parse(w[..k], maxBulk).Incomplete? {
      ParseExtend(w[..k], maxBulk, w[k..]);
      assert false;
    }
  }

  /** The limit is exact: a bulk string one byte too long is rejected, as soon as its header is there. */
  lemma {:induction false} OversizedBulkRejected(body: Bytes, maxBulk: nat, tail: Bytes)
    requires |body| > maxBulk && |body| < Decimal.I64_LIMIT
    ensures Parse(BulkWire(body) + tail, maxBulk) == Malformed(BulkTooLong)
  {
    var data := BulkWire(body) + tail;
    var digits := Decimal.Print(|body|);
    assert data[1..] == digits + CRLF + (body + CRLF + tail);
    HeaderAt(data, 0, |body|, body + CRLF + tail);
  }
}
