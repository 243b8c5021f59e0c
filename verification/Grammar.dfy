/** The language that the parser accepts, stated without a parser: which byte strings spell which values. */
module Grammar {
  import opened Octets
  import opened Resp2
  import Decimal

  /** A header text that ends at the first CRLF and is a number for `SimpleAtoi`: canonical or not. */
  predicate NumberText(text: Bytes, n: nat) {
    (forall i :: 0 <= i < |text| ==> !CrlfAt(text + [13, 10], i)) && Decimal.SimpleAtoi(text) == Some(n)
  }

  predicate BulkAs(piece: Bytes, text: Bytes, body: Bytes, maxBulk: nat) {
    NumberText(text, |body|) && |body| <= maxBulk && piece == [36] + text + [13, 10] + body + [13, 10]
  }

  ghost predicate SpellsBulk(piece: Bytes, body: Bytes, maxBulk: nat) {
    exists text :: BulkAs(piece, text, body, maxBulk)
  }

  ghost predicate SpellsBulks(piece: Bytes, parts: seq<Bytes>, maxBulk: nat)
    decreases parts
  {
    if parts == [] then piece == []
    else exists k :: 0 <= k <= |piece| && SpellsBulk(piece[..k], parts[0], maxBulk) && SpellsBulks(piece[k..], parts[1..], maxBulk)
  }

  predicate ArrayHeader(piece: Bytes, text: Bytes, n: nat) {
    NumberText(text, n) && [42] + text + [13, 10] <= piece
  }

  /** A bulk string, or an array of at most 1024 of them. */
  ghost predicate Spells(piece: Bytes, f: Frame, maxBulk: nat) {
    match f
    case Bulk(body) => SpellsBulk(piece, body, maxBulk)
    case Array(parts) =>
      |parts| <= 1024 && exists text :: ArrayHeader(piece, text, |parts|) && SpellsBulks(piece[3 + |text|..], parts, maxBulk)
  }

  // ---------------- headers ----------------

  lemma {:induction false} HeaderFound(data: Bytes, off: nat, text: Bytes, n: nat)
    requires off < |data| && NumberText(text, n) && text + [13, 10] <= data[off + 1..]
    ensures NextCrlf(data, off + 1) == Some(off + 1 + |text|) && data[off + 1..off + 1 + |text|] == text
  {
    hide Decimal.SimpleAtoi, NextCrlf;
    var line, at := text + [13, 10], off + 1 + |text|;
    var rest := data[off + 1..];
    assert rest[..|line|] == line;
    assert forall i :: off + 1 <= i < |data| ==> data[i] == rest[i - off - 1];
    assert forall i :: 0 <= i < |line| ==> rest[i] == line[i];
    assert data[at] == line[|text|] && data[at + 1] == line[|text| + 1];
    forall j | off + 1 <= j < at ensures !CrlfAt(data, j) {
      var i := j - off - 1;
      assert data[j] == line[i] && data[j + 1] == line[i + 1];
      assert !CrlfAt(line, i);
    }
    NextCrlfUnique(data, off + 1, at);
    assert data[off + 1..at] == text;
  }

  lemma {:induction false} HeaderSpelled(data: Bytes, off: nat, at: nat, n: nat)
    requires off < |data| && NextCrlf(data, off + 1) == Some(at) && Decimal.SimpleAtoi(data[off + 1..at]) == Some(n)
    ensures NumberText(data[off + 1..at], n) && data[off + 1..at] + [13, 10] == data[off + 1..at + 2]
  {
    hide Decimal.SimpleAtoi, NextCrlf;
    var text := data[off + 1..at];
    var line := text + [13, 10];
    assert line == data[off + 1..at + 2];
    forall i | 0 <= i < |text| ensures !CrlfAt(line, i) {
      if CrlfAt(line, i) {
        assert line[i] == data[off + 1 + i] && line[i + 1] == data[off + 2 + i];
        NextCrlfIsFirst(data, off + 1, off + 1 + i);
        assert false;
      }
    }
  }

  // ---------------- one bulk string ----------------

  ghost predicate GotAt(data: Bytes, off: nat, maxBulk: nat, body: Bytes, end: nat) {
    var r := BulkAt(data, off, maxBulk); r.GotBulk? && r.end == end && data[r.valueOff..r.valueOff + r.valueLen] == body
  }

  lemma {:induction false} BulkSound(data: Bytes, off: nat, maxBulk: nat, body: Bytes, end: nat)
    requires GotAt(data, off, maxBulk, body, end)
    ensures off <= end <= |data| && SpellsBulk(data[off..end], body, maxBulk)
  {
    hide Decimal.SimpleAtoi, NextCrlf;
    var at := NextCrlf(data, off + 1).value;
    var text := data[off + 1..at];
    HeaderSpelled(data, off, at, |body|);
    assert data[off..end] == [36] + data[off + 1..at + 2] + data[at + 2..end - 2] + data[end - 2..end];
    assert data[end - 2..end] == [13, 10];
    assert [36] + (text + [13, 10]) == [36] + text + [13, 10];
    hide NumberText;
    assert BulkAs(data[off..end], text, body, maxBulk);
  }

  lemma {:induction false} BulkComplete(data: Bytes, off: nat, maxBulk: nat, body: Bytes, end: nat)
    requires off <= end <= |data| && SpellsBulk(data[off..end], body, maxBulk)
    ensures GotAt(data, off, maxBulk, body, end)
  {
    hide Decimal.SimpleAtoi, NextCrlf, BulkAt;
    var piece := data[off..end];
    var text :| BulkAs(piece, text, body, maxBulk);
    var at := off + 1 + |text|;
    PieceParts(data, off, end, text, body);
    HeaderFound(data, off, text, |body|);
    BulkAtGot(data, off, maxBulk, at, |body|);
  }

  lemma {:induction false} PieceParts(data: Bytes, off: nat, end: nat, text: Bytes, body: Bytes)
    requires off <= end <= |data| && data[off..end] == [36] + text + [13, 10] + body + [13, 10]
    ensures var at := off + 1 + |text|;
            off < |data| && data[off] == 36 && end == at + 2 + |body| + 2 && text + [13, 10] <= data[off + 1..] &&
            data[at + 2..at + 2 + |body|] == body && CrlfAt(data, at + 2 + |body|)
  {
    var piece, at, k := data[off..end], off + 1 + |text|, |text| + 3;
    assert |piece| == end - off == k + |body| + 2;
    assert piece[0] == 36 && piece[1..k] == text + [13, 10] && piece[k..k + |body|] == body && piece[k + |body|..] == [13, 10];
    SliceSlice(data, off, end, 1, k);
    SliceSlice(data, off, end, k, k + |body|);
    SliceSlice(data, off, end, k + |body|, k + |body| + 2);
    assert data[off + 1..][..|text| + 2] == data[off + 1..off + k];
    assert data[end - 2..end] == [13, 10];
  }

  lemma {:induction false} SliceSlice(data: Bytes, off: nat, end: nat, i: nat, j: nat)
    requires off <= end <= |data| && i <= j <= end - off
    ensures data[off..end][i..j] == data[off + i..off + j]
  {
    var piece, m, n := data[off..end], off + i, off + j;
    forall x | 0 <= x < j - i ensures piece[i..j][x] == data[m..n][x] {
      assert piece[i..j][x] == piece[i + x] == data[off + (i + x)];
    }
    assert piece[i..j] == data[m..n];
  }

  // ---------------- several ----------------

  lemma {:induction false} BulksSound(data: Bytes, off: nat, parts: seq<Bytes>, maxBulk: nat, end: nat)
    requires off <= |data| && ElementsAt(data, off, |parts|, maxBulk) == GotElements(parts, end)
    ensures off <= end <= |data| && SpellsBulks(data[off..end], parts, maxBulk)
    decreases parts
  {
    hide BulkAt, SpellsBulk;
    if parts == [] {
      assert data[off..end] == [];
    } else {
      var r := BulkAt(data, off, maxBulk);
      assert ElementsAt(data, r.end, |parts| - 1, maxBulk).elements == parts[1..];
      BulksSound(data, r.end, parts[1..], maxBulk, end);
      BulkSound(data, off, maxBulk, parts[0], r.end);
      var k, piece := r.end - off, data[off..end];
      assert piece[..k] == data[off..r.end] && piece[k..] == data[r.end..end];
    }
  }

  lemma {:induction false} BulksComplete(data: Bytes, off: nat, parts: seq<Bytes>, maxBulk: nat, end: nat)
    requires off <= end <= |data| && SpellsBulks(data[off..end], parts, maxBulk)
    ensures ElementsAt(data, off, |parts|, maxBulk) == GotElements(parts, end)
    decreases parts
  {
    hide BulkAt, SpellsBulk;
    if parts != [] {
      var piece := data[off..end];
      var k :| 0 <= k <= |piece| && SpellsBulk(piece[..k], parts[0], maxBulk) && SpellsBulks(piece[k..], parts[1..], maxBulk);
      assert piece[..k] == data[off..off + k] && piece[k..] == data[off + k..end];
      BulkComplete(data, off, maxBulk, parts[0], off + k);
      BulksComplete(data, off + k, parts[1..], maxBulk, end);
      ElementsStep(data, off, |parts|, maxBulk, parts[0], off + k);
      assert parts == [parts[0]] + parts[1..];
    }
  }

  // ---------------- a value ----------------

  lemma {:induction false} ArraySound(data: Bytes, maxBulk: nat, n: nat, parts: seq<Bytes>)
    requires Parse(data, maxBulk) == Complete(n, Array(parts))
    ensures n <= |data| && Spells(data[..n], Array(parts), maxBulk)
  {
    hide Decimal.SimpleAtoi, NextCrlf, SpellsBulks, ElementsAt;
    var at := NextCrlf(data, 1).value;
    var text, piece := data[1..at], data[..n];
    HeaderSpelled(data, 0, at, |parts|);
    BulksSound(data, at + 2, parts, maxBulk, n);
    hide NumberText;
    assert [42] + text + [13, 10] == [42] + (text + [13, 10]) == data[..at + 2] == piece[..at + 2];
    assert piece[3 + |text|..] == data[at + 2..n];
    assert ArrayHeader(piece, text, |parts|);
  }

  lemma {:induction false} ArrayComplete(data: Bytes, maxBulk: nat, n: nat, parts: seq<Bytes>)
    requires n <= |data| && Spells(data[..n], Array(parts), maxBulk)
    ensures Parse(data, maxBulk) == Complete(n, Array(parts))
  {
    hide Decimal.SimpleAtoi, NextCrlf, SpellsBulks, ElementsAt, NumberText;
    var piece := data[..n];
    var text :| ArrayHeader(piece, text, |parts|) && SpellsBulks(piece[3 + |text|..], parts, maxBulk);
    LineParts(data, n, text);
    HeaderFound(data, 0, text, |parts|);
    BulksComplete(data, 3 + |text|, parts, maxBulk, n);
    NumberOf(text, |parts|);
  }

  lemma {:induction false} NumberOf(text: Bytes, n: nat)
    requires NumberText(text, n)
    ensures Decimal.SimpleAtoi(text) == Some(n)
  {
  }

  lemma {:induction false} LineParts(data: Bytes, n: nat, text: Bytes)
    requires n <= |data| && [42] + text + [13, 10] <= data[..n]
    ensures 3 + |text| <= n && data[0] == 42 && text + [13, 10] <= data[1..] && data[..n][3 + |text|..] == data[3 + |text|..n]
  {
    var line, m := [42] + text + [13, 10], 3 + |text|;
    assert data[..n][..m] == line;
    assert data[..m] == line;
    assert data[0] == line[0] && line[1..] == text + [13, 10];
    assert data[1..][..|text| + 2] == data[..m][1..];
  }

  /** The parser finds a value at the front of its input exactly when the input starts with bytes that spell it. */
  lemma {:induction false} ParseExactly(data: Bytes, maxBulk: nat, n: nat, f: Frame)
    ensures Parse(data, maxBulk) == Complete(n, f) <==> n <= |data| && Spells(data[..n], f, maxBulk)
  {
    if Parse(data, maxBulk) == Complete(n, f) {
      match f {
        case Bulk(body) =>
          hide Decimal.SimpleAtoi, NextCrlf, SpellsBulk, ElementsAt, BulkAt;
          BulkSound(data, 0, maxBulk, body, n);
          assert data[0..n] == data[..n];
        case Array(parts) => ArraySound(data, maxBulk, n, parts);
      }
    }
    if n <= |data| && Spells(data[..n], f, maxBulk) {
      match f {
        case Bulk(body) =>
          hide Decimal.SimpleAtoi, NextCrlf, SpellsBulk, ElementsAt, BulkAt;
          assert data[0..n] == data[..n];
          BulkComplete(data, 0, maxBulk, body, n);
          BulkStarts(data, n, body, maxBulk);
        case Array(parts) => ArrayComplete(data, maxBulk, n, parts);
      }
    }
  }

  lemma {:induction false} BulkStarts(data: Bytes, n: nat, body: Bytes, maxBulk: nat)
    requires n <= |data| && SpellsBulk(data[..n], body, maxBulk)
    ensures n > 0 && data[0] == 36
  {
    var text :| BulkAs(data[..n], text, body, maxBulk);
    assert data[..n][0] == 36;
  }
}
