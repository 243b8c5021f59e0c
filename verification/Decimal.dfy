/** Decimal numbers in RESP2 headers: what `absl::StrAppend` prints and what `absl::SimpleAtoi` reads. */
module Decimal {
  import opened Octets

  const I64_LIMIT := 0x8000_0000_0000_0000
  const I32_LIMIT := 0x8000_0000

  predicate IsDigit(b: Byte) {
    48 <= b <= 57
  }

  /** `absl::ascii_isspace`. */
  predicate IsSpace(b: Byte) {
    b == 32 || 9 <= b <= 13
  }

  /** The canonical decimal text of `n`. */
  function Print(n: nat): (s: Bytes)
    ensures s != []
  {
    if n < 10 then [48 + n] else Print(n / 10) + [48 + n % 10]
  }

  function StripLeft(s: Bytes): Bytes {
    if s != [] && IsSpace(s[0]) then StripLeft(s[1..]) else s
  }

  function StripRight(s: Bytes): Bytes {
    if s != [] && IsSpace(s[|s| - 1]) then StripRight(s[..|s| - 1]) else s
  }

  /** The value of a digit string, or nothing when some byte is not a digit. */
  function Digits(s: Bytes): Option<nat> {
    if s == [] then Some(0)
    else
      var last := s[|s| - 1];
      var front := Digits(s[..|s| - 1]);
      if front.Some? && IsDigit(last) then Some(10 * front.value + (last - 48)) else None
  }

  /** The number that a text spells, of any size: surrounding blanks and one sign are accepted, then at least one digit
      and nothing else. */
  function Spelled(text: Bytes): Option<int> {
    var s := StripRight(StripLeft(text));
    if s == [] then None
    else
      var body := if s[0] == 45 || s[0] == 43 then s[1..] else s;
      var magnitude := Digits(body);
      if body == [] || magnitude.None? then None
      else Some(if s[0] == 45 then 0 - (magnitude.value as int) else magnitude.value)
  }

  /** `absl::SimpleAtoi` into a signed type whose least value is `-limit`. */
  function Atoi(text: Bytes, limit: int): (v: Option<int>)
    ensures v.Some? ==> -limit <= v.value < limit
  {
    var v := Spelled(text);
    if v.Some? && -limit <= v.value < limit then v else None
  }

  /** `absl::SimpleAtoi<int64_t>`. */
  function SimpleAtoi(text: Bytes): (v: Option<int>)
    ensures v.Some? ==> -I64_LIMIT <= v.value < I64_LIMIT
  {
    Atoi(text, I64_LIMIT)
  }

  lemma {:induction false} PrintIsDigits(n: nat, i: nat)
    requires i < |Print(n)|
    ensures IsDigit(Print(n)[i])
  {
    if n >= 10 && i < |Print(n / 10)| {
      PrintIsDigits(n / 10, i);
    }
  }

  lemma {:induction false} DigitsOfPrint(n: nat)
    ensures Digits(Print(n)) == Some(n)
  {
    if n < 10 {
      assert Digits([]) == Some(0);
      assert Print(n)[..0] == [];
    } else {
      DigitsOfPrint(n / 10);
      assert Print(n)[..|Print(n)| - 1] == Print(n / 10);
    }
  }

  lemma {:induction false} SpelledPrint(n: nat)
    ensures Spelled(Print(n)) == Some(n)
  {
    DigitsOfPrint(n);
    var s := Print(n);
    PrintIsDigits(n, 0);
    PrintIsDigits(n, |s| - 1);
    assert StripRight(StripLeft(s)) == s;
  }

  // ---------------- texts that are not canonical ----------------

  predicate Blank(s: Bytes) {
    forall i :: 0 <= i < |s| ==> IsSpace(s[i])
  }

  lemma {:induction false} StripLeftBlank(blanks: Bytes, s: Bytes)
    requires Blank(blanks) && s != [] && !IsSpace(s[0])
    ensures StripLeft(blanks + s) == s
  {
    if blanks == [] {
      assert blanks + s == s;
    } else {
      assert (blanks + s)[1..] == blanks[1..] + s;
      StripLeftBlank(blanks[1..], s);
    }
  }

  lemma {:induction false} StripRightBlank(s: Bytes, blanks: Bytes)
    requires Blank(blanks) && s != [] && !IsSpace(s[|s| - 1])
    ensures StripRight(s + blanks) == s
  {
    if blanks == [] {
      assert s + blanks == s;
    } else {
      var all := s + blanks;
      assert all[..|all| - 1] == s + blanks[..|blanks| - 1];
      StripRightBlank(s, blanks[..|blanks| - 1]);
    }
  }

  /** A text of zeros in front of a digit string does not change its value. */
  lemma {:induction false} LeadingZeros(zeros: Bytes, s: Bytes)
    requires forall i :: 0 <= i < |zeros| ==> zeros[i] == 48
    ensures Digits(zeros + s) == Digits(s)
    decreases |zeros| + |s|
  {
    var all := zeros + s;
    if s != [] {
      assert all[..|all| - 1] == zeros + s[..|s| - 1];
      LeadingZeros(zeros, s[..|s| - 1]);
    } else if zeros != [] {
      assert all[..|all| - 1] == zeros[..|zeros| - 1] + [];
      LeadingZeros(zeros[..|zeros| - 1], []);
    }
  }

  /** Blanks around it, a sign and leading zeros: still the same number. */
  lemma {:induction false} SpelledLoosely(left: Bytes, sign: Bytes, zeros: Bytes, n: nat, right: Bytes)
    requires Blank(left) && Blank(right) && (sign == [] || sign == [43] || sign == [45])
    requires forall i :: 0 <= i < |zeros| ==> zeros[i] == 48
    ensures Spelled(left + (sign + (zeros + Print(n)) + right)) == Some(if sign == [45] then 0 - (n as int) else n)
  {
    hide StripLeft, StripRight, Digits;
    var body := zeros + Print(n);
    var s := sign + body;
    PrintIsDigits(n, 0);
    PrintIsDigits(n, |Print(n)| - 1);
    assert s[|s| - 1] == Print(n)[|Print(n)| - 1];
    assert body[0] == if zeros == [] then Print(n)[0] else zeros[0];
    assert s[0] == if sign == [] then body[0] else sign[0];
    assert (s + right)[0] == s[0];
    StripLeftBlank(left, s + right);
    StripRightBlank(s, right);
    LeadingZeros(zeros, Print(n));
    DigitsOfPrint(n);
    assert sign != [] ==> s[1..] == body;
    assert sign == [] ==> s == body;
  }

  /** Reading back a printed length gives the length, up to the 64-bit limit and not beyond. */
  lemma {:induction false} ReadBack(n: nat)
    ensures SimpleAtoi(Print(n)) == if n < I64_LIMIT then Some(n) else None
  {
    SpelledPrint(n);
  }
}
