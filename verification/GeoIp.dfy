/** The GeoIP index: sorted, merged intervals per category, searched by predecessor (src/route/geo_matcher.cpp). */
module GeoIp {
  import opened Octets
  import opened Bits
  import opened BigEndian
  import opened Cidrs

  datatype Entry = Entry(code: Bytes, cidrs: seq<Cidr>)

  datatype Category = Category(v4: seq<Range>, v6: seq<Range>)

  type Index = map<Bytes, Category>

  function LowerByte(b: Byte): Byte {
    if 65 <= b <= 90 then b + 32 else b
  }

  function Lower(s: Bytes): Bytes {
    seq(|s|, i requires 0 <= i < |s| => LowerByte(s[i]))
  }

  function Top(v6: bool): nat {
    Ones(if v6 then 128 else 32)
  }

  function Of(c: Category, v6: bool): seq<Range> {
    if v6 then c.v6 else c.v4
  }

  // ---------------- interval lists ----------------

  /** Some interval of the list holds `x`. */
  ghost predicate Covers(rs: seq<Range>, x: nat) {
    exists i :: 0 <= i < |rs| && InRange(rs[i], x)
  }

  ghost predicate SameSet(a: seq<Range>, b: seq<Range>) {
    forall x: nat :: Covers(a, x) <==> Covers(b, x)
  }

  predicate Proper(rs: seq<Range>, top: nat) {
    forall i :: 0 <= i < |rs| ==> rs[i].start <= rs[i].end <= top
  }

  predicate SortedByStart(rs: seq<Range>) {
    forall i, j :: 0 <= i < j < |rs| ==> rs[i].start <= rs[j].start
  }

  /** Sorted, disjoint and never adjacent. */
  predicate Canonical(rs: seq<Range>, top: nat) {
    Proper(rs, top) && forall i, j :: 0 <= i < j < |rs| ==> rs[i].end + 1 < rs[j].start
  }

  lemma {:induction false} CoversAppend(a: seq<Range>, b: seq<Range>, x: nat)
    ensures Covers(a + b, x) <==> Covers(a, x) || Covers(b, x)
  {
    if Covers(a, x) {
      var i :| 0 <= i < |a| && InRange(a[i], x);
      assert InRange((a + b)[i], x);
    }
    if Covers(b, x) {
      var i :| 0 <= i < |b| && InRange(b[i], x);
      assert InRange((a + b)[|a| + i], x);
    }
  }

  lemma {:induction false} CoversOne(r: Range, x: nat)
    ensures Covers([r], x) <==> InRange(r, x)
  {
    assert InRange(r, x) ==> InRange([r][0], x);
  }

  /** A canonical list is determined by the set it covers. */
  lemma {:induction false} CanonicalUnique(a: seq<Range>, b: seq<Range>, top: nat)
    requires Canonical(a, top) && Canonical(b, top) && SameSet(a, b)
    ensures a == b
    decreases |a|
  {
    if a == [] {
      if b != [] {
        assert InRange(b[0], b[0].start) && Covers(b, b[0].start);
        assert false;
      }
    } else {
      assert InRange(a[0], a[0].start) && Covers(a, a[0].start);
      assert b != [];
      HeadsAgree(a, b, top);
      forall x: nat ensures Covers(a[1..], x) <==> Covers(b[1..], x) {
        CoversTail(a, top, x);
        CoversTail(b, top, x);
        assert Covers(a, x) <==> Covers(b, x);
      }
      CanonicalUnique(a[1..], b[1..], top);
      assert a == [a[0]] + a[1..] && b == [b[0]] + b[1..];
    }
  }

  lemma {:induction false} CoversTail(a: seq<Range>, top: nat, x: nat)
    requires Canonical(a, top) && a != []
    ensures Covers(a[1..], x) <==> Covers(a, x) && !InRange(a[0], x)
  {
    assert a == [a[0]] + a[1..];
    CoversAppend([a[0]], a[1..], x);
    CoversOne(a[0], x);
    if Covers(a[1..], x) {
      var i :| 0 <= i < |a[1..]| && InRange(a[1..][i], x);
      assert a[1..][i] == a[i + 1];
    }
  }

  lemma {:induction false} HeadsAgree(a: seq<Range>, b: seq<Range>, top: nat)
    requires Canonical(a, top) && Canonical(b, top) && SameSet(a, b) && a != [] && b != []
    ensures a[0] == b[0]
  {
    StartBelow(a, b, top);
    StartBelow(b, a, top);
    EndBelow(a, b, top);
    EndBelow(b, a, top);
  }

  lemma {:induction false} StartBelow(a: seq<Range>, b: seq<Range>, top: nat)
    requires Canonical(a, top) && Canonical(b, top) && SameSet(a, b) && a != [] && b != []
    ensures b[0].start <= a[0].start
  {
    assert InRange(a[0], a[0].start) && Covers(a, a[0].start);
    var i :| 0 <= i < |b| && InRange(b[i], a[0].start);
    assert i > 0 ==> b[0].end + 1 < b[i].start;
  }

  lemma {:induction false} EndBelow(a: seq<Range>, b: seq<Range>, top: nat)
    requires Canonical(a, top) && Canonical(b, top) && SameSet(a, b) && a != [] && b != []
    requires a[0].start == b[0].start
    ensures b[0].end <= a[0].end
  {
    var x: nat := a[0].end + 1;
    assert InRange(b[0], x) ==> Covers(b, x);
    assert !Covers(a, x);
    assert Covers(a, x) <==> Covers(b, x);
  }

  // ---------------- sorting and merging ----------------

  /** `std::sort` by `start`: the order among equal starts is not specified. */
  method SortRanges(rs: seq<Range>) returns (s: seq<Range>)
    ensures SortedByStart(s) && multiset(s) == multiset(rs)
  {
    s := [];
    for i := 0 to |rs|
      invariant SortedByStart(s) && multiset(s) == multiset(rs[..i])
    {
      assert rs[..i + 1] == rs[..i] + [rs[i]];
      s := InsertRange(s, rs[i]);
    }
    assert rs[..|rs|] == rs;
  }

  method InsertRange(s: seq<Range>, r: Range) returns (t: seq<Range>)
    requires SortedByStart(s)
    ensures SortedByStart(t) && multiset(t) == multiset(s) + multiset{r}
  {
    var k := |s|;
    while k > 0 && r.start < s[k - 1].start
      invariant 0 <= k <= |s|
      invariant forall j :: k <= j < |s| ==> r.start < s[j].start
    {
      k := k - 1;
    }
    t := s[..k] + [r] + s[k..];
    InsertKeepsAll(s, k, r);
    InsertKeepsOrder(s, k, r);
  }

  lemma {:induction false} InsertKeepsAll(s: seq<Range>, k: nat, r: Range)
    requires k <= |s|
    ensures multiset(s[..k] + [r] + s[k..]) == multiset(s) + multiset{r}
  {
    assert s == s[..k] + s[k..];
  }

  lemma {:induction false} InsertKeepsOrder(s: seq<Range>, k: nat, r: Range)
    requires SortedByStart(s) && k <= |s|
    requires k > 0 ==> s[k - 1].start <= r.start
    requires forall j :: k <= j < |s| ==> r.start < s[j].start
    ensures SortedByStart(s[..k] + [r] + s[k..])
  {
    var t := s[..k] + [r] + s[k..];
    forall i, j | 0 <= i < j < |t| ensures t[i].start <= t[j].start {
      assert i < k ==> t[i] == s[i] && s[i].start <= s[k - 1].start;
      assert j > k ==> t[j] == s[j - 1];
      assert i > k ==> t[i] == s[i - 1];
    }
  }

  lemma {:induction false} PermutationKeepsSet(a: seq<Range>, b: seq<Range>, top: nat)
    requires multiset(a) == multiset(b)
    ensures SameSet(a, b)
    ensures Proper(a, top) ==> Proper(b, top)
  {
    forall r ensures r in a <==> r in b {
      assert r in a <==> r in multiset(a);
      assert r in b <==> r in multiset(b);
    }
    forall x: nat ensures Covers(a, x) <==> Covers(b, x) {
      assert Covers(a, x) <==> exists r :: r in a && InRange(r, x) by { CoversMember(a, x); }
      assert Covers(b, x) <==> exists r :: r in b && InRange(r, x) by { CoversMember(b, x); }
    }
    if Proper(a, top) {
      forall i | 0 <= i < |b| ensures b[i].start <= b[i].end <= top {
        assert b[i] in a;
      }
    }
  }

  lemma {:induction false} CoversMember(a: seq<Range>, x: nat)
    ensures Covers(a, x) <==> exists r :: r in a && InRange(r, x)
  {
    if r :| r in a && InRange(r, x) {
      var i :| 0 <= i < |a| && a[i] == r;
      assert InRange(a[i], x);
    }
  }

  /** The merge loop, with the guard that keeps `last.end + 1` from wrapping at the all-ones address. */
  method MergeRanges(sorted: seq<Range>, top: nat) returns (merged: seq<Range>)
    requires sorted != [] && SortedByStart(sorted) && Proper(sorted, top)
    ensures Canonical(merged, top) && SameSet(merged, sorted)
  {
    merged := [sorted[0]];
    assert sorted[..1] == [sorted[0]];
    for i := 1 to |sorted|
      invariant merged != [] && Canonical(merged, top)
      invariant merged[|merged| - 1].start <= sorted[i - 1].start
      invariant SameSet(merged, sorted[..i])
    {
      var last, next := merged[|merged| - 1], sorted[i];
      ghost var front := merged[..|merged| - 1];
      assert merged == front + [last];
      assert sorted[..i + 1] == sorted[..i] + [next];
      if next.start <= last.end + (if last.end != top then 1 else 0) {
        var wider := Range(last.start, if last.end >= next.end then last.end else next.end);
        WidenKeepsSet(front, last, next, wider, merged, sorted[..i]);
        merged := merged[..|merged| - 1] + [wider];
      } else {
        forall x: nat ensures Covers(merged + [next], x) <==> Covers(sorted[..i] + [next], x) {
          CoversAppend(merged, [next], x);
          CoversAppend(sorted[..i], [next], x);
        }
        merged := merged + [next];
      }
    }
    assert sorted[..|sorted|] == sorted;
  }

  lemma {:induction false} WidenKeepsSet(front: seq<Range>, last: Range, next: Range, wider: Range,
                                         merged: seq<Range>, seen: seq<Range>)
    requires merged == front + [last] && SameSet(merged, seen)
    requires last.start <= next.start <= last.end + 1 && last.start <= last.end
    requires wider == Range(last.start, if last.end >= next.end then last.end else next.end)
    ensures SameSet(front + [wider], seen + [next])
  {
    forall x: nat ensures Covers(front + [wider], x) <==> Covers(seen + [next], x) {
      CoversAppend(front, [wider], x);
      CoversAppend(front, [last], x);
      CoversAppend(seen, [next], x);
      CoversOne(wider, x);
      CoversOne(last, x);
      CoversOne(next, x);
      assert Covers(merged, x) <==> Covers(seen, x);
    }
  }

  /** Sort and merge, the empty list left alone: canonical, with the set unchanged. Since canonical lists are unique,
      the result does not depend on the order of the input nor on how the sort breaks ties. */
  method Canonicalize(rs: seq<Range>, top: nat) returns (merged: seq<Range>)
    requires Proper(rs, top)
    ensures Canonical(merged, top) && SameSet(merged, rs)
  {
    if |rs| == 0 {
      return rs;
    }
    var sorted := SortRanges(rs);
    PermutationKeepsSet(rs, sorted, top);
    assert sorted != [] by {
      assert rs[0] in multiset(rs);
    }
    merged := MergeRanges(sorted, top);
  }

  // ---------------- lookup ----------------

  /** `std::upper_bound`: the first interval that starts above `val`. */
  method UpperBound(rs: seq<Range>, val: nat) returns (k: nat)
    requires SortedByStart(rs)
    ensures k <= |rs|
    ensures forall i :: 0 <= i < k ==> rs[i].start <= val
    ensures forall i :: k <= i < |rs| ==> val < rs[i].start
  {
    var lo, hi := 0, |rs|;
    while lo < hi
      invariant 0 <= lo <= hi <= |rs|
      invariant forall i :: 0 <= i < lo ==> rs[i].start <= val
      invariant forall i :: hi <= i < |rs| ==> val < rs[i].start
    {
      var mid := (lo + hi) / 2;
      if val < rs[mid].start {
        hi := mid;
      } else {
        lo := mid + 1;
      }
    }
    return lo;
  }

  /** Looking only at the predecessor is enough in a canonical list. */
  method Lookup(rs: seq<Range>, val: nat, top: nat) returns (found: bool)
    requires Canonical(rs, top)
    ensures found <==> Covers(rs, val)
  {
    var k := UpperBound(rs, val);
    if k == 0 {
      return false;
    }
    found := InRange(rs[k - 1], val);
    if Covers(rs, val) {
      ghost var i :| 0 <= i < |rs| && InRange(rs[i], val);
      assert i < k - 1 ==> rs[i].end + 1 < rs[k - 1].start;
    }
  }

  // ---------------- the matcher ----------------

  /** What the index answers for an address of either family. */
  ghost predicate Holds(index: Index, code: Bytes, addr: Bytes) {
    code in index && Covers(Of(index[code], |addr| == 16), FromBE(addr))
  }

  predicate WellFormed(index: Index) {
    forall code: Bytes :: code in index ==> Canonical(index[code].v4, Top(false)) && Canonical(index[code].v6, Top(true))
  }

  /** What the data file says: some entry whose lower-cased code is `code` lists a block that holds the address. */
  ghost predicate Listed(list: seq<Entry>, code: Bytes, addr: Bytes)
    requires LegalList(list)
  {
    exists i :: 0 <= i < |list| && Lower(list[i].code) == code && Lists(list[i].cidrs, addr)
  }

  ghost predicate Lists(cidrs: seq<Cidr>, addr: Bytes)
    requires LegalCidrs(cidrs)
  {
    exists j :: 0 <= j < |cidrs| && Legal(cidrs[j]) && Contains(cidrs[j], addr)
  }

  /** C leaves a shift by a negative amount undefined, so prefixes of 4- and 16-byte networks must be in range.
      Networks of any other length are skipped, whatever their prefix. */
  predicate LegalCidrs(cidrs: seq<Cidr>) {
    forall j :: 0 <= j < |cidrs| ==> (|cidrs[j].ip| == 4 || |cidrs[j].ip| == 16 ==> Legal(cidrs[j]))
  }

  predicate LegalList(list: seq<Entry>) {
    forall i :: 0 <= i < |list| ==> LegalCidrs(list[i].cidrs)
  }

  /** The intervals of the blocks with `n`-byte networks, in file order. */
  function RangesOf(cidrs: seq<Cidr>, n: nat): seq<Range>
    requires LegalCidrs(cidrs) && (n == 4 || n == 16)
  {
    if cidrs == [] then []
    else
      var front := RangesOf(cidrs[..|cidrs| - 1], n);
      var last := cidrs[|cidrs| - 1];
      if |last.ip| == n then front + [RangeOf(last)] else front
  }

  /** A block list and its intervals cover the same addresses. */
  lemma {:induction false} RangesCover(cidrs: seq<Cidr>, addr: Bytes)
    requires LegalCidrs(cidrs) && (|addr| == 4 || |addr| == 16)
    ensures Covers(RangesOf(cidrs, |addr|), FromBE(addr)) <==> Lists(cidrs, addr)
    ensures Proper(RangesOf(cidrs, |addr|), Top(|addr| == 16))
    decreases |cidrs|
  {
    if cidrs != [] {
      var front, last := cidrs[..|cidrs| - 1], cidrs[|cidrs| - 1];
      RangesCover(front, addr);
      assert cidrs == front + [last];
      assert Lists(cidrs, addr) <==> Lists(front, addr) || (Legal(last) && Contains(last, addr)) by {
        if Lists(front, addr) {
          var j :| 0 <= j < |front| && Legal(front[j]) && Contains(front[j], addr);
          assert Legal(cidrs[j]) && Contains(cidrs[j], addr);
        }
      }
      if |last.ip| == |addr| {
        ThreeFormsAgree(last, addr);
        CoversAppend(RangesOf(front, |addr|), [RangeOf(last)], FromBE(addr));
        CoversOne(RangeOf(last), FromBE(addr));
      }
    }
  }

  lemma {:induction false} RangesProper(cidrs: seq<Cidr>, n: nat)
    requires LegalCidrs(cidrs) && (n == 4 || n == 16)
    ensures Proper(RangesOf(cidrs, n), Top(n == 16))
  {
    RangesCover(cidrs, seq(n, _ => 0));
  }

  /** Two block lists that denote the same addresses give the identical vector, whatever their order. */
  lemma {:induction false} SameAddressesSameVector(a: seq<Cidr>, b: seq<Cidr>, n: nat, va: seq<Range>, vb: seq<Range>)
    requires LegalCidrs(a) && LegalCidrs(b) && (n == 4 || n == 16)
    requires forall addr: Bytes :: |addr| == n ==> (Lists(a, addr) <==> Lists(b, addr))
    requires Canonical(va, Top(n == 16)) && SameSet(va, RangesOf(a, n))
    requires Canonical(vb, Top(n == 16)) && SameSet(vb, RangesOf(b, n))
    ensures va == vb
  {
    forall x: nat ensures Covers(va, x) <==> Covers(vb, x) {
      if x <= Top(n == 16) {
        var addr := ToBE(x, n);
        FromToBE(x, n);
        RangesCover(a, addr);
        RangesCover(b, addr);
        assert Covers(va, x) <==> Covers(RangesOf(a, n), x);
        assert Covers(vb, x) <==> Covers(RangesOf(b, n), x);
      }
    }
    CanonicalUnique(va, vb, Top(n == 16));
  }

  /** The raw intervals gathered for a code before sorting. */
  function Gathered(index: Index, list: seq<Entry>, code: Bytes, v6: bool): seq<Range>
    requires LegalList(list)
  {
    if list == [] then (if code in index then Of(index[code], v6) else [])
    else
      var front := Gathered(index, list[..|list| - 1], code, v6);
      var last := list[|list| - 1];
      if Lower(last.code) == code then front + RangesOf(last.cidrs, if v6 then 16 else 4) else front
  }

  lemma {:induction false} GatheredCovers(index: Index, list: seq<Entry>, code: Bytes, addr: Bytes)
    requires LegalList(list) && (|addr| == 4 || |addr| == 16)
    ensures Covers(Gathered(index, list, code, |addr| == 16), FromBE(addr)) <==>
            Holds(index, code, addr) || Listed(list, code, addr)
    decreases |list|
  {
    if list != [] {
      var front, last := list[..|list| - 1], list[|list| - 1];
      GatheredCovers(index, front, code, addr);
      assert list == front + [last];
      assert Listed(list, code, addr) <==>
             Listed(front, code, addr) || (Lower(last.code) == code && Lists(last.cidrs, addr)) by {
        if Listed(front, code, addr) {
          var i :| 0 <= i < |front| && Lower(front[i].code) == code && Lists(front[i].cidrs, addr);
          assert Lower(list[i].code) == code && Lists(list[i].cidrs, addr);
        }
      }
      if Lower(last.code) == code {
        RangesCover(last.cidrs, addr);
        CoversAppend(Gathered(index, front, code, |addr| == 16), RangesOf(last.cidrs, |addr|), FromBE(addr));
      }
    }
  }

  /** A category with the intervals of one more entry behind its own. */
  function Added(index: Index, e: Entry): Index
    requires LegalCidrs(e.cidrs)
  {
    var code := Lower(e.code);
    var was := if code in index then index[code] else Category([], []);
    index[code := Category(was.v4 + RangesOf(e.cidrs, 4), was.v6 + RangesOf(e.cidrs, 16))]
  }

  function Codes(list: seq<Entry>): set<Bytes> {
    set e | e in list :: Lower(e.code)
  }

  /** `raw` is `before` with everything in `list` gathered into it. */
  ghost predicate IsRaw(before: Index, list: seq<Entry>, raw: Index)
    requires LegalList(list)
  {
    raw.Keys == before.Keys + Codes(list) &&
    forall code: Bytes, v6: bool :: RawAt(before, list, raw, code, v6)
  }

  predicate RawAt(before: Index, list: seq<Entry>, raw: Index, code: Bytes, v6: bool)
    requires LegalList(list)
  {
    Gathered(before, list, code, v6) == if code in raw then Of(raw[code], v6) else []
  }

  lemma {:induction false} RawStep(before: Index, list: seq<Entry>, i: nat, raw: Index)
    requires LegalList(list) && i < |list| && IsRaw(before, list[..i], raw)
    ensures IsRaw(before, list[..i + 1], Added(raw, list[i]))
  {
    var e, next, seen := list[i], Added(raw, list[i]), list[..i + 1];
    assert list[..i + 1][..i] == list[..i];
    forall code: Bytes, v6: bool
      ensures RawAt(before, seen, next, code, v6)
    {
      assert RawAt(before, list[..i], raw, code, v6);
      assert code == Lower(e.code) ==>
          Of(next[code], v6) == (if code in raw then Of(raw[code], v6) else []) + RangesOf(e.cidrs, if v6 then 16 else 4);
      assert code != Lower(e.code) ==> (code in next <==> code in raw);
    }
    assert list[..i + 1] == list[..i] + [e];
    assert Codes(list[..i + 1]) == Codes(list[..i]) + {Lower(e.code)};
    assert next.Keys == raw.Keys + {Lower(e.code)} == before.Keys + Codes(list[..i + 1]);
  }

  class GeoIpMatcher {
    var categories: Index

    ghost predicate Valid()
      reads this
    {
      WellFormed(categories)
    }

    constructor ()
      ensures Valid() && categories == map[]
    {
      categories := map[];
    }

    /** Adds the intervals of one file entry to its category, which is created if need be. */
    method AddEntry(e: Entry)
      requires LegalCidrs(e.cidrs)
      modifies this
      ensures categories == Added(old(categories), e)
    {
      var code := Lower(e.code);
      var cat := if code in categories then categories[code] else Category([], []);
      ghost var was, before := cat, categories;
      for j := 0 to |e.cidrs|
        invariant categories == before
        invariant LegalCidrs(e.cidrs[..j])
        invariant cat == Category(was.v4 + RangesOf(e.cidrs[..j], 4), was.v6 + RangesOf(e.cidrs[..j], 16))
      {
        var c := e.cidrs[j];
        assert e.cidrs[..j + 1][..j] == e.cidrs[..j];
        if |c.ip| == 4 {
          cat := cat.(v4 := cat.v4 + [RangeOf(c)]);
        } else if |c.ip| == 16 {
          cat := cat.(v6 := cat.v6 + [RangeOf(c)]);
        }
      }
      assert e.cidrs[..|e.cidrs|] == e.cidrs;
      categories := categories[code := cat];
    }

    /** The first half of `load`: every entry's intervals, unsorted. */
    method Gather(list: seq<Entry>)
      requires LegalList(list)
      modifies this
      ensures IsRaw(old(categories), list, categories)
    {
      hide Gathered, Added, IsRaw;
      ghost var before := categories;
      RawStart(before);
      assert list[..0] == [];
      for i := 0 to |list|
        invariant LegalList(list[..i]) && IsRaw(before, list[..i], categories)
      {
        RawStep(before, list, i, categories);
        AddEntry(list[i]);
      }
      assert list[..|list|] == list;
    }

    /** The second half: every category is sorted and merged. */
    method CanonicalizeAll()
      requires forall code: Bytes :: code in categories ==>
                 Proper(categories[code].v4, Top(false)) && Proper(categories[code].v6, Top(true))
      modifies this
      ensures Valid() && SameAnswers(old(categories), categories)
    {
      hide Canonical, SameSet, Top, Proper;
      ghost var raw := categories;
      var todo := categories.Keys;
      while todo != {}
        invariant todo <= categories.Keys == raw.Keys
        invariant forall code: Bytes :: code in todo ==> categories[code] == raw[code]
        invariant forall code: Bytes :: code in raw && code !in todo ==>
                    Canonical(categories[code].v4, Top(false)) && Canonical(categories[code].v6, Top(true)) &&
                    SameSet(categories[code].v4, raw[code].v4) && SameSet(categories[code].v6, raw[code].v6)
        decreases |todo|
      {
        var code :| code in todo;
        var v4 := Canonicalize(categories[code].v4, Top(false));
        var v6 := Canonicalize(categories[code].v6, Top(true));
        categories := categories[code := Category(v4, v6)];
        todo := todo - {code};
      }
    }

    /** `load`, after the file has been parsed. */
    method Load(list: seq<Entry>)
      requires Valid() && LegalList(list)
      modifies this
      ensures Valid()
      ensures categories.Keys == old(categories).Keys + Codes(list)
      ensures forall code: Bytes, addr: Bytes :: |addr| == 4 || |addr| == 16 ==>
                (Holds(categories, code, addr) <==> Holds(old(categories), code, addr) || Listed(list, code, addr))
    {
      ghost var before := categories;
      Gather(list);
      ghost var raw := categories;
      RawIsProper(before, list, raw);
      CanonicalizeAll();
      ghost var index := categories;
      forall code: Bytes, addr: Bytes | |addr| == 4 || |addr| == 16
        ensures Holds(index, code, addr) <==> Holds(before, code, addr) || Listed(list, code, addr)
      {
        LoadedHolds(before, list, raw, index, code, addr);
      }
    }

    /** `match`: the address is covered by some interval of the category; an unknown category matches nothing. */
    method Match(addr: Bytes, code: Bytes) returns (found: bool)
      requires Valid() && (|addr| == 4 || |addr| == 16)
      ensures found <==> Holds(categories, code, addr)
    {
      if code !in categories {
        return false;
      }
      var cat := categories[code];
      if |addr| == 4 {
        found := Lookup(cat.v4, FromBE(addr), Top(false));
      } else {
        found := Lookup(cat.v6, FromBE(addr), Top(true));
      }
    }
  }

  lemma {:induction false} RawStart(before: Index)
    ensures IsRaw(before, [], before)
  {
  }

  ghost predicate SameAnswers(raw: Index, index: Index) {
    index.Keys == raw.Keys &&
    forall c :: c in raw ==> SameSet(index[c].v4, raw[c].v4) && SameSet(index[c].v6, raw[c].v6)
  }

  lemma {:induction false} GatheredProper(before: Index, list: seq<Entry>, code: Bytes, v6: bool)
    requires WellFormed(before) && LegalList(list)
    ensures Proper(Gathered(before, list, code, v6), Top(v6))
    decreases |list|
  {
    if list != [] {
      GatheredProper(before, list[..|list| - 1], code, v6);
      RangesProper(list[|list| - 1].cidrs, if v6 then 16 else 4);
    }
  }

  lemma {:induction false} RawIsProper(before: Index, list: seq<Entry>, raw: Index)
    requires WellFormed(before) && LegalList(list) && IsRaw(before, list, raw)
    ensures forall code: Bytes :: code in raw ==> Proper(raw[code].v4, Top(false)) && Proper(raw[code].v6, Top(true))
  {
    forall code: Bytes | code in raw ensures Proper(raw[code].v4, Top(false)) && Proper(raw[code].v6, Top(true)) {
      assert RawAt(before, list, raw, code, false) && RawAt(before, list, raw, code, true);
      GatheredProper(before, list, code, false);
      GatheredProper(before, list, code, true);
    }
  }

  lemma {:induction false} LoadedHolds(before: Index, list: seq<Entry>, raw: Index, index: Index, code: Bytes, addr: Bytes)
    requires LegalList(list) && IsRaw(before, list, raw) && SameAnswers(raw, index)
    requires |addr| == 4 || |addr| == 16
    ensures Holds(index, code, addr) <==> Holds(before, code, addr) || Listed(list, code, addr)
  {
    GatheredCovers(before, list, code, addr);
    assert RawAt(before, list, raw, code, |addr| == 16);
    if code in raw {
      assert Covers(Of(index[code], |addr| == 16), FromBE(addr)) <==> Covers(Of(raw[code], |addr| == 16), FromBE(addr));
    }
  }
}
