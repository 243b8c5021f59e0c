/** The GeoSite index: domain categories matched by name, by label suffix or by pattern (src/route/geo_matcher.cpp). */
module GeoSite {
  import opened Octets
  import GeoIp

  const DOT: Byte := 46

  datatype Kind = Full | RootDomain | Regex | Plain

  datatype DomainEntry = DomainEntry(kind: Kind, value: Bytes)

  datatype Site = Site(code: Bytes, domains: seq<DomainEntry>)

  /** A compiled regular expression is any predicate on domains; compilation may fail. */
  type Pattern = Bytes -> bool
  type Compiler = Bytes -> Option<Pattern>

  datatype Category = Category(exact: set<Bytes>, suffix: set<Bytes>, patterns: seq<Pattern>)

  type Index = map<Bytes, Category>

  // ---------------- suffixes ----------------

  predicate EndsWith(s: Bytes, tail: Bytes) {
    |tail| <= |s| && s[|s| - |tail|..] == tail
  }

  /** The reference: `suffix` is the whole domain, or follows a dot at its end. */
  predicate LabelSuffix(domain: Bytes, suffix: Bytes) {
    EndsWith(domain, suffix) && (|domain| == |suffix| || domain[|domain| - |suffix| - 1] == DOT)
  }

  /** `endsWithSuffix` of the plain rules, which also lets the suffix bring its own leading dot. */
  predicate EndsWithSuffix(domain: Bytes, suffix: Bytes) {
    if suffix == [] then false
    else if |domain| < |suffix| then false
    else EndsWith(domain, suffix) &&
         (|domain| == |suffix| || suffix[0] == DOT || domain[|domain| - |suffix| - 1] == DOT)
  }

  /** The two notions agree on every domain exactly for the non-empty suffixes without a leading dot. */
  lemma {:induction false} SuffixFormsAgree(suffix: Bytes)
    ensures (forall domain: Bytes :: EndsWithSuffix(domain, suffix) <==> LabelSuffix(domain, suffix)) <==>
            suffix != [] && suffix[0] != DOT
  {
    if suffix == [] {
      assert LabelSuffix([], suffix) && !EndsWithSuffix([], suffix);
    } else if suffix[0] == DOT {
      var domain := [97] + suffix;
      assert domain[|domain| - |suffix|..] == suffix;
      assert EndsWithSuffix(domain, suffix) && !LabelSuffix(domain, suffix);
    }
  }

  // ---------------- one category ----------------

  ghost predicate SuffixHit(suffixes: set<Bytes>, domain: Bytes) {
    exists s :: s in suffixes && LabelSuffix(domain, s)
  }

  ghost predicate PatternHit(patterns: seq<Pattern>, domain: Bytes) {
    exists i :: 0 <= i < |patterns| && patterns[i](domain)
  }

  ghost predicate CategoryHit(cat: Category, domain: Bytes) {
    domain in cat.exact || SuffixHit(cat.suffix, domain) || PatternHit(cat.patterns, domain)
  }

  method FindDot(d: Bytes) returns (at: Option<nat>)
    ensures at.Some? ==> at.value < |d| && d[at.value] == DOT && forall i :: 0 <= i < at.value ==> d[i] != DOT
    ensures at.None? ==> forall i :: 0 <= i < |d| ==> d[i] != DOT
  {
    for i := 0 to |d|
      invariant forall j :: 0 <= j < i ==> d[j] != DOT
    {
      if d[i] == DOT {
        return Some(i);
      }
    }
    return None;
  }

  /** The label-stripping loop: it ends, and finds a stored suffix exactly when there is one. */
  method FindSuffix(suffixes: set<Bytes>, domain: Bytes) returns (found: bool)
    ensures found <==> SuffixHit(suffixes, domain)
  {
    var d := domain;
    while true
      invariant LabelSuffix(domain, d)
      invariant forall s :: s in suffixes && LabelSuffix(domain, s) ==> |s| <= |d|
      decreases |d|
    {
      if d in suffixes {
        return true;
      }
      var dot := FindDot(d);
      forall s | s in suffixes && LabelSuffix(domain, s)
        ensures |s| < |d| && d[|d| - |s| - 1] == DOT
      {
        assert |s| == |d| ==> s == d;
        assert d == domain[|domain| - |d|..];
      }
      if dot.None? {
        return false;
      }
      ghost var next := d[dot.value + 1..];
      assert domain[|domain| - |next|..] == next by {
        assert domain[|domain| - |d|..][dot.value + 1..] == next;
      }
      d := d[dot.value + 1..];
    }
  }

  // ---------------- the matcher ----------------

  ghost predicate Holds(index: Index, code: Bytes, domain: Bytes) {
    code in index && CategoryHit(index[code], domain)
  }

  ghost predicate EntryHit(e: DomainEntry, domain: Bytes, compile: Compiler) {
    match e.kind
    case Full => domain == e.value
    case RootDomain => LabelSuffix(domain, e.value)
    case _ => compile(e.value).Some? && compile(e.value).value(domain)
  }

  ghost predicate DomainsHit(domains: seq<DomainEntry>, domain: Bytes, compile: Compiler) {
    exists j :: 0 <= j < |domains| && EntryHit(domains[j], domain, compile)
  }

  /** What the data file says. */
  ghost predicate Listed(list: seq<Site>, code: Bytes, domain: Bytes, compile: Compiler) {
    exists i :: 0 <= i < |list| && GeoIp.Lower(list[i].code) == code && DomainsHit(list[i].domains, domain, compile)
  }

  function AddDomain(cat: Category, e: DomainEntry, compile: Compiler): Category {
    match e.kind
    case Full => cat.(exact := cat.exact + {e.value})
    case RootDomain => cat.(suffix := cat.suffix + {e.value})
    case _ =>
      match compile(e.value)
      case None => cat
      case Some(p) => cat.(patterns := cat.patterns + [p])
  }

  lemma {:induction false} AddDomainHits(cat: Category, e: DomainEntry, compile: Compiler, domain: Bytes)
    ensures CategoryHit(AddDomain(cat, e, compile), domain) <==> CategoryHit(cat, domain) || EntryHit(e, domain, compile)
  {
    match e.kind {
      case Full =>
      case RootDomain =>
        assert e.value in AddDomain(cat, e, compile).suffix;
      case _ =>
        if compile(e.value).Some? {
          PatternSnoc(cat.patterns, compile(e.value).value, domain);
        }
    }
  }

  lemma {:induction false} PatternSnoc(ps: seq<Pattern>, p: Pattern, domain: Bytes)
    ensures PatternHit(ps + [p], domain) <==> PatternHit(ps, domain) || p(domain)
  {
    if PatternHit(ps, domain) {
      var i :| 0 <= i < |ps| && ps[i](domain);
      assert (ps + [p])[i](domain);
    }
    assert (ps + [p])[|ps|] == p;
  }

  lemma {:induction false} DomainsSnoc(ds: seq<DomainEntry>, e: DomainEntry, domain: Bytes, compile: Compiler)
    ensures DomainsHit(ds + [e], domain, compile) <==> DomainsHit(ds, domain, compile) || EntryHit(e, domain, compile)
  {
    if DomainsHit(ds, domain, compile) {
      var j :| 0 <= j < |ds| && EntryHit(ds[j], domain, compile);
      assert EntryHit((ds + [e])[j], domain, compile);
    }
    assert (ds + [e])[|ds|] == e;
  }

  lemma {:induction false} ListedSnoc(list: seq<Site>, site: Site, code: Bytes, domain: Bytes, compile: Compiler)
    ensures Listed(list + [site], code, domain, compile) <==>
            Listed(list, code, domain, compile) ||
            (GeoIp.Lower(site.code) == code && DomainsHit(site.domains, domain, compile))
  {
    var all := list + [site];
    if Listed(list, code, domain, compile) {
      var i :| 0 <= i < |list| && GeoIp.Lower(list[i].code) == code && DomainsHit(list[i].domains, domain, compile);
      assert GeoIp.Lower(all[i].code) == code && DomainsHit(all[i].domains, domain, compile);
    }
    assert all[|list|] == site;
  }

  /** Regex and Plain entries are treated alike: as a pattern if the value compiles, and as nothing otherwise. */
  lemma {:induction false} PatternEntries(value: Bytes, domain: Bytes, compile: Compiler)
    ensures EntryHit(DomainEntry(Regex, value), domain, compile) <==> EntryHit(DomainEntry(Plain, value), domain, compile)
    ensures EntryHit(DomainEntry(Plain, value), domain, compile) <==>
            match compile(value) { case None => false case Some(pattern) => pattern(domain) }
  {
  }

  class GeoSiteMatcher {
    const compile: Compiler
    var categories: Index

    constructor (compile: Compiler)
      ensures this.compile == compile && categories == map[]
    {
      this.compile, categories := compile, map[];
    }

    method AddSite(site: Site)
      modifies this
      ensures forall code: Bytes, domain: Bytes ::
                Holds(categories, code, domain) <==>
                Holds(old(categories), code, domain) ||
                (GeoIp.Lower(site.code) == code && DomainsHit(site.domains, domain, compile))
    {
      var code := GeoIp.Lower(site.code);
      var cat := if code in categories then categories[code] else Category({}, {}, []);
      ghost var was, before := cat, categories;
      for j := 0 to |site.domains|
        invariant categories == before
        invariant forall domain: Bytes ::
                    CategoryHit(cat, domain) <==> CategoryHit(was, domain) || DomainsHit(site.domains[..j], domain, compile)
      {
        assert site.domains[..j + 1] == site.domains[..j] + [site.domains[j]];
        forall domain: Bytes
          ensures CategoryHit(AddDomain(cat, site.domains[j], compile), domain) <==>
                  CategoryHit(was, domain) || DomainsHit(site.domains[..j + 1], domain, compile)
        {
          AddDomainHits(cat, site.domains[j], compile, domain);
          DomainsSnoc(site.domains[..j], site.domains[j], domain, compile);
        }
        cat := AddDomain(cat, site.domains[j], compile);
      }
      assert site.domains[..|site.domains|] == site.domains;
      categories := categories[code := cat];
    }

    /** `load`, after the file has been parsed. */
    method Load(list: seq<Site>)
      modifies this
      ensures forall code: Bytes, domain: Bytes ::
                Holds(categories, code, domain) <==>
                Holds(old(categories), code, domain) || Listed(list, code, domain, compile)
    {
      ghost var before := categories;
      for i := 0 to |list|
        invariant forall code: Bytes, domain: Bytes ::
                    Holds(categories, code, domain) <==>
                    Holds(before, code, domain) || Listed(list[..i], code, domain, compile)
      {
        ghost var here := categories;
        AddSite(list[i]);
        assert list[..i + 1] == list[..i] + [list[i]];
        forall code: Bytes, domain: Bytes
          ensures Holds(categories, code, domain) <==>
                  Holds(before, code, domain) || Listed(list[..i + 1], code, domain, compile)
        {
          ListedSnoc(list[..i], list[i], code, domain, compile);
          assert Holds(here, code, domain) <==> Holds(before, code, domain) || Listed(list[..i], code, domain, compile);
        }
      }
      assert list[..|list|] == list;
    }

    method Match(domain: Bytes, code: Bytes) returns (found: bool)
      ensures found <==> Holds(categories, code, domain)
    {
      if code !in categories {
        return false;
      }
      var cat := categories[code];
      if domain in cat.exact {
        return true;
      }
      var bySuffix := FindSuffix(cat.suffix, domain);
      if bySuffix {
        return true;
      }
      for i := 0 to |cat.patterns|
        invariant forall k :: 0 <= k < i ==> !cat.patterns[k](domain)
      {
        if cat.patterns[i](domain) {
          return true;
        }
      }
      return false;
    }
  }
}
