/** Rule matching and outbound selection (src/route/router.cpp), and rewritings that leave it unchanged. */
module Router {
  import opened Octets
  import opened Addresses
  import opened Cidrs
  import GeoIp
  import GeoSite

  datatype Rule = Rule(
    inbound: Option<Bytes>,
    domainExact: set<Bytes>,
    domainSuffix: seq<Bytes>,
    cidrs: seq<Cidr>,
    geoip: seq<Bytes>,
    geosite: seq<Bytes>,
    outbound: Bytes)

  datatype Request = Request(inbound: Bytes, target: Address)

  /** The two indexes as values; a router without a data file has none. */
  datatype Geo = Geo(site: Option<GeoSite.Index>, ip: Option<GeoIp.Index>)

  predicate LegalRule(rule: Rule) {
    forall i :: 0 <= i < |rule.cidrs| ==> Legal(rule.cidrs[i])
  }

  predicate LegalRules(rules: seq<Rule>) {
    forall k :: 0 <= k < |rules| ==> LegalRule(rules[k])
  }

  /** `IpRange::contains`: same family, same leading bits. */
  predicate RangeContains(c: Cidr, addr: Bytes)
    requires Legal(c)
  {
    |c.ip| == |addr| && BitsEqual(c.ip, addr, c.prefix)
  }

  // ---------------- what a rule means ----------------

  predicate HasDomainPart(rule: Rule) {
    rule.domainExact != {} || rule.domainSuffix != [] || rule.geosite != []
  }

  predicate HasIpPart(rule: Rule) {
    rule.cidrs != [] || rule.geoip != []
  }

  ghost predicate DomainHit(rule: Rule, domain: Bytes, site: Option<GeoSite.Index>) {
    || domain in rule.domainExact
    || (exists i :: 0 <= i < |rule.domainSuffix| && GeoSite.EndsWithSuffix(domain, rule.domainSuffix[i]))
    || (site.Some? && exists i :: 0 <= i < |rule.geosite| && GeoSite.Holds(site.value, rule.geosite[i], domain))
  }

  ghost predicate IpHit(rule: Rule, addr: Bytes, ip: Option<GeoIp.Index>)
    requires LegalRule(rule)
  {
    || (exists i :: 0 <= i < |rule.cidrs| && RangeContains(rule.cidrs[i], addr))
    || (ip.Some? && exists i :: 0 <= i < |rule.geoip| && GeoIp.Holds(ip.value, rule.geoip[i], addr))
  }

  /** The inbound tag must agree if there is one; then some listed condition must hold, and a rule that lists none
      matches by its tag alone. */
  ghost predicate Matches(rule: Rule, req: Request, geo: Geo)
    requires LegalRule(rule)
  {
    && (rule.inbound.Some? ==> rule.inbound.value == req.inbound)
    && if !HasDomainPart(rule) && !HasIpPart(rule) then rule.inbound.Some?
       else if req.target.Domain? then DomainHit(rule, req.target.domain, geo.site)
       else IpHit(rule, req.target.ip, geo.ip)
  }

  /** The outbound of the first rule that matches, or the default. */
  ghost function Pick(rules: seq<Rule>, fallback: Bytes, req: Request, geo: Geo): Bytes
    requires LegalRules(rules)
  {
    if rules == [] then fallback
    else if Matches(rules[0], req, geo) then rules[0].outbound
    else Pick(rules[1..], fallback, req, geo)
  }

  // ---------------- the router ----------------

  class Router {
    const rules: seq<Rule>
    const defaultOutbound: Bytes
    const site: GeoSite.GeoSiteMatcher?
    const ip: GeoIp.GeoIpMatcher?

    constructor (rules: seq<Rule>, defaultOutbound: Bytes, site: GeoSite.GeoSiteMatcher?, ip: GeoIp.GeoIpMatcher?)
      requires LegalRules(rules) && (ip != null ==> ip.Valid())
      ensures this.rules == rules && this.defaultOutbound == defaultOutbound && this.site == site && this.ip == ip
      ensures Valid()
    {
      this.rules, this.defaultOutbound, this.site, this.ip := rules, defaultOutbound, site, ip;
    }

    ghost predicate Valid()
      reads this, ip
    {
      LegalRules(rules) && (ip != null ==> ip.Valid())
    }

    ghost function Indexes(): Geo
      reads this, site, ip
    {
      Geo(if site == null then None else Some(site.categories), if ip == null then None else Some(ip.categories))
    }

    /** `CompiledRule::matches`, with its two flags. */
    method RuleMatches(rule: Rule, req: Request) returns (r: bool)
      requires Valid() && LegalRule(rule)
      ensures r <==> Matches(rule, req, Indexes())
      ensures rule.inbound.Some? && rule.inbound.value != req.inbound ==> !r
      ensures !HasDomainPart(rule) && !HasIpPart(rule) ==> (r <==> rule.inbound == Some(req.inbound))
    {
      if rule.inbound.Some? && rule.inbound.value != req.inbound {
        return false;
      }
      var anyRule, anyMatch := false, false;
      if rule.domainExact != {} || |rule.domainSuffix| != 0 || |rule.geosite| != 0 {
        anyRule := true;
        if req.target.Domain? {
          anyMatch := MatchDomain(rule, req.target.domain);
        }
      }
      if |rule.cidrs| != 0 || |rule.geoip| != 0 {
        anyRule := true;
        if !req.target.Domain? {
          var hit := MatchIp(rule, req.target.ip, anyMatch);
          anyMatch := hit;
        }
      }
      if !anyRule {
        return rule.inbound.Some?;
      }
      return anyMatch;
    }

    method MatchDomain(rule: Rule, d: Bytes) returns (anyMatch: bool)
      ensures anyMatch <==> DomainHit(rule, d, Indexes().site)
    {
      anyMatch := d in rule.domainExact;
      if !anyMatch {
        for i := 0 to |rule.domainSuffix|
          invariant forall k :: 0 <= k < i ==> !GeoSite.EndsWithSuffix(d, rule.domainSuffix[k])
        {
          if GeoSite.EndsWithSuffix(d, rule.domainSuffix[i]) {
            anyMatch := true;
            break;
          }
        }
      }
      if !anyMatch && site != null {
        for i := 0 to |rule.geosite|
          invariant forall k :: 0 <= k < i ==> !GeoSite.Holds(site.categories, rule.geosite[k], d)
        {
          var hit := site.Match(d, rule.geosite[i]);
          if hit {
            anyMatch := true;
            break;
          }
        }
      }
    }

    method MatchIp(rule: Rule, addr: Bytes, already: bool) returns (anyMatch: bool)
      requires Valid() && LegalRule(rule) && (|addr| == 4 || |addr| == 16)
      ensures anyMatch <==> already || IpHit(rule, addr, Indexes().ip)
    {
      anyMatch := already;
      for i := 0 to |rule.cidrs|
        invariant anyMatch == already
        invariant forall k :: 0 <= k < i ==> !RangeContains(rule.cidrs[k], addr)
      {
        if RangeContains(rule.cidrs[i], addr) {
          anyMatch := true;
          break;
        }
      }
      if !anyMatch && ip != null {
        for i := 0 to |rule.geoip|
          invariant forall k :: 0 <= k < i ==> !GeoIp.Holds(ip.categories, rule.geoip[k], addr)
        {
          var hit := ip.Match(addr, rule.geoip[i]);
          if hit {
            anyMatch := true;
            break;
          }
        }
      }
    }

    /** `pick`. */
    method PickOutbound(req: Request) returns (outbound: Bytes)
      requires Valid()
      ensures outbound == Pick(rules, defaultOutbound, req, Indexes())
      ensures (exists k :: 0 <= k < |rules| && Matches(rules[k], req, Indexes()) && outbound == rules[k].outbound
                           && forall j :: 0 <= j < k ==> !Matches(rules[j], req, Indexes()))
              || (outbound == defaultOutbound && forall j :: 0 <= j < |rules| ==> !Matches(rules[j], req, Indexes()))
    {
      hide Matches;
      assert rules[0..] == rules;
      for k := 0 to |rules|
        invariant Pick(rules[k..], defaultOutbound, req, Indexes()) == Pick(rules, defaultOutbound, req, Indexes())
        invariant forall j :: 0 <= j < k ==> !Matches(rules[j], req, Indexes())
      {
        assert rules[k..][1..] == rules[k + 1..];
        var hit := RuleMatches(rules[k], req);
        if hit {
          return rules[k].outbound;
        }
      }
      return defaultOutbound;
    }
  }

  // ---------------- rewriting rules ----------------

  /** Replacing one rule by another that matches alike and leads to the same outbound changes no choice. */
  lemma {:induction false} PickUnchanged(rules: seq<Rule>, k: nat, rule': Rule, fallback: Bytes, req: Request, geo: Geo)
    requires LegalRules(rules) && k < |rules| && LegalRule(rule') && rule'.outbound == rules[k].outbound
    requires Matches(rules[k], req, geo) <==> Matches(rule', req, geo)
    ensures LegalRules(rules[k := rule'])
    ensures Pick(rules[k := rule'], fallback, req, geo) == Pick(rules, fallback, req, geo)
    decreases rules
  {
    hide Matches;
    if k == 0 {
      assert rules[k := rule'][1..] == rules[1..];
    } else {
      assert rules[k := rule'][1..] == rules[1..][k - 1 := rule'];
      PickUnchanged(rules[1..], k - 1, rule', fallback, req, geo);
    }
  }

  function Without<T>(s: seq<T>, j: nat): seq<T>
    requires j < |s|
  {
    s[..j] + s[j + 1..]
  }

  /** All the blocks that the data file lists under a code, in rule form. */
  function Blocks(list: seq<GeoIp.Entry>, code: Bytes): (cs: seq<Cidr>)
    requires GeoIp.LegalList(list)
    ensures forall i :: 0 <= i < |cs| ==> Legal(cs[i])
  {
    if list == [] then []
    else
      (if GeoIp.Lower(list[0].code) == code then Usable(list[0].cidrs) else []) + Blocks(list[1..], code)
  }

  function Usable(cidrs: seq<Cidr>): (cs: seq<Cidr>)
    requires GeoIp.LegalCidrs(cidrs)
    ensures forall i :: 0 <= i < |cs| ==> Legal(cs[i])
  {
    if cidrs == [] then []
    else (if |cidrs[0].ip| == 4 || |cidrs[0].ip| == 16 then [cidrs[0]] else []) + Usable(cidrs[1..])
  }

  ghost predicate BlockHit(cs: seq<Cidr>, addr: Bytes)
    requires forall i :: 0 <= i < |cs| ==> Legal(cs[i])
  {
    exists i :: 0 <= i < |cs| && RangeContains(cs[i], addr)
  }

  lemma {:induction false} BlockHitAppend(a: seq<Cidr>, b: seq<Cidr>, addr: Bytes)
    requires forall i :: 0 <= i < |a| ==> Legal(a[i])
    requires forall i :: 0 <= i < |b| ==> Legal(b[i])
    ensures BlockHit(a + b, addr) <==> BlockHit(a, addr) || BlockHit(b, addr)
  {
    if BlockHit(a, addr) {
      var i :| 0 <= i < |a| && RangeContains(a[i], addr);
      assert RangeContains((a + b)[i], addr);
    }
    if BlockHit(b, addr) {
      var i :| 0 <= i < |b| && RangeContains(b[i], addr);
      assert RangeContains((a + b)[|a| + i], addr);
    }
  }

  lemma {:induction false} UsableHit(cidrs: seq<Cidr>, addr: Bytes)
    requires GeoIp.LegalCidrs(cidrs) && (|addr| == 4 || |addr| == 16)
    ensures BlockHit(Usable(cidrs), addr) <==> GeoIp.Lists(cidrs, addr)
  {
    if cidrs != [] {
      var c := cidrs[0];
      assert cidrs == [c] + cidrs[1..];
      assert GeoIp.Lists(cidrs, addr) <==> GeoIp.Lists(cidrs[1..], addr) || (Legal(c) && Contains(c, addr)) by {
        if GeoIp.Lists(cidrs[1..], addr) {
          var j :| 0 <= j < |cidrs[1..]| && Legal(cidrs[1..][j]) && Contains(cidrs[1..][j], addr);
          assert Legal(cidrs[j + 1]) && Contains(cidrs[j + 1], addr);
        }
      }
      UsableHit(cidrs[1..], addr);
      if Legal(c) {
        BlockHitAppend([c], Usable(cidrs[1..]), addr);
        assert BlockHit([c], addr) <==> RangeContains(c, addr) by {
          assert RangeContains(c, addr) ==> RangeContains([c][0], addr);
        }
        if |c.ip| == |addr| {
          ThreeFormsAgree(c, addr);
        }
      } else {
        assert [] + Usable(cidrs[1..]) == Usable(cidrs[1..]);
      }
    }
  }

  /** The blocks under a code hold exactly the addresses that the data file lists under it. */
  lemma {:induction false} BlocksHit(list: seq<GeoIp.Entry>, code: Bytes, addr: Bytes)
    requires GeoIp.LegalList(list) && (|addr| == 4 || |addr| == 16)
    ensures BlockHit(Blocks(list, code), addr) <==> GeoIp.Listed(list, code, addr)
  {
    if list != [] {
      var e := list[0];
      assert GeoIp.Listed(list, code, addr) <==>
             GeoIp.Listed(list[1..], code, addr) || (GeoIp.Lower(e.code) == code && GeoIp.Lists(e.cidrs, addr)) by {
        if GeoIp.Listed(list[1..], code, addr) {
          var j :| 0 <= j < |list[1..]| && GeoIp.Lower(list[1..][j].code) == code && GeoIp.Lists(list[1..][j].cidrs, addr);
          assert GeoIp.Lower(list[j + 1].code) == code && GeoIp.Lists(list[j + 1].cidrs, addr);
        }
      }
      BlocksHit(list[1..], code, addr);
      UsableHit(e.cidrs, addr);
      BlockHitAppend(if GeoIp.Lower(e.code) == code then Usable(e.cidrs) else [], Blocks(list[1..], code), addr);
    }
  }

  ghost predicate GeoIpLoaded(index: GeoIp.Index, list: seq<GeoIp.Entry>)
    requires GeoIp.LegalList(list)
  {
    forall code: Bytes, addr: Bytes :: |addr| == 4 || |addr| == 16 ==>
      (GeoIp.Holds(index, code, addr) <==> GeoIp.Listed(list, code, addr))
  }

  /** A `geoip` code spelled out as blocks. */
  function SpellIp(rule: Rule, j: nat, list: seq<GeoIp.Entry>): Rule
    requires j < |rule.geoip| && GeoIp.LegalList(list)
  {
    rule.(geoip := Without(rule.geoip, j), cidrs := rule.cidrs + Blocks(list, rule.geoip[j]))
  }

  /** A rule that loses its last condition no longer means the same, unless it has no tag to fall back on. */
  predicate StillConditional(rule: Rule) {
    HasDomainPart(rule) || HasIpPart(rule) || rule.inbound.None?
  }

  lemma {:induction false} SpellIpHit(rule: Rule, j: nat, list: seq<GeoIp.Entry>, index: GeoIp.Index, addr: Bytes)
    requires LegalRule(rule) && j < |rule.geoip| && GeoIp.LegalList(list) && GeoIpLoaded(index, list)
    requires |addr| == 4 || |addr| == 16
    ensures LegalRule(SpellIp(rule, j, list))
    ensures IpHit(SpellIp(rule, j, list), addr, Some(index)) <==> IpHit(rule, addr, Some(index))
  {
    var code, rest := rule.geoip[j], Without(rule.geoip, j);
    BlocksHit(list, code, addr);
    BlockHitAppend(rule.cidrs, Blocks(list, code), addr);
    assert GeoIp.Holds(index, code, addr) <==> GeoIp.Listed(list, code, addr);
    assert (exists i :: 0 <= i < |rule.geoip| && GeoIp.Holds(index, rule.geoip[i], addr)) <==>
           GeoIp.Holds(index, code, addr) || (exists i :: 0 <= i < |rest| && GeoIp.Holds(index, rest[i], addr)) by {
      WithoutExists(rule.geoip, j, (c: Bytes) => GeoIp.Holds(index, c, addr));
    }
  }

  lemma {:induction false} WithoutExists<T>(s: seq<T>, j: nat, p: T -> bool)
    requires j < |s|
    ensures (exists i :: 0 <= i < |s| && p(s[i])) <==>
            p(s[j]) || exists i :: 0 <= i < |Without(s, j)| && p(Without(s, j)[i])
  {
    var r := Without(s, j);
    if i :| 0 <= i < |r| && p(r[i]) {
      assert r[i] == s[if i < j then i else i + 1];
    }
    if i :| 0 <= i < |s| && p(s[i]) && i != j {
      assert s[i] == r[if i < j then i else i - 1];
    }
  }

  /** Spelling out a loaded `geoip` code keeps the rule's meaning for every request exactly when the rule stays
      conditional; a non-empty block list always suffices. */
  lemma {:induction false} SpellIpExactly(rule: Rule, j: nat, list: seq<GeoIp.Entry>, geo: Geo)
    requires LegalRule(rule) && j < |rule.geoip| && GeoIp.LegalList(list)
    requires geo.ip.Some? && GeoIpLoaded(geo.ip.value, list)
    ensures LegalRule(SpellIp(rule, j, list))
    ensures (forall req: Request :: Matches(rule, req, geo) <==> Matches(SpellIp(rule, j, list), req, geo)) <==>
            StillConditional(SpellIp(rule, j, list))
    ensures Blocks(list, rule.geoip[j]) != [] ==> StillConditional(SpellIp(rule, j, list))
  {
    var rule' := SpellIp(rule, j, list);
    forall req: Request | StillConditional(rule')
      ensures Matches(rule, req, geo) <==> Matches(rule', req, geo)
    {
      if !req.target.Domain? {
        SpellIpHit(rule, j, list, geo.ip.value, req.target.ip);
      }
    }
    if !StillConditional(rule') {
      var req := Request(rule.inbound.value, Domain([], 0));
      assert Matches(rule', req, geo) && !Matches(rule, req, geo);
    }
  }

  /** Entries of a data file under a code, of one kind. */
  function Values(list: seq<GeoSite.Site>, code: Bytes, kind: GeoSite.Kind): seq<Bytes> {
    if list == [] then []
    else
      (if GeoIp.Lower(list[0].code) == code then OfKind(list[0].domains, kind) else []) + Values(list[1..], code, kind)
  }

  function OfKind(domains: seq<GeoSite.DomainEntry>, kind: GeoSite.Kind): seq<Bytes> {
    if domains == [] then []
    else (if domains[0].kind == kind then [domains[0].value] else []) + OfKind(domains[1..], kind)
  }

  /** Only exact names and root domains, the latter spelled as a plain rule needs them. */
  predicate Spellable(list: seq<GeoSite.Site>, code: Bytes) {
    forall i, k :: 0 <= i < |list| && GeoIp.Lower(list[i].code) == code && 0 <= k < |list[i].domains| ==>
      SpellableEntry(list[i].domains[k])
  }

  predicate SpellableEntry(e: GeoSite.DomainEntry) {
    e.kind.Full? || (e.kind.RootDomain? && e.value != [] && e.value[0] != GeoSite.DOT)
  }

  ghost predicate SuffixListHit(suffixes: seq<Bytes>, domain: Bytes) {
    exists i :: 0 <= i < |suffixes| && GeoSite.EndsWithSuffix(domain, suffixes[i])
  }

  lemma {:induction false} SuffixListAppend(a: seq<Bytes>, b: seq<Bytes>, domain: Bytes)
    ensures SuffixListHit(a + b, domain) <==> SuffixListHit(a, domain) || SuffixListHit(b, domain)
  {
    if SuffixListHit(a, domain) {
      var i :| 0 <= i < |a| && GeoSite.EndsWithSuffix(domain, a[i]);
      assert GeoSite.EndsWithSuffix(domain, (a + b)[i]);
    }
    if SuffixListHit(b, domain) {
      var i :| 0 <= i < |b| && GeoSite.EndsWithSuffix(domain, b[i]);
      assert GeoSite.EndsWithSuffix(domain, (a + b)[|a| + i]);
    }
  }

  lemma {:induction false} OfKindHit(ds: seq<GeoSite.DomainEntry>, domain: Bytes, compile: GeoSite.Compiler)
    requires forall k :: 0 <= k < |ds| ==> SpellableEntry(ds[k])
    ensures GeoSite.DomainsHit(ds, domain, compile) <==>
            domain in OfKind(ds, GeoSite.Full) || SuffixListHit(OfKind(ds, GeoSite.RootDomain), domain)
  {
    if ds != [] {
      var e, rest := ds[0], ds[1..];
      OfKindHit(rest, domain, compile);
      assert GeoSite.DomainsHit(ds, domain, compile) <==>
             GeoSite.DomainsHit(rest, domain, compile) || GeoSite.EntryHit(e, domain, compile) by {
        if GeoSite.DomainsHit(rest, domain, compile) {
          var k :| 0 <= k < |rest| && GeoSite.EntryHit(rest[k], domain, compile);
          assert GeoSite.EntryHit(ds[k + 1], domain, compile);
        }
      }
      if e.kind.RootDomain? {
        GeoSite.SuffixFormsAgree(e.value);
        SuffixListAppend([e.value], OfKind(rest, GeoSite.RootDomain), domain);
        assert SuffixListHit([e.value], domain) <==> GeoSite.EndsWithSuffix(domain, e.value) by {
          assert [e.value][0] == e.value;
        }
      } else {
        SuffixListAppend([], OfKind(rest, GeoSite.RootDomain), domain);
      }
    }
  }

  lemma {:induction false} ValuesHit(list: seq<GeoSite.Site>, code: Bytes, domain: Bytes, compile: GeoSite.Compiler)
    requires Spellable(list, code)
    ensures GeoSite.Listed(list, code, domain, compile) <==>
            domain in Values(list, code, GeoSite.Full) || SuffixListHit(Values(list, code, GeoSite.RootDomain), domain)
  {
    if list != [] {
      var s, rest := list[0], list[1..];
      ValuesHit(rest, code, domain, compile);
      assert GeoSite.Listed(list, code, domain, compile) <==>
             GeoSite.Listed(rest, code, domain, compile) ||
             (GeoIp.Lower(s.code) == code && GeoSite.DomainsHit(s.domains, domain, compile)) by {
        if GeoSite.Listed(rest, code, domain, compile) {
          var i :| 0 <= i < |rest| && GeoIp.Lower(rest[i].code) == code && GeoSite.DomainsHit(rest[i].domains, domain, compile);
          assert GeoIp.Lower(list[i + 1].code) == code && GeoSite.DomainsHit(list[i + 1].domains, domain, compile);
        }
      }
      var roots := if GeoIp.Lower(s.code) == code then OfKind(s.domains, GeoSite.RootDomain) else [];
      SuffixListAppend(roots, Values(rest, code, GeoSite.RootDomain), domain);
      if GeoIp.Lower(s.code) == code {
        OfKindHit(s.domains, domain, compile);
      }
    }
  }

  ghost predicate GeoSiteLoaded(index: GeoSite.Index, list: seq<GeoSite.Site>, compile: GeoSite.Compiler) {
    forall code: Bytes, domain: Bytes :: GeoSite.Holds(index, code, domain) <==> GeoSite.Listed(list, code, domain, compile)
  }

  /** A `geosite` code spelled out as exact names and suffixes. */
  function SpellSite(rule: Rule, j: nat, list: seq<GeoSite.Site>): Rule
    requires j < |rule.geosite|
  {
    var code := rule.geosite[j];
    rule.(geosite := Without(rule.geosite, j),
          domainExact := rule.domainExact + (set d | d in Values(list, code, GeoSite.Full)),
          domainSuffix := rule.domainSuffix + Values(list, code, GeoSite.RootDomain))
  }

  lemma {:induction false} SpellSiteHit(rule: Rule, j: nat, list: seq<GeoSite.Site>, index: GeoSite.Index,
                                        compile: GeoSite.Compiler, domain: Bytes)
    requires j < |rule.geosite| && Spellable(list, rule.geosite[j]) && GeoSiteLoaded(index, list, compile)
    ensures DomainHit(SpellSite(rule, j, list), domain, Some(index)) <==> DomainHit(rule, domain, Some(index))
  {
    var code, rest := rule.geosite[j], Without(rule.geosite, j);
    ValuesHit(list, code, domain, compile);
    SuffixListAppend(rule.domainSuffix, Values(list, code, GeoSite.RootDomain), domain);
    assert GeoSite.Holds(index, code, domain) <==> GeoSite.Listed(list, code, domain, compile);
    assert (exists i :: 0 <= i < |rule.geosite| && GeoSite.Holds(index, rule.geosite[i], domain)) <==>
           GeoSite.Holds(index, code, domain) || (exists i :: 0 <= i < |rest| && GeoSite.Holds(index, rest[i], domain)) by {
      WithoutExists(rule.geosite, j, (c: Bytes) => GeoSite.Holds(index, c, domain));
    }
  }

  /** Spelling out a loaded `geosite` code of exact names and root domains keeps the rule's meaning for every request
      exactly when the rule stays conditional. */
  lemma {:induction false} SpellSiteExactly(rule: Rule, j: nat, list: seq<GeoSite.Site>, compile: GeoSite.Compiler, geo: Geo)
    requires LegalRule(rule) && j < |rule.geosite| && Spellable(list, rule.geosite[j])
    requires geo.site.Some? && GeoSiteLoaded(geo.site.value, list, compile)
    ensures LegalRule(SpellSite(rule, j, list))
    ensures (forall req: Request :: Matches(rule, req, geo) <==> Matches(SpellSite(rule, j, list), req, geo)) <==>
            StillConditional(SpellSite(rule, j, list))
  {
    var rule' := SpellSite(rule, j, list);
    forall req: Request | StillConditional(rule')
      ensures Matches(rule, req, geo) <==> Matches(rule', req, geo)
    {
      if req.target.Domain? {
        SpellSiteHit(rule, j, list, geo.site.value, compile, req.target.domain);
      }
    }
    if !StillConditional(rule') {
      var req := Request(rule.inbound.value, IPv4([0, 0, 0, 0], 0));
      assert Matches(rule', req, geo) && !Matches(rule, req, geo);
    }
  }

  /** Rewriting a rule list: no request is sent elsewhere. */
  lemma {:induction false} SpellIpKeepsPick(rules: seq<Rule>, k: nat, j: nat, list: seq<GeoIp.Entry>, fallback: Bytes,
                                            req: Request, geo: Geo)
    requires LegalRules(rules) && k < |rules| && j < |rules[k].geoip| && GeoIp.LegalList(list)
    requires geo.ip.Some? && GeoIpLoaded(geo.ip.value, list) && Blocks(list, rules[k].geoip[j]) != []
    ensures LegalRules(rules[k := SpellIp(rules[k], j, list)])
    ensures Pick(rules[k := SpellIp(rules[k], j, list)], fallback, req, geo) == Pick(rules, fallback, req, geo)
  {
    SpellIpExactly(rules[k], j, list, geo);
    PickUnchanged(rules, k, SpellIp(rules[k], j, list), fallback, req, geo);
  }

  lemma {:induction false} SpellSiteKeepsPick(rules: seq<Rule>, k: nat, j: nat, list: seq<GeoSite.Site>,
                                              compile: GeoSite.Compiler, fallback: Bytes, req: Request, geo: Geo)
    requires LegalRules(rules) && k < |rules| && j < |rules[k].geosite| && Spellable(list, rules[k].geosite[j])
    requires geo.site.Some? && GeoSiteLoaded(geo.site.value, list, compile)
    requires Values(list, rules[k].geosite[j], GeoSite.Full) != [] || Values(list, rules[k].geosite[j], GeoSite.RootDomain) != []
    ensures LegalRules(rules[k := SpellSite(rules[k], j, list)])
    ensures Pick(rules[k := SpellSite(rules[k], j, list)], fallback, req, geo) == Pick(rules, fallback, req, geo)
  {
    var rule, rule', code := rules[k], SpellSite(rules[k], j, list), rules[k].geosite[j];
    assert StillConditional(rule') by {
      if Values(list, code, GeoSite.Full) != [] {
        assert Values(list, code, GeoSite.Full)[0] in rule'.domainExact;
      }
    }
    SpellSiteExactly(rule, j, list, compile, geo);
    PickUnchanged(rules, k, rule', fallback, req, geo);
  }

  // ---------------- codes ----------------

  lemma {:induction false} LowerTwice(s: Bytes)
    ensures GeoIp.Lower(GeoIp.Lower(s)) == GeoIp.Lower(s)
  {
  }

  /** Categories are lower-cased on load but not on lookup: a code with a capital letter matches no address at all. */
  lemma {:induction false} CapitalCodeNeverMatches(index: GeoIp.Index, list: seq<GeoIp.Entry>, code: Bytes, addr: Bytes)
    requires GeoIp.LegalList(list) && GeoIpLoaded(index, list) && (|addr| == 4 || |addr| == 16)
    requires GeoIp.Lower(code) != code
    ensures !GeoIp.Holds(index, code, addr)
  {
    forall i | 0 <= i < |list| ensures GeoIp.Lower(list[i].code) != code {
      LowerTwice(list[i].code);
    }
  }

  /** So the lookup is blind to case, on every address, exactly for the codes without capital letters and those under
      which nothing is listed in any case. */
  lemma {:induction false} IpCaseExactly(index: GeoIp.Index, list: seq<GeoIp.Entry>, code: Bytes)
    requires GeoIp.LegalList(list) && GeoIpLoaded(index, list)
    ensures (forall addr: Bytes :: |addr| == 4 || |addr| == 16 ==>
               (GeoIp.Holds(index, code, addr) <==> GeoIp.Listed(list, GeoIp.Lower(code), addr))) <==>
            (GeoIp.Lower(code) == code ||
             forall addr: Bytes :: |addr| == 4 || |addr| == 16 ==> !GeoIp.Listed(list, GeoIp.Lower(code), addr))
  {
    hide GeoIp.Holds, GeoIp.Listed, GeoIp.Lower;
    if GeoIp.Lower(code) != code {
      forall addr: Bytes | |addr| == 4 || |addr| == 16 ensures !GeoIp.Holds(index, code, addr) {
        CapitalCodeNeverMatches(index, list, code, addr);
      }
    }
  }

  /** The same for domains. */
  lemma {:induction false} SiteCaseExactly(index: GeoSite.Index, list: seq<GeoSite.Site>, code: Bytes, compile: GeoSite.Compiler)
    requires GeoSiteLoaded(index, list, compile)
    ensures (forall domain: Bytes ::
               GeoSite.Holds(index, code, domain) <==> GeoSite.Listed(list, GeoIp.Lower(code), domain, compile)) <==>
            (GeoIp.Lower(code) == code || forall domain: Bytes :: !GeoSite.Listed(list, GeoIp.Lower(code), domain, compile))
  {
    hide GeoSite.Holds, GeoIp.Lower;
    if GeoIp.Lower(code) != code {
      forall domain: Bytes ensures !GeoSite.Listed(list, code, domain, compile) {
        forall i | 0 <= i < |list| ensures GeoIp.Lower(list[i].code) != code {
          LowerTwice(list[i].code);
        }
      }
    }
  }

  // ---------------- a loaded router ----------------

  /** `Router::compile`, once the rules and the two data files have been parsed: its indexes are the loaded ones that
      the rewritings above speak of. */
  method Compile(rules: seq<Rule>, fallback: Bytes, sites: seq<GeoSite.Site>, entries: seq<GeoIp.Entry>,
                 compile: GeoSite.Compiler) returns (r: Router)
    requires LegalRules(rules) && GeoIp.LegalList(entries)
    ensures r.Valid() && r.rules == rules && r.defaultOutbound == fallback
    ensures var geo := r.Indexes();
            geo.site.Some? && GeoSiteLoaded(geo.site.value, sites, compile) && geo.ip.Some? && GeoIpLoaded(geo.ip.value, entries)
  {
    var site := new GeoSite.GeoSiteMatcher(compile);
    site.Load(sites);
    var ip := new GeoIp.GeoIpMatcher();
    ip.Load(entries);
    r := new Router(rules, fallback, site, ip);
  }
}
