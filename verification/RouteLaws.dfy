/** What routing rules mean, condition by condition, and laws of rule lists that follow (src/route/router.cpp). */
module RouteLaws {
  import opened Octets
  import opened Addresses
  import opened Cidrs
  import opened Router
  import GeoIp
  import GeoSite

  // ---------------- conditions ----------------

  datatype Condition = Name(domain: Bytes) | Suffix(suffix: Bytes) | Block(cidr: Cidr) | SiteCode(code: Bytes) | IpCode(code: Bytes)

  ghost predicate Lists(rule: Rule, c: Condition) {
    match c
    case Name(d) => d in rule.domainExact
    case Suffix(s) => s in rule.domainSuffix
    case Block(b) => b in rule.cidrs
    case SiteCode(code) => code in rule.geosite
    case IpCode(code) => code in rule.geoip
  }

  /** What one condition says about a request: names and suffixes about domains, blocks about addresses of their own
      family and bit by bit, codes through the index if there is one. A suffix brings its own dot or is given one. */
  ghost predicate Holds(c: Condition, req: Request, geo: Geo) {
    match c
    case Name(d) => req.target.Domain? && req.target.domain == d
    case Suffix(s) =>
      req.target.Domain? && s != [] &&
      (req.target.domain == s || GeoSite.EndsWith(req.target.domain, if s[0] == GeoSite.DOT then s else [GeoSite.DOT] + s))
    case Block(b) => !req.target.Domain? && Legal(b) && Contains(b, req.target.ip)
    case SiteCode(code) => req.target.Domain? && geo.site.Some? && GeoSite.Holds(geo.site.value, code, req.target.domain)
    case IpCode(code) => !req.target.Domain? && geo.ip.Some? && GeoIp.Holds(geo.ip.value, code, req.target.ip)
  }

  predicate Conditional(rule: Rule) {
    HasDomainPart(rule) || HasIpPart(rule)
  }

  predicate TagAgrees(rule: Rule, req: Request) {
    rule.inbound == None || rule.inbound == Some(req.inbound)
  }

  lemma {:induction false} SuffixMeaning(domain: Bytes, s: Bytes)
    requires s != []
    ensures GeoSite.EndsWithSuffix(domain, s) <==>
            domain == s || GeoSite.EndsWith(domain, if s[0] == GeoSite.DOT then s else [GeoSite.DOT] + s)
  {
    var n, m := |domain|, |s|;
    if GeoSite.EndsWith(domain, s) && n == m {
      assert domain == s;
    }
    if s[0] != GeoSite.DOT {
      var dotted := [GeoSite.DOT] + s;
      if n > m {
        assert domain[n - m - 1..] == [domain[n - m - 1]] + domain[n - m..];
        assert dotted[1..] == s && dotted[0] == GeoSite.DOT;
      }
    }
  }

  lemma {:induction false} DomainMeaning(rule: Rule, req: Request, geo: Geo)
    requires req.target.Domain?
    ensures DomainHit(rule, req.target.domain, geo.site) <==> exists c :: Lists(rule, c) && Holds(c, req, geo)
  {
    hide GeoSite.EndsWithSuffix, GeoSite.EndsWith, GeoSite.Holds;
    var d := req.target.domain;
    forall s | s in rule.domainSuffix ensures GeoSite.EndsWithSuffix(d, s) <==> Holds(Suffix(s), req, geo) {
      if s != [] {
        SuffixMeaning(d, s);
      } else {
        NoSuffix(d);
      }
    }
    if DomainHit(rule, d, geo.site) {
      if d in rule.domainExact {
        assert Lists(rule, Name(d)) && Holds(Name(d), req, geo);
      } else if exists i :: 0 <= i < |rule.domainSuffix| && GeoSite.EndsWithSuffix(d, rule.domainSuffix[i]) {
        var i :| 0 <= i < |rule.domainSuffix| && GeoSite.EndsWithSuffix(d, rule.domainSuffix[i]);
        assert Lists(rule, Suffix(rule.domainSuffix[i])) && Holds(Suffix(rule.domainSuffix[i]), req, geo);
      } else {
        var i :| 0 <= i < |rule.geosite| && GeoSite.Holds(geo.site.value, rule.geosite[i], d);
        assert Lists(rule, SiteCode(rule.geosite[i])) && Holds(SiteCode(rule.geosite[i]), req, geo);
      }
    }
  }

  lemma {:induction false} NoSuffix(domain: Bytes)
    ensures !GeoSite.EndsWithSuffix(domain, [])
  {
  }

  lemma {:induction false} BlockMeaning(b: Cidr, addr: Bytes)
    requires Legal(b)
    ensures RangeContains(b, addr) <==> Contains(b, addr)
  {
    if |addr| == |b.ip| {
      ThreeFormsAgree(b, addr);
    }
  }

  lemma {:induction false} IpMeaning(rule: Rule, req: Request, geo: Geo)
    requires LegalRule(rule) && !req.target.Domain?
    ensures IpHit(rule, req.target.ip, geo.ip) <==> exists c :: Lists(rule, c) && Holds(c, req, geo)
  {
    hide RangeContains, Contains, GeoIp.Holds;
    var addr := req.target.ip;
    forall b | b in rule.cidrs ensures Legal(b) && (RangeContains(b, addr) <==> Holds(Block(b), req, geo)) {
      BlockMeaning(b, addr);
    }
    if IpHit(rule, addr, geo.ip) {
      if exists i :: 0 <= i < |rule.cidrs| && RangeContains(rule.cidrs[i], addr) {
        var i :| 0 <= i < |rule.cidrs| && RangeContains(rule.cidrs[i], addr);
        assert Lists(rule, Block(rule.cidrs[i])) && Holds(Block(rule.cidrs[i]), req, geo);
      } else {
        var i :| 0 <= i < |rule.geoip| && GeoIp.Holds(geo.ip.value, rule.geoip[i], addr);
        assert Lists(rule, IpCode(rule.geoip[i])) && Holds(IpCode(rule.geoip[i]), req, geo);
      }
    }
  }

  /** A rule matches exactly when its inbound tag agrees and some condition that it lists holds; one that lists none
      matches exactly the inbound that it names. */
  lemma {:induction false} RuleMeaning(rule: Rule, req: Request, geo: Geo)
    requires LegalRule(rule)
    ensures Matches(rule, req, geo) <==>
            TagAgrees(rule, req) &&
            (if Conditional(rule) then exists c :: Lists(rule, c) && Holds(c, req, geo) else rule.inbound.Some?)
  {
    hide DomainHit, IpHit, Lists, Holds;
    if req.target.Domain? {
      DomainMeaning(rule, req, geo);
    } else {
      IpMeaning(rule, req, geo);
    }
  }

  // ---------------- tags ----------------

  /** The rules that a request from this inbound can match. */
  function Concerning(rules: seq<Rule>, inbound: Bytes): seq<Rule> {
    if rules == [] then []
    else (if rules[0].inbound == None || rules[0].inbound == Some(inbound) then [rules[0]] else []) + Concerning(rules[1..], inbound)
  }

  /** Rules without the tags that they do not need. */
  function Untagged(rules: seq<Rule>): seq<Rule> {
    if rules == [] then []
    else [if Conditional(rules[0]) then rules[0].(inbound := None) else rules[0]] + Untagged(rules[1..])
  }

  lemma {:induction false} PickCons(rule: Rule, rest: seq<Rule>, fallback: Bytes, req: Request, geo: Geo)
    requires LegalRule(rule) && LegalRules(rest)
    ensures LegalRules([rule] + rest)
    ensures Pick([rule] + rest, fallback, req, geo) == if Matches(rule, req, geo) then rule.outbound else Pick(rest, fallback, req, geo)
  {
    hide Matches;
    assert ([rule] + rest)[1..] == rest;
  }

  /** Rules for other inbounds may be deleted: no choice changes. */
  lemma {:induction false} OtherInboundsIgnored(rules: seq<Rule>, fallback: Bytes, req: Request, geo: Geo)
    requires LegalRules(rules)
    ensures LegalRules(Concerning(rules, req.inbound))
    ensures Pick(Concerning(rules, req.inbound), fallback, req, geo) == Pick(rules, fallback, req, geo)
  {
    hide Matches;
    if rules != [] {
      var rest := Concerning(rules[1..], req.inbound);
      OtherInboundsIgnored(rules[1..], fallback, req, geo);
      RuleMeaning(rules[0], req, geo);
      PickCons(rules[0], rest, fallback, req, geo);
      assert [] + rest == rest;
    }
  }

  /** And of the rest, every rule with a condition may lose its tag. */
  lemma {:induction false} TagsOnlySelect(rules: seq<Rule>, fallback: Bytes, req: Request, geo: Geo)
    requires LegalRules(rules)
    ensures var bare := Untagged(Concerning(rules, req.inbound));
            LegalRules(bare) && Pick(bare, fallback, req, geo) == Pick(rules, fallback, req, geo)
  {
    OtherInboundsIgnored(rules, fallback, req, geo);
    UntaggedAlike(Concerning(rules, req.inbound), fallback, req, geo);
    AllConcern(rules, req);
  }

  lemma {:induction false} AllConcern(rules: seq<Rule>, req: Request)
    ensures forall i :: 0 <= i < |Concerning(rules, req.inbound)| ==> TagAgrees(Concerning(rules, req.inbound)[i], req)
  {
    if rules != [] {
      AllConcern(rules[1..], req);
    }
  }

  lemma {:induction false} UntaggedAlike(rules: seq<Rule>, fallback: Bytes, req: Request, geo: Geo)
    requires LegalRules(rules)
    ensures LegalRules(Untagged(rules))
    ensures (forall i :: 0 <= i < |rules| ==> TagAgrees(rules[i], req)) ==>
              Pick(Untagged(rules), fallback, req, geo) == Pick(rules, fallback, req, geo)
  {
    hide Matches;
    if rules != [] {
      var first := if Conditional(rules[0]) then rules[0].(inbound := None) else rules[0];
      UntaggedAlike(rules[1..], fallback, req, geo);
      PickCons(first, Untagged(rules[1..]), fallback, req, geo);
      if TagAgrees(rules[0], req) && Conditional(rules[0]) {
        BareMatches(rules[0], req, geo);
      }
    }
  }

  lemma {:induction false} BareMatches(rule: Rule, req: Request, geo: Geo)
    requires LegalRule(rule) && TagAgrees(rule, req) && Conditional(rule)
    ensures Matches(rule.(inbound := None), req, geo) <==> Matches(rule, req, geo)
  {
    hide DomainHit, IpHit;
    SameHits(rule, req, geo);
  }

  lemma {:induction false} SameHits(rule: Rule, req: Request, geo: Geo)
    requires LegalRule(rule)
    ensures var bare := rule.(inbound := None);
            LegalRule(bare) && (req.target.Domain? ==> (DomainHit(bare, req.target.domain, geo.site) <==> DomainHit(rule, req.target.domain, geo.site))) &&
            (!req.target.Domain? ==> (IpHit(bare, req.target.ip, geo.ip) <==> IpHit(rule, req.target.ip, geo.ip)))
  {
    hide GeoSite.Holds, GeoIp.Holds, RangeContains, GeoSite.EndsWithSuffix;
  }

  // ---------------- one condition at a time ----------------

  /** The rule with a single one of its conditions. */
  function Only(rule: Rule, c: Condition): Rule {
    var bare := rule.(domainExact := {}, domainSuffix := [], cidrs := [], geoip := [], geosite := []);
    match c
    case Name(d) => bare.(domainExact := {d})
    case Suffix(s) => bare.(domainSuffix := [s])
    case Block(b) => bare.(cidrs := [b])
    case SiteCode(code) => bare.(geosite := [code])
    case IpCode(code) => bare.(geoip := [code])
  }

  function Singles(rule: Rule, cs: seq<Condition>): seq<Rule> {
    seq(|cs|, i requires 0 <= i < |cs| => Only(rule, cs[i]))
  }

  lemma {:induction false} OnlyMeans(rule: Rule, c: Condition, req: Request, geo: Geo)
    requires LegalRule(rule) && Lists(rule, c)
    ensures LegalRule(Only(rule, c)) && Only(rule, c).outbound == rule.outbound
    ensures Matches(Only(rule, c), req, geo) <==> TagAgrees(rule, req) && Holds(c, req, geo)
  {
    hide Matches, Holds;
    var one := Only(rule, c);
    RuleMeaning(one, req, geo);
    forall c' ensures Lists(one, c') <==> c' == c {
    }
    assert Conditional(one);
  }

  lemma {:induction false} PickSingles(rule: Rule, cs: seq<Condition>, after: seq<Rule>, fallback: Bytes, req: Request, geo: Geo)
    requires LegalRule(rule) && LegalRules(after) && forall i :: 0 <= i < |cs| ==> Lists(rule, cs[i])
    ensures LegalRules(Singles(rule, cs) + after)
    ensures Pick(Singles(rule, cs) + after, fallback, req, geo) ==
            if TagAgrees(rule, req) && exists i :: 0 <= i < |cs| && Holds(cs[i], req, geo) then rule.outbound
            else Pick(after, fallback, req, geo)
    decreases cs
  {
    hide Matches, Holds, Lists, Only, TagAgrees;
    if cs == [] {
      assert Singles(rule, cs) + after == after;
    } else {
      var rest := Singles(rule, cs[1..]) + after;
      OnlyMeans(rule, cs[0], req, geo);
      PickSingles(rule, cs[1..], after, fallback, req, geo);
      PickCons(Only(rule, cs[0]), rest, fallback, req, geo);
      assert Singles(rule, cs) + after == [Only(rule, cs[0])] + rest;
      assert (exists i :: 0 <= i < |cs| && Holds(cs[i], req, geo)) <==>
             Holds(cs[0], req, geo) || exists i :: 0 <= i < |cs[1..]| && Holds(cs[1..][i], req, geo) by {
        if i :| 0 <= i < |cs| && Holds(cs[i], req, geo) {
          if i > 0 {
            assert Holds(cs[1..][i - 1], req, geo);
          }
        }
        if i :| 0 <= i < |cs[1..]| && Holds(cs[1..][i], req, geo) {
          assert Holds(cs[i + 1], req, geo);
        }
      }
    }
  }

  /** A rule may be split: replaced, in any list, by one rule for each of its conditions, in any order. */
  lemma {:induction false} SplitKeepsPick(before: seq<Rule>, rule: Rule, cs: seq<Condition>, after: seq<Rule>,
                                          fallback: Bytes, req: Request, geo: Geo)
    requires LegalRules(before) && LegalRule(rule) && LegalRules(after) && Conditional(rule)
    requires forall c :: c in cs <==> Lists(rule, c)
    ensures LegalRules(before + ([rule] + after)) && LegalRules(before + (Singles(rule, cs) + after))
    ensures Pick(before + (Singles(rule, cs) + after), fallback, req, geo) == Pick(before + ([rule] + after), fallback, req, geo)
    decreases before
  {
    hide Matches, Holds, Lists, Only;
    if before == [] {
      assert forall i :: 0 <= i < |cs| ==> cs[i] in cs;
      PickSingles(rule, cs, after, fallback, req, geo);
      PickCons(rule, after, fallback, req, geo);
      RuleMeaning(rule, req, geo);
      assert (exists c :: Lists(rule, c) && Holds(c, req, geo)) <==> exists i :: 0 <= i < |cs| && Holds(cs[i], req, geo) by {
        if c :| Lists(rule, c) && Holds(c, req, geo) {
          var i :| 0 <= i < |cs| && cs[i] == c;
        }
      }
      assert [] + (Singles(rule, cs) + after) == Singles(rule, cs) + after && [] + ([rule] + after) == [rule] + after;
    } else {
      SplitKeepsPick(before[1..], rule, cs, after, fallback, req, geo);
      PickCons(before[0], before[1..] + (Singles(rule, cs) + after), fallback, req, geo);
      PickCons(before[0], before[1..] + ([rule] + after), fallback, req, geo);
      assert before + (Singles(rule, cs) + after) == [before[0]] + (before[1..] + (Singles(rule, cs) + after));
      assert before + ([rule] + after) == [before[0]] + (before[1..] + ([rule] + after));
    }
  }

  // ---------------- letter case ----------------

  /** Two letters that differ in case alone. */
  predicate SameLetter(a: Byte, b: Byte) {
    a == b || (65 <= a <= 90 && b == a + 32) || (65 <= b <= 90 && a == b + 32)
  }

  /** Lower-casing identifies exactly the codes that differ in the case of their letters, and leaves no capital. */
  lemma {:induction false} LowerExactly(a: Bytes, b: Bytes)
    ensures GeoIp.Lower(a) == GeoIp.Lower(b) <==> |a| == |b| && forall i :: 0 <= i < |a| ==> SameLetter(a[i], b[i])
    ensures GeoIp.Lower(a) == a <==> forall i :: 0 <= i < |a| ==> !(65 <= a[i] <= 90)
  {
    if GeoIp.Lower(a) == GeoIp.Lower(b) {
      assert |GeoIp.Lower(a)| == |a| && |GeoIp.Lower(b)| == |b|;
      forall i | 0 <= i < |a| ensures SameLetter(a[i], b[i]) {
        assert GeoIp.Lower(a)[i] == GeoIp.Lower(b)[i];
      }
    }
    if GeoIp.Lower(a) == a {
      forall i | 0 <= i < |a| ensures !(65 <= a[i] <= 90) {
        assert GeoIp.Lower(a)[i] == a[i];
      }
    }
  }
}
