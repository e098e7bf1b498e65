/** The no-proxy bypass list. IP address parsing is a parameter of the model. */
module NoProxy {
  import opened Strings
  import opened HostNames

  datatype Addr = Addr(bits: seq<bool>, zone: string)

  datatype Prefix = Prefix(width: nat, bits: seq<bool>)

  /** `netip.ParseAddr` and `netip.ParsePrefix`. */
  datatype Netip = Netip(parseAddr: string -> Option<Addr>, parsePrefix: string -> Option<Prefix>)

  datatype Kind =
    | All
    | CIDR(prefix: Prefix)
    | IP(ip: Addr)
    | Wildcard(suffix: string)
    | Hostname(host: string)

  datatype Rule = Rule(raw: string, kind: Kind)

  /** A wildcard suffix starts with its dot. */
  predicate WellFormed(r: Rule) {
    r.kind.Wildcard? ==> HasPrefix(r.kind.suffix, ".")
  }

  /** `netip.Prefix.Contains`: same address family, no zone, leading bits agree. */
  predicate InPrefix(p: Prefix, a: Addr) {
    a.zone == "" && |a.bits| == p.width && |p.bits| <= |a.bits| && a.bits[..|p.bits|] == p.bits
  }

  /** `noProxyRule.matches`. */
  predicate Matches(r: Rule, host: string, hostIP: Option<Addr>)
    requires WellFormed(r)
  {
    match r.kind
    case All => true
    case Hostname(h) => host == h
    case Wildcard(suffix) => host == suffix[1..] || HasSuffix(host, suffix)
    case IP(ip) => hostIP == Some(ip)
    case CIDR(prefix) => hostIP.Some? && InPrefix(prefix, hostIP.value)
  }

  /** The lower-cased host name `Match` compares the rules with. */
  function LookupName(host: string): string {
    ToLower(match SplitHostPort(host) case Some(hp) => hp.host case None => StripIPv6Brackets(host))
  }

  predicate RuleCovers(n: Netip, r: Rule, host: string)
    requires WellFormed(r)
  {
    Matches(r, LookupName(host), n.parseAddr(LookupName(host)))
  }

  datatype Matcher = Matcher(netip: Netip, rules: seq<Rule>) {
    predicate Valid() {
      forall r :: r in rules ==> WellFormed(r)
    }

    /** Some bypass pattern covers the host. */
    predicate Covers(host: string)
      requires Valid()
    {
      exists i :: 0 <= i < |rules| && RuleCovers(netip, rules[i], host)
    }

    /** `NoProxyMatcher.Match`: the scan stops at the first rule that covers the host. */
    method Match(host: string) returns (matched: bool, pattern: string)
      requires Valid()
      ensures matched <==> Covers(host)
      ensures matched ==> exists k :: 0 <= k < |rules| && pattern == rules[k].raw && RuleCovers(netip, rules[k], host)
                                      && forall j :: 0 <= j < k ==> !RuleCovers(netip, rules[j], host)
      ensures !matched ==> pattern == ""
    {
      var name := host;
      match SplitHostPort(host) {
        case Some(hp) => name := hp.host;
        case None => name := StripIPv6Brackets(host);
      }
      name := ToLower(name);
      var hostIP := netip.parseAddr(name);
      for i := 0 to |rules|
        invariant forall j :: 0 <= j < i ==> !RuleCovers(netip, rules[j], host)
      {
        if Matches(rules[i], name, hostIP) {
          return true, rules[i].raw;
        }
      }
      return false, "";
    }
  }

  // ---------------------------------------------------------- parsing the list

  /** `SplitCSV`: the trimmed, non-empty fields. */
  function SplitCSV(s: string): seq<string> {
    NonBlank(Split(s, ','))
  }

  function NonBlank(parts: seq<string>): seq<string> {
    if parts == [] then []
    else
      var p := TrimSpace(parts[|parts| - 1]);
      NonBlank(parts[..|parts| - 1]) + (if p == "" then [] else [p])
  }

  /** Some field says this, white space aside. */
  predicate Says(parts: seq<string>, pat: string) {
    exists j :: 0 <= j < |parts| && TrimSpace(parts[j]) == pat
  }

  /** A pattern is listed if and only if some field says it, and it says anything. */
  lemma {:induction false} ListedExactlyWhen(parts: seq<string>, pat: string)
    ensures pat in NonBlank(parts) <==> pat != "" && Says(parts, pat)
  {
    hide Says;
    if parts == [] {
      SaysNothing(pat);
    } else {
      var n := |parts| - 1;
      ListedExactlyWhen(parts[..n], pat);
      SaysLast(parts, pat);
    }
  }

  lemma {:induction false} SaysNothing(pat: string)
    ensures !Says([], pat)
  {}

  lemma {:induction false} SaysLast(parts: seq<string>, pat: string)
    requires parts != []
    ensures Says(parts, pat) <==> Says(parts[..|parts| - 1], pat) || TrimSpace(parts[|parts| - 1]) == pat
  {
    hide TrimSpace;
    var n := |parts| - 1;
    if Says(parts[..n], pat) {
      var j :| 0 <= j < n && TrimSpace(parts[..n][j]) == pat;
      assert TrimSpace(parts[j]) == pat;
    }
    if Says(parts, pat) {
      var j :| 0 <= j < |parts| && TrimSpace(parts[j]) == pat;
      if j < n { assert TrimSpace(parts[..n][j]) == pat; }
    }
  }

  /** The base domain of `*.base` or `.base`. */
  function WildcardBase(pat: string): Option<string> {
    var suffix := if HasPrefix(pat, "*") then pat[1..] else pat;
    if HasPrefix(suffix, ".") then Some(ToLower(suffix[1..])) else None
  }

  /** The classification of one pattern, in the order `NewNoProxyMatcher` tries the forms. */
  function Classify(n: Netip, pat: string): Rule {
    var suffix := if HasPrefix(pat, "*") then pat[1..] else pat;
    Rule(pat,
         if pat == "*" then All
         else if n.parsePrefix(pat).Some? then CIDR(n.parsePrefix(pat).value)
         else if n.parseAddr(pat).Some? then IP(n.parseAddr(pat).value)
         else if HasPrefix(suffix, ".") then Wildcard(ToLower(suffix))
         else Hostname(ToLower(pat)))
  }

  /** What a pattern means to its author: domains are compared label by label. */
  predicate PatternCovers(n: Netip, pat: string, name: string) {
    if pat == "*" then true
    else if n.parsePrefix(pat).Some? then
      n.parseAddr(name).Some? && InPrefix(n.parsePrefix(pat).value, n.parseAddr(name).value)
    else if n.parseAddr(pat).Some? then n.parseAddr(name) == n.parseAddr(pat)
    else if WildcardBase(pat).Some? then Within(name, WildcardBase(pat).value)
    else name == ToLower(pat)
  }

  /** The labels of the domain end the labels of the name. */
  predicate Within(name: string, domain: string) {
    var a, b := Split(name, '.'), Split(domain, '.');
    |b| <= |a| && a[|a| - |b|..] == b
  }

  method ClassifyPattern(n: Netip, pat: string) returns (rule: Rule)
    ensures rule == Classify(n, pat) && WellFormed(rule)
  {
    ClassifyWellFormed(n, pat);
    if pat == "*" {
      return Rule(pat, All);
    }
    var prefix := n.parsePrefix(pat);
    if prefix.Some? {
      return Rule(pat, CIDR(prefix.value));
    }
    var ip := n.parseAddr(pat);
    if ip.Some? {
      return Rule(pat, IP(ip.value));
    }
    var suffix := if HasPrefix(pat, "*") then pat[1..] else pat;
    if HasPrefix(suffix, ".") {
      return Rule(pat, Wildcard(ToLower(suffix)));
    }
    return Rule(pat, Hostname(ToLower(pat)));
  }

  /** `NewNoProxyMatcher`. */
  method NewMatcher(n: Netip, patterns: string) returns (m: Matcher)
    ensures m.Valid() && m.netip == n
    ensures |m.rules| == |SplitCSV(patterns)|
    ensures forall i :: 0 <= i < |m.rules| ==> m.rules[i] == Classify(n, SplitCSV(patterns)[i])
  {
    var pats := SplitCSV(patterns);
    var rules: seq<Rule> := [];
    for i := 0 to |pats|
      invariant |rules| == i
      invariant forall j :: 0 <= j < i ==> rules[j] == Classify(n, pats[j])
      invariant forall r :: r in rules ==> WellFormed(r)
    {
      var rule := ClassifyPattern(n, pats[i]);
      rules := rules + [rule];
    }
    m := Matcher(n, rules);
  }

  /** Lookup goes by the host alone, in lower case, whether or not a port is written with it. */
  lemma {:induction false} LookupIgnoresPort(h: string, hp: HostPort)
    requires Written(h, hp, "")
    ensures LookupName(h) == ToLower(hp.host)
  {
    DenotesAsWritten(h, hp, "");
  }

  /** A list covers a host exactly when one of its patterns means it to, ports aside. */
  lemma {:induction false} CoversMeansSomePattern(m: Matcher, pats: seq<string>, host: string, hp: HostPort)
    requires m.Valid() && |m.rules| == |pats|
    requires forall j :: 0 <= j < |pats| ==> m.rules[j] == Classify(m.netip, pats[j])
    requires Written(host, hp, "")
    ensures m.Covers(host) <==> exists pat :: pat in pats && PatternCovers(m.netip, pat, ToLower(hp.host))
  {
    hide PatternCovers, Classify, Matches, LookupName, Written;
    LookupIgnoresPort(host, hp);
    forall j | 0 <= j < |pats|
      ensures RuleCovers(m.netip, m.rules[j], host) <==> PatternCovers(m.netip, pats[j], LookupName(host))
    {
      ClassifyMeansPattern(m.netip, pats[j], LookupName(host));
    }
  }

  lemma {:induction false} ClassifyWellFormed(n: Netip, pat: string)
    ensures WellFormed(Classify(n, pat))
  {
    var suffix := if HasPrefix(pat, "*") then pat[1..] else pat;
    if HasPrefix(suffix, ".") {
      assert ToLower(suffix)[..1] == [LowerChar(suffix[0])] && suffix[..1] == [suffix[0]];
    }
  }

  /** A classified rule matches a name exactly when the pattern means it to. */
  lemma {:induction false} ClassifyMeansPattern(n: Netip, pat: string, name: string)
    ensures WellFormed(Classify(n, pat))
    ensures Matches(Classify(n, pat), name, n.parseAddr(name)) <==> PatternCovers(n, pat, name)
  {
    ClassifyWellFormed(n, pat);
    var r := Classify(n, pat);
    if r.kind.Wildcard? {
      var suffix := if HasPrefix(pat, "*") then pat[1..] else pat;
      var base := WildcardBase(pat).value;
      assert r.kind.suffix[1..] == base by { LowerSlice(suffix, 1, |suffix|); }
      assert r.kind.suffix == "." + base by { assert r.kind.suffix[..1] == "."; }
      WithinIsSuffix(name, base);
    }
  }

  /** The suffix test of a wildcard rule never cuts a label in two. */
  lemma {:induction false} WithinIsSuffix(name: string, base: string)
    ensures Within(name, base) <==> name == base || HasSuffix(name, "." + base)
  {
    if HasSuffix(name, "." + base) {
      SuffixIsWithin(name, base);
    }
    if Within(name, base) {
      WithinIsTail(name, base);
    }
  }

  lemma {:induction false} SuffixIsWithin(name: string, base: string)
    requires HasSuffix(name, "." + base)
    ensures Within(name, base)
  {
    var pre := name[..|name| - |base| - 1];
    assert name == pre + ['.'] + base;
    SplitConcat(pre, base, '.');
  }

  lemma {:induction false} WithinIsTail(name: string, base: string)
    requires Within(name, base)
    ensures name == base || HasSuffix(name, "." + base)
  {
    var a, b := Split(name, '.'), Split(base, '.');
    JoinSplit(name, '.');
    JoinSplit(base, '.');
    TailOfJoin(a, b, |a| - |b|);
  }

  lemma {:induction false} TailOfJoin(a: seq<string>, b: seq<string>, n: nat)
    requires b != [] && n < |a| && a[n..] == b
    ensures Join(a, '.') == Join(b, '.') || HasSuffix(Join(a, '.'), "." + Join(b, '.'))
  {
    assert a == a[..n] + b;
    if n > 0 {
      JoinConcat(a[..n], b, '.');
      EndsIn(Join(a[..n], '.'), "." + Join(b, '.'), Join(a, '.'));
    }
  }

  lemma {:induction false} EndsIn(x: string, y: string, s: string)
    requires s == x + y
    ensures HasSuffix(s, y)
  {}

  // ------------------------------------------------------------- host identity

  /** A direct connection never consults the matcher again after the first request; it does
      not have to: requests that share its host are covered exactly when the first one was. */
  lemma {:induction false} SameHostSameMatch(m: Matcher, a: string, b: string)
    requires m.Valid() && Trimmed(a) && Trimmed(b)
    requires SameHost(a, b, "80")
    ensures m.Covers(a) == m.Covers(b)
  {
    SameHostSameName(a, b);
    forall i | 0 <= i < |m.rules| ensures RuleCovers(m.netip, m.rules[i], a) == RuleCovers(m.netip, m.rules[i], b) {}
  }

  lemma {:induction false} SameHostSameName(a: string, b: string)
    requires Trimmed(a) && Trimmed(b) && SameHost(a, b, "80")
    ensures LookupName(a) == LookupName(b)
  {
    assert ToLower("80") == "80";
    SameHostMeansSameTarget(a, b, "80");
  }

  /** The rules give two hosts the same verdict. */
  ghost predicate Agree(n: Netip, rules: seq<Rule>, a: string, b: string) {
    var m := Matcher(n, rules);
    m.Valid() ==> m.Covers(a) == m.Covers(b)
  }

  /** For any two hosts, trimmed or not: every list gives them the same verdict if and only if they
      have the same lookup name. */
  lemma {:induction false} AgreeExactlyWhen(n: Netip, a: string, b: string)
    ensures (forall rules :: Agree(n, rules, a, b)) <==> LookupName(a) == LookupName(b)
  {
    hide LookupName;
    var name := LookupName(a);
    var rules := [Rule(name, Hostname(name))];
    var m := Matcher(n, rules);
    assert m.Valid() && RuleCovers(n, m.rules[0], a);
    assert RuleCovers(n, m.rules[0], b) <==> LookupName(b) == name;
    assert Agree(n, rules, a, b) ==> LookupName(b) == name;
    if LookupName(b) == name {
      forall rs ensures Agree(n, rs, a, b) {
        forall i | 0 <= i < |rs| && WellFormed(rs[i]) ensures RuleCovers(n, rs[i], a) == RuleCovers(n, rs[i], b) {}
      }
    }
  }

  /** Without the trimming that header parsing does, `sameHost` would not be enough for that. */
  lemma {:induction false} UntrimmedHostsDisagree()
    ensures SameHost(" a", "a", "80") && LookupName(" a") != LookupName("a")
  {
    assert TrimSpace(" a") == "a" by { assert " a"[1..] == "a"; }
    assert SplitHostPort("a").None? && SplitHostPort(" a").None?;
    assert ToLower("a") == "a" && ToLower(" a") == " a";
  }
}
