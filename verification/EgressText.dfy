/** The texts of the egress policy: the ACL block of a Hysteria configuration and the policy line
    of the panel's environment file, as hy2panel/operations.py reads and rewrites them. A text is
    a decoded file; a file that is no UTF-8 is refused before any of this. */
module EgressText {
  import opened Decimals
  import opened Wrappers

  datatype Policy = Web | Full

  // Finding lines.

  predicate LineStart(s: string, p: nat)
    requires p <= |s|
  {
    p == 0 || s[p - 1] == '\n'
  }

  predicate Prefix(s: string, p: nat, m: string)
    requires p <= |s|
  {
    p + |m| <= |s| && s[p..p + |m|] == m
  }

  /** The regular expression ^m in multi-line mode matches at p. */
  predicate Occurs(s: string, m: string, p: nat) {
    p <= |s| && LineStart(s, p) && Prefix(s, p, m)
  }

  /** All matches from p on, as finditer yields them. */
  function Scan(s: string, m: string, p: nat): seq<nat>
    requires p <= |s|
    decreases |s| - p
  {
    var rest := if p == |s| then [] else Scan(s, m, p + 1);
    if Occurs(s, m, p) then [p] + rest else rest
  }

  ghost predicate Unique(s: string, m: string, p: nat) {
    Occurs(s, m, p) && forall q: nat :: Occurs(s, m, q) ==> q == p
  }

  lemma {:induction false} ScanFinds(s: string, m: string, p: nat, q: nat)
    requires p <= |s|
    ensures q in Scan(s, m, p) <==> p <= q && Occurs(s, m, q)
    decreases |s| - p
  {
    if p < |s| { ScanFinds(s, m, p + 1, q); }
  }

  lemma {:induction false} ScanOnly(s: string, m: string, p: nat, k: nat)
    requires Unique(s, m, p) && k <= |s|
    ensures Scan(s, m, k) == if k <= p then [p] else []
    decreases |s| - k
  {
    if k < |s| { ScanOnly(s, m, p, k + 1); }
  }

  lemma ScanUnique(s: string, m: string, p: nat)
    ensures Scan(s, m, 0) == [p] <==> Unique(s, m, p)
  {
    if Unique(s, m, p) { ScanOnly(s, m, p, 0); }
    if Scan(s, m, 0) == [p] {
      ScanFinds(s, m, 0, p);
      forall q: nat | Occurs(s, m, q) ensures q == p { ScanFinds(s, m, 0, q); }
    }
  }

  /** A marker is one whole line: its newline is its last character. */
  predicate Marker(m: string) {
    |m| >= 2 && m[|m| - 1] == '\n' && forall i :: 0 <= i < |m| - 1 ==> m[i] != '\n'
  }

  predicate WholeLines(s: string) {
    s == "" || s[|s| - 1] == '\n'
  }

  lemma MarkerEnd(s: string, m: string, p: nat, k: nat)
    requires Marker(m) && p <= k < p + |m| && p <= |s| && Prefix(s, p, m) && s[k] == '\n'
    ensures k == p + |m| - 1
  {
    assert s[p..p + |m|][k - p] == m[k - p];
  }

  lemma SliceLeft(x: string, y: string, p: nat, q: nat)
    requires p <= q <= |x|
    ensures (x + y)[p..q] == x[p..q]
  {
  }

  /** Where whole lines end, matches never cross. */
  lemma OccursConcat(x: string, y: string, m: string, p: nat)
    requires Marker(m) && WholeLines(x)
    ensures p < |x| ==> (Occurs(x + y, m, p) <==> Occurs(x, m, p))
    ensures p >= |x| ==> (Occurs(x + y, m, p) <==> Occurs(y, m, p - |x|))
  {
    var s := x + y;
    if p < |x| {
      if Occurs(s, m, p) {
        if p + |m| >= |x| { MarkerEnd(s, m, p, |x| - 1); }
        SliceLeft(x, y, p, p + |m|);
      }
      if Occurs(x, m, p) { SliceLeft(x, y, p, p + |m|); }
    } else {
      var q := p - |x|;
      if q <= |y| && q + |m| <= |y| { assert y[q..q + |m|] == s[p..p + |m|]; }
      if q <= |y| { assert LineStart(s, p) <==> LineStart(y, q); }
    }
  }

  ghost predicate Nowhere(s: string, m: string) {
    forall p: nat :: !Occurs(s, m, p)
  }

  // The ACL block.

  const COMMON_RULES: seq<string> := [
    "reject(0.0.0.0/8)",
    "reject(127.0.0.0/8)",
    "reject(10.0.0.0/8)",
    "reject(100.64.0.0/10)",
    "reject(169.254.0.0/16)",
    "reject(172.16.0.0/12)",
    "reject(192.168.0.0/16)",
    "reject(224.0.0.0/4)",
    "reject(240.0.0.0/4)",
    "reject(::/128)",
    "reject(::1/128)",
    "reject(fc00::/7)",
    "reject(fe80::/10)",
    "reject(ff00::/8)"
  ]

  const ACL := "acl:\n"
  const MASQUERADE := "masquerade:\n"

  predicate ValidPort(port: int) {
    1 <= port <= 65535
  }

  function Rules(policy: Policy, port: nat): seq<string> {
    COMMON_RULES +
    match policy
    case Web => [
      "direct(all, tcp/22)",
      "direct(all, tcp/" + Decimal(port) + ")",
      "direct(all, tcp/53)",
      "direct(all, udp/53)",
      "direct(all, tcp/80)",
      "direct(all, tcp/443)",
      "direct(all, udp/443)",
      "direct(all, udp/123)",
      "reject(all)"]
    case Full => ["direct(all)"]
  }

  function RuleLine(rule: string): string {
    "    - \"" + rule + "\"\n"
  }

  function RuleLines(rules: seq<string>): string {
    if rules == [] then "" else RuleLine(rules[0]) + RuleLines(rules[1..])
  }

  function AclBlock(policy: Policy, port: nat): string {
    ACL + ("  inline:\n" + RuleLines(Rules(policy, port)))
  }

  datatype Span = Span(acl: nat, tail: nat)

  /** The positions of the acl and masquerade lines of a configuration laid out as expected. */
  function Layout(source: string): Option<Span> {
    var acl, masquerade := Scan(source, ACL, 0), Scan(source, MASQUERADE, 0);
    if |acl| != 1 || |masquerade| != 1 || acl[0] >= masquerade[0] then None
    else Some(Span(acl[0], masquerade[0]))
  }

  function ReplaceAcl(source: string, policy: Policy, port: int): Option<string> {
    var layout := Layout(source);
    if layout.None? || !ValidPort(port) then None
    else
      LayoutInside(source);
      Some(source[..layout.value.acl] + AclBlock(policy, port) + source[layout.value.tail..])
  }

  /** The one policy whose rewrite leaves the configuration as it is; the outer None models the
      exception for an unexpected layout. */
  function PolicyFromConfig(source: string, port: int): Option<Option<Policy>> {
    var web, full := ReplaceAcl(source, Web, port), ReplaceAcl(source, Full, port);
    if web.None? || full.None? then None
    else if web.value == source && full.value != source then Some(Some(Web))
    else if full.value == source && web.value != source then Some(Some(Full))
    else Some(None)
  }

  lemma LayoutMeans(source: string, a: nat, m: nat)
    ensures Layout(source) == Some(Span(a, m)) <==> Unique(source, ACL, a) && Unique(source, MASQUERADE, m) && a < m
  {
    ScanUnique(source, ACL, a);
    ScanUnique(source, MASQUERADE, m);
  }

  lemma LayoutInside(source: string)
    requires Layout(source).Some?
    ensures var a, m := Layout(source).value.acl, Layout(source).value.tail;
            a < m <= |source| && WholeLines(source[..a]) && WholeLines(source[..m])
            && Unique(source, ACL, a) && Unique(source, MASQUERADE, m)
  {
    var a, m := Layout(source).value.acl, Layout(source).value.tail;
    LayoutMeans(source, a, m);
  }

  // What the block contains.

  /** A text of indented lines. */
  ghost predicate Indented(s: string) {
    forall p :: 0 <= p < |s| && LineStart(s, p) ==> s[p] == ' '
  }

  lemma PrefixHead(s: string, m: string, p: nat)
    requires p <= |s| && Prefix(s, p, m) && m != ""
    ensures s[p] == m[0]
  {
    assert s[p..p + |m|][0] == s[p];
  }

  lemma IndentedNowhere(s: string, m: string)
    requires Indented(s) && Marker(m) && m[0] != ' '
    ensures Nowhere(s, m)
  {
    forall p: nat ensures !Occurs(s, m, p) {
      if p <= |s| && Prefix(s, p, m) { PrefixHead(s, m, p); }
    }
  }

  lemma IndentedConcat(x: string, y: string)
    requires Indented(x) && Indented(y) && WholeLines(x) && WholeLines(y)
    ensures Indented(x + y) && WholeLines(x + y)
  {
  }

  predicate OneLine(s: string) {
    '\n' !in s
  }

  lemma {:induction false} RuleLinesIndented(rules: seq<string>)
    requires forall r :: r in rules ==> OneLine(r)
    ensures Indented(RuleLines(rules)) && WholeLines(RuleLines(rules))
  {
    if rules != [] {
      assert rules[0] in rules;
      RuleLineIndented(rules[0]);
      RuleLinesIndented(rules[1..]);
      IndentedConcat(RuleLine(rules[0]), RuleLines(rules[1..]));
    }
  }

  lemma RuleLineIndented(rule: string)
    requires OneLine(rule)
    ensures Indented(RuleLine(rule)) && WholeLines(RuleLine(rule))
  {
  }

  lemma {:induction false} DecimalOneLine(n: nat)
    ensures OneLine(Decimal(n))
  {
    if n >= 10 { DecimalOneLine(n / 10); }
  }

  lemma RulesOneLine(policy: Policy, port: nat)
    ensures forall r :: r in Rules(policy, port) ==> OneLine(r)
  {
    DecimalOneLine(port);
    CommonOneLine();
  }

  lemma CommonOneLine()
    ensures forall r :: r in COMMON_RULES ==> OneLine(r)
  {
  }

  lemma MarkersWhole()
    ensures Marker(ACL) && Marker(MASQUERADE)
  {
  }

  /** The block has exactly one acl line, its first, no masquerade line, and ends a line. */
  lemma BlockLines(policy: Policy, port: nat)
    ensures WholeLines(AclBlock(policy, port))
    ensures Unique(AclBlock(policy, port), ACL, 0)
    ensures Nowhere(AclBlock(policy, port), MASQUERADE)
  {
    hide Rules;
    var body := "  inline:\n" + RuleLines(Rules(policy, port));
    RulesOneLine(policy, port);
    RuleLinesIndented(Rules(policy, port));
    IndentedConcat("  inline:\n", RuleLines(Rules(policy, port)));
    IndentedNowhere(body, ACL);
    IndentedNowhere(body, MASQUERADE);
    forall p: nat ensures Occurs(ACL + body, ACL, p) <==> p == 0 {
      OccursConcat(ACL, body, ACL, p);
      AclAlone(p);
    }
    forall p: nat ensures !Occurs(ACL + body, MASQUERADE, p) {
      OccursConcat(ACL, body, MASQUERADE, p);
      AclAlone(p);
    }
  }

  lemma AclAlone(p: nat)
    ensures Occurs(ACL, ACL, p) <==> p == 0
    ensures !Occurs(ACL, MASQUERADE, p)
  {
    MarkersWhole();
    MarkerAlone(ACL, ACL, p);
    MarkerAlone(ACL, MASQUERADE, p);
  }

  /** Among whole lines, a marker is found only where its own line is. */
  lemma MarkerAlone(line: string, m: string, p: nat)
    requires Marker(line) && Marker(m)
    ensures Occurs(line, m, p) <==> p == 0 && line == m
  {
    if p + |m| <= |line| && p < |line| && Prefix(line, p, m) {
      assert line[p..p + |m|][|m| - 1] == line[p + |m| - 1];
    }
    if line == m { assert line[0..|m|] == line; }
  }

  // The lens laws.

  /** Rewriting keeps the layout: the block starts where it did, the tail follows it. */
  lemma LayoutKept(source: string, policy: Policy, port: int)
    requires Layout(source).Some? && ValidPort(port)
    ensures ReplaceAcl(source, policy, port).Some?
    ensures var a := Layout(source).value.acl;
            Layout(ReplaceAcl(source, policy, port).value) == Some(Span(a, a + |AclBlock(policy, port)|))
  {
    hide AclBlock, Scan, Layout, ReplaceAcl;
    LayoutInside(source);
    var a, m := Layout(source).value.acl, Layout(source).value.tail;
    Replaced(source, policy, port);
    BlockLines(policy, port);
    BlockSize(policy, port);
    SplitAcl(source, AclBlock(policy, port), a, m);
    SplitMasquerade(source, AclBlock(policy, port), a, m);
    LayoutMeans(source[..a] + AclBlock(policy, port) + source[m..], a, a + |AclBlock(policy, port)|);
  }

  /** A marker in a text whose middle was replaced: as before in the first part, in the new middle,
      or as before in the rest. */
  lemma Spliced(source: string, b: string, a: nat, m: nat, marker: string, p: nat)
    requires a < m <= |source| && WholeLines(source[..a]) && WholeLines(source[..m]) && WholeLines(b) && Marker(marker)
    ensures var now := Occurs(source[..a] + b + source[m..], marker, p);
            && (p < a ==> (now <==> Occurs(source, marker, p)))
            && (a <= p < a + |b| ==> (now <==> Occurs(b, marker, p - a)))
            && (p >= a + |b| ==> (now <==> Occurs(source, marker, p - a - |b| + m)))
  {
    hide Occurs, WholeLines, Marker;
    var x, y := source[..a], source[m..];
    assert source == x + source[a..] && source == source[..m] + y;
    ThreeParts(x, b, y, marker, p);
    if p < a { OccursConcat(x, source[a..], marker, p); }
    if p >= a + |b| { OccursConcat(source[..m], y, marker, p - a - |b| + m); }
  }

  lemma SplitAcl(source: string, b: string, a: nat, m: nat)
    requires a < m <= |source| && WholeLines(source[..a]) && WholeLines(source[..m]) && WholeLines(b)
    requires Unique(source, ACL, a) && Unique(b, ACL, 0) && |b| > 0
    ensures Unique(source[..a] + b + source[m..], ACL, a)
  {
    MarkersWhole();
    hide Occurs, WholeLines, Marker;
    forall p: nat ensures Occurs(source[..a] + b + source[m..], ACL, p) <==> p == a {
      Spliced(source, b, a, m, ACL, p);
    }
  }

  lemma SplitMasquerade(source: string, b: string, a: nat, m: nat)
    requires a < m <= |source| && WholeLines(source[..a]) && WholeLines(source[..m]) && WholeLines(b)
    requires Unique(source, MASQUERADE, m) && Nowhere(b, MASQUERADE)
    ensures Unique(source[..a] + b + source[m..], MASQUERADE, a + |b|)
  {
    MarkersWhole();
    hide Occurs, WholeLines, Marker;
    forall p: nat ensures Occurs(source[..a] + b + source[m..], MASQUERADE, p) <==> p == a + |b| {
      Spliced(source, b, a, m, MASQUERADE, p);
    }
  }

  lemma BlockSize(policy: Policy, port: nat)
    ensures |AclBlock(policy, port)| > 0
  {
  }

  lemma ThreeParts(x: string, b: string, y: string, m: string, p: nat)
    requires Marker(m) && WholeLines(x) && WholeLines(b)
    ensures p < |x| ==> (Occurs(x + b + y, m, p) <==> Occurs(x, m, p))
    ensures |x| <= p < |x| + |b| ==> (Occurs(x + b + y, m, p) <==> Occurs(b, m, p - |x|))
    ensures p >= |x| + |b| ==> (Occurs(x + b + y, m, p) <==> Occurs(y, m, p - |x| - |b|))
  {
    OccursConcat(x + b, y, m, p);
    OccursConcat(x, b, m, p);
  }

  lemma Replaced(source: string, policy: Policy, port: int)
    requires Layout(source).Some? && ValidPort(port)
    ensures var a, m := Layout(source).value.acl, Layout(source).value.tail;
            && a < m <= |source|
            && ReplaceAcl(source, policy, port) == Some(source[..a] + AclBlock(policy, port) + source[m..])
  {
    LayoutInside(source);
  }

  /** Outside the block the text is unchanged: before the acl line, and from the masquerade line on. */
  lemma OutsideKept(source: string, policy: Policy, port: int)
    requires Layout(source).Some? && ValidPort(port)
    ensures ReplaceAcl(source, policy, port).Some? && Layout(ReplaceAcl(source, policy, port).value).Some?
    ensures var written := ReplaceAcl(source, policy, port).value;
            var before, now := Layout(source).value, Layout(written).value;
            && now.acl < now.tail <= |written| && before.acl < before.tail <= |source|
            && written[..now.acl] == source[..before.acl] && written[now.tail..] == source[before.tail..]
            && written[now.acl..now.tail] == AclBlock(policy, port)
  {
    hide AclBlock, Scan, Layout, ReplaceAcl;
    LayoutKept(source, policy, port);
    LayoutInside(source);
    LayoutInside(ReplaceAcl(source, policy, port).value);
    Replaced(source, policy, port);
    Parts(source[..Layout(source).value.acl], AclBlock(policy, port), source[Layout(source).value.tail..]);
  }

  lemma Parts(x: string, b: string, y: string)
    ensures (x + b + y)[..|x|] == x && (x + b + y)[|x|..|x| + |b|] == b && (x + b + y)[|x| + |b|..] == y
  {
  }

  /** A second rewrite overrides the first. */
  lemma RewriteOverrides(source: string, first: Policy, firstPort: int, second: Policy, secondPort: int)
    requires Layout(source).Some? && ValidPort(firstPort) && ValidPort(secondPort)
    ensures ReplaceAcl(source, first, firstPort).Some?
    ensures ReplaceAcl(ReplaceAcl(source, first, firstPort).value, second, secondPort)
         == ReplaceAcl(source, second, secondPort)
  {
    hide AclBlock, Scan, Layout, ReplaceAcl;
    LayoutKept(source, first, firstPort);
    Replaced(source, first, firstPort);
    Replaced(source, second, secondPort);
    var once := ReplaceAcl(source, first, firstPort).value;
    Replaced(once, second, secondPort);
    var a, m := Layout(source).value.acl, Layout(source).value.tail;
    var b := AclBlock(first, firstPort);
    assert once[..a] == source[..a];
    assert once[a + |b|..] == source[m..];
  }

  lemma PoliciesDiffer(port: nat)
    ensures AclBlock(Web, port) != AclBlock(Full, port)
  {
    var common, web := COMMON_RULES, Rules(Web, port)[|COMMON_RULES|..];
    assert Rules(Web, port) == common + web && web[0] == "direct(all, tcp/22)";
    PolicySizes(common, web);
  }

  lemma PolicySizes(common: seq<string>, web: seq<string>)
    requires web != [] && web[0] == "direct(all, tcp/22)"
    ensures |RuleLines(common + web)| > |RuleLines(common + ["direct(all)"])|
  {
    var full := ["direct(all)"];
    RuleLinesAppend(common, web);
    RuleLinesAppend(common, full);
    assert full[0] == "direct(all)" && full[1..] == [];
    assert RuleLines(full) == RuleLine(full[0]) + RuleLines(full[1..]);
    assert RuleLines(web) == RuleLine(web[0]) + RuleLines(web[1..]);
  }

  lemma {:induction false} RuleLinesAppend(a: seq<string>, b: seq<string>)
    ensures RuleLines(a + b) == RuleLines(a) + RuleLines(b)
  {
    if a == [] {
      assert a + b == b;
    } else {
      assert (a + b)[1..] == a[1..] + b;
      RuleLinesAppend(a[1..], b);
    }
  }

  /** Reading back what was written gives the written policy, for both policies and every port. */
  lemma ReadsBack(source: string, policy: Policy, port: int)
    requires Layout(source).Some? && ValidPort(port)
    ensures ReplaceAcl(source, policy, port).Some?
    ensures PolicyFromConfig(ReplaceAcl(source, policy, port).value, port) == Some(Some(policy))
  {
    hide AclBlock, Scan, Layout, ReplaceAcl;
    RewriteOverrides(source, policy, port, Web, port);
    RewriteOverrides(source, policy, port, Full, port);
    Replaced(source, Web, port);
    Replaced(source, Full, port);
    PoliciesDiffer(port);
    var a, m := Layout(source).value.acl, Layout(source).value.tail;
    MiddleDiffers(source[..a], AclBlock(Web, port), AclBlock(Full, port), source[m..]);
  }

  /** A rewrite is refused exactly for an unexpected layout or an invalid port. */
  lemma RewriteRefused(source: string, policy: Policy, port: int)
    ensures ReplaceAcl(source, policy, port).None? <==>
      !ValidPort(port)
      || !exists a: nat, m: nat :: a < m && Unique(source, ACL, a) && Unique(source, MASQUERADE, m)
  {
    if exists a: nat, m: nat :: a < m && Unique(source, ACL, a) && Unique(source, MASQUERADE, m) {
      var a: nat, m: nat :| a < m && Unique(source, ACL, a) && Unique(source, MASQUERADE, m);
      LayoutMeans(source, a, m);
    }
    if Layout(source).Some? { LayoutInside(source); }
  }

  lemma MiddleDiffers(x: string, b: string, c: string, y: string)
    requires b != c
    ensures x + b + y != x + c + y
  {
    if x + b + y == x + c + y { MiddleSame(x, b, c, y); }
  }

  lemma MiddleSame(x: string, b: string, c: string, y: string)
    requires x + b + y == x + c + y
    ensures b == c
  {
    assert b == (x + b + y)[|x|..|x| + |b|] && c == (x + c + y)[|x|..|x| + |c|];
    assert |x + b + y| == |x| + |b| + |y| && |x + c + y| == |x| + |c| + |y|;
  }

  /** A configuration reads as a policy exactly if it is what writing that policy gives: whatever
      text the policy was written into, the result reads as it; and a text that reads as it is such
      a result, namely of itself. */
  lemma ReadsOnlyWritten(source: string, original: string, policy: Policy, port: int)
    ensures ReplaceAcl(original, policy, port) == Some(source) ==> PolicyFromConfig(source, port) == Some(Some(policy))
    ensures PolicyFromConfig(source, port) == Some(Some(policy)) ==> ReplaceAcl(source, policy, port) == Some(source)
  {
    hide AclBlock, Scan, Layout, ReplaceAcl;
    if ReplaceAcl(original, policy, port) == Some(source) {
      RewriteNeeds(original, policy, port);
      ReadsBack(original, policy, port);
    }
  }

  lemma RewriteNeeds(source: string, policy: Policy, port: int)
    requires ReplaceAcl(source, policy, port).Some?
    ensures Layout(source).Some? && ValidPort(port)
  {
  }

  // The policy line of the environment file.

  const KEY := "HY2PANEL_EGRESS_POLICY="

  function Value(policy: Policy): string {
    if policy == Web then "web" else "full"
  }

  /** The line with its end; at the end of the text a line may lack its newline. */
  function EnvLine(policy: Policy): string {
    KEY + Value(policy) + "\n"
  }

  /** The one policy line of the text; None models the exception. */
  function FindPolicy(source: string): Option<(nat, Policy)> {
    var web, full := Scan(source + "\n", EnvLine(Web), 0), Scan(source + "\n", EnvLine(Full), 0);
    if |web| + |full| != 1 then None
    else if |web| == 1 then Some((web[0], Web)) else Some((full[0], Full))
  }

  function PolicyFromEnv(source: string): Option<Policy> {
    var found := FindPolicy(source);
    if found.None? then None else Some(found.value.1)
  }

  function ReplacePolicy(source: string, policy: Policy): Option<string> {
    var found := FindPolicy(source);
    if found.None? then None
    else
      var (p, current) := found.value;
      PolicyInside(source, p, current);
      Some(source[..p] + (KEY + Value(policy)) + source[p + |KEY + Value(current)|..])
  }

  function Other(policy: Policy): Policy {
    if policy == Web then Full else Web
  }

  lemma EnvLinesWhole()
    ensures Marker(EnvLine(Web)) && Marker(EnvLine(Full)) && EnvLine(Web) != EnvLine(Full)
  {
  }

  lemma FoundMeans(source: string, p: nat, policy: Policy)
    ensures FindPolicy(source) == Some((p, policy)) <==>
            Unique(source + "\n", EnvLine(policy), p) && Nowhere(source + "\n", EnvLine(Other(policy)))
  {
    hide EnvLine;
    var s, mine, other := source + "\n", EnvLine(policy), EnvLine(Other(policy));
    ScanUnique(s, mine, p);
    ScanEmpty(s, other);
  }

  lemma ScanEmpty(s: string, m: string)
    ensures Scan(s, m, 0) == [] <==> Nowhere(s, m)
  {
    var found := Scan(s, m, 0);
    forall p: nat ensures p in found <==> Occurs(s, m, p) { ScanFinds(s, m, 0, p); }
    if found != [] { assert found[0] in found; }
  }

  lemma PolicyInside(source: string, p: nat, policy: Policy)
    requires FindPolicy(source) == Some((p, policy))
    ensures p + |EnvLine(policy)| <= |source| + 1 && p <= |source| && WholeLines(source[..p])
    ensures source + "\n" == source[..p] + EnvLine(policy) + (source + "\n")[p + |EnvLine(policy)|..]
  {
    FoundMeans(source, p, policy);
    InThree(source + "\n", p, p + |EnvLine(policy)|);
    BeforeNewline(source, p);
  }

  lemma InThree(s: string, i: nat, j: nat)
    requires i <= j <= |s|
    ensures s == s[..i] + s[i..j] + s[j..]
  {
  }

  lemma BeforeNewline(source: string, p: nat)
    requires p <= |source|
    ensures (source + "\n")[..p] == source[..p]
  {
  }

  /** Exchanging one policy line for another leaves that line as the only one. */
  lemma PolicyExchanged(x: string, y: string, p: Policy, q: Policy)
    requires WholeLines(x)
    requires Unique(x + EnvLine(p) + y, EnvLine(p), |x|) && Nowhere(x + EnvLine(p) + y, EnvLine(Other(p)))
    ensures Unique(x + EnvLine(q) + y, EnvLine(q), |x|) && Nowhere(x + EnvLine(q) + y, EnvLine(Other(q)))
  {
    EnvLinesWhole();
    forall k: nat, v: Policy ensures Occurs(x + EnvLine(q) + y, EnvLine(v), k) <==> k == |x| && v == q {
      PolicyAt(x, y, p, q, k, v);
    }
  }

  lemma PolicyAt(x: string, y: string, p: Policy, q: Policy, k: nat, v: Policy)
    requires WholeLines(x)
    requires Unique(x + EnvLine(p) + y, EnvLine(p), |x|) && Nowhere(x + EnvLine(p) + y, EnvLine(Other(p)))
    ensures Occurs(x + EnvLine(q) + y, EnvLine(v), k) <==> k == |x| && v == q
  {
    EnvLinesWhole();
    hide EnvLine, Occurs;
    assert forall i: nat :: i != |x| ==> !Occurs(x + EnvLine(p) + y, EnvLine(v), i);
    ThreeParts(x, EnvLine(q), y, EnvLine(v), k);
    if k < |x| {
      ThreeParts(x, EnvLine(p), y, EnvLine(v), k);
    } else if k < |x| + |EnvLine(q)| {
      MarkerAlone(EnvLine(q), EnvLine(v), k - |x|);
    } else {
      var j := k - |EnvLine(q)| + |EnvLine(p)|;
      ThreeParts(x, EnvLine(p), y, EnvLine(v), j);
    }
  }

  /** The rewritten text, with the newline that ends its last line. */
  lemma PolicyWritten(source: string, p: nat, current: Policy, policy: Policy)
    requires FindPolicy(source) == Some((p, current))
    ensures p + |EnvLine(current)| <= |source| + 1 && p <= |source|
    ensures ReplacePolicy(source, policy).Some? && p <= |ReplacePolicy(source, policy).value|
    ensures ReplacePolicy(source, policy).value + "\n"
         == source[..p] + EnvLine(policy) + (source + "\n")[p + |EnvLine(current)|..]
  {
    hide FindPolicy, ReplacePolicy, EnvLine, Value, WholeLines;
    PolicyInside(source, p, current);
    PolicyReplaced(source, p, current, policy);
    var before, after := KEY + Value(current), KEY + Value(policy);
    LineReplaced(source, p, before, after, EnvLine(current), EnvLine(policy), ReplacePolicy(source, policy).value);
  }

  lemma PolicyReplaced(source: string, p: nat, current: Policy, policy: Policy)
    requires FindPolicy(source) == Some((p, current))
    ensures EnvLine(current) == KEY + Value(current) + "\n" && EnvLine(policy) == KEY + Value(policy) + "\n"
    ensures p + |KEY + Value(current)| <= |source|
    ensures ReplacePolicy(source, policy)
         == Some(source[..p] + (KEY + Value(policy)) + source[p + |KEY + Value(current)|..])
  {
    hide FindPolicy, Value, WholeLines;
    PolicyInside(source, p, current);
  }

  lemma LineReplaced(
      source: string, p: nat, before: string, after: string, line: string, newLine: string, written: string)
    requires line == before + "\n" && newLine == after + "\n"
    requires p + |before| <= |source| && written == source[..p] + after + source[p + |before|..]
    requires source + "\n" == source[..p] + line + (source + "\n")[p + |line|..]
    ensures p <= |written| && written + "\n" == source[..p] + newLine + (source + "\n")[p + |line|..]
  {
    var s, end := source + "\n", p + |before|;
    assert s[end] == (source[..p] + line + s[end + 1..])[end] == '\n';
    assert source[end..] + "\n" == s[end..] == "\n" + s[end + 1..];
    assert written + "\n" == source[..p] + after + (source[end..] + "\n");
    assert source[..p] + after + ("\n" + s[end + 1..]) == source[..p] + newLine + s[end + 1..];
  }

  /** Reading back a rewritten environment gives the written policy, at the same place. */
  lemma PolicyReadsBack(source: string, policy: Policy)
    requires FindPolicy(source).Some?
    ensures ReplacePolicy(source, policy).Some?
    ensures FindPolicy(ReplacePolicy(source, policy).value) == Some((FindPolicy(source).value.0, policy))
  {
    hide EnvLine, ReplacePolicy, FindPolicy;
    var p, current := FindPolicy(source).value.0, FindPolicy(source).value.1;
    PolicyInside(source, p, current);
    PolicyWritten(source, p, current, policy);
    var y := (source + "\n")[p + |EnvLine(current)|..];
    FoundMeans(source, p, current);
    PolicyExchanged(source[..p], y, current, policy);
    FoundMeans(ReplacePolicy(source, policy).value, p, policy);
  }

  /** A second rewrite of the environment overrides the first. */
  lemma PolicyOverrides(source: string, first: Policy, second: Policy)
    requires FindPolicy(source).Some?
    ensures ReplacePolicy(source, first).Some?
    ensures ReplacePolicy(ReplacePolicy(source, first).value, second) == ReplacePolicy(source, second)
  {
    hide EnvLine, ReplacePolicy, FindPolicy;
    PolicyReadsBack(source, first);
    var once := ReplacePolicy(source, first).value;
    var p, current := FindPolicy(source).value.0, FindPolicy(source).value.1;
    PolicyInside(source, p, current);
    PolicyWritten(source, p, current, first);
    PolicyWritten(source, p, current, second);
    PolicyWritten(once, p, first, second);
    var x, y := source[..p], (source + "\n")[p + |EnvLine(current)|..];
    assert |x| == p && once + "\n" == x + EnvLine(first) + y;
    assert (once + "\n")[p + |EnvLine(first)|..] == y;
    assert once[..p] == (once + "\n")[..p] == x;
    SameBeforeNewline(ReplacePolicy(once, second).value, ReplacePolicy(source, second).value);
  }

  lemma SameBeforeNewline(a: string, b: string)
    requires a + "\n" == b + "\n"
    ensures a == b
  {
    assert a == (a + "\n")[..|a|] && b == (b + "\n")[..|b|];
    assert |a + "\n"| == |a| + 1 && |b + "\n"| == |b| + 1;
  }
}
