/** Choosing the address a domain is bound to (hosts/get_domain_ip.py): the configured
    address when there is one, otherwise the first of 17ce.com, ip-api.com and ipapi.co that
    answers with an IPv4 address, and DNS as the last resort. Every network answer is a value
    of the model; requests, HTML parsing and the regular-expression scan of a page are not. */
module DomainIp {
  import opened Wrappers
  import opened Text

  // ---------------------------------------------------------------------------
  // IPv4 addresses

  /** One part of an address: one to three digits naming a number up to 255. */
  predicate Octet(g: string) {
    IsDigitGroup(g) && DigitsValue(g) <= 255
  }

  /** `is_ipv4` as intended: the whole string is four octets separated by dots. */
  predicate IsIpv4(s: string) {
    var g := SplitOn(s, '.');
    |g| == 4 && Octet(g[0]) && Octet(g[1]) && Octet(g[2]) && Octet(g[3])
  }

  /** `is_ipv4` as written: `re.match` with a pattern ending in `$` also matches in front of
      a final newline, and `int()` ignores that newline, so a string that is an address
      followed by `"\n"` is accepted too. */
  predicate IsIpv4AsWritten(s: string) {
    IsIpv4(s) || (s != [] && s[|s| - 1] == '\n' && IsIpv4(s[..|s| - 1]))
  }

  /** The prefixes that `get_ip_from_17ce` treats as local or private on its fallback page. */
  predicate IsPrivateLooking(ip: string) {
    StartsWith(ip, "127.") || StartsWith(ip, "0.") || StartsWith(ip, "192.168.")
    || StartsWith(ip, "10.") || StartsWith(ip, "172.")
  }

  /** The address as written accepts a string that is not an address: one with a trailing
      newline, which would split the hosts line it is written into. */
  lemma {:induction false} TrailingNewlineAccepted(s: string)
    requires IsIpv4(s)
    ensures IsIpv4AsWritten(s + "\n")
    ensures !IsIpv4(s + "\n")
  {
    var t := s + "\n";
    assert t[..|t| - 1] == s;
    if IsIpv4(t) {
      assert IsDottedQuad(t);
      DottedQuadIsToken(t);
      assert IsSpace(t[|t| - 1]);
    }
  }

  /** An accepted address is four octets joined by dots... */
  lemma {:induction false} Ipv4Parts(s: string)
    requires IsIpv4(s)
    ensures var g := SplitOn(s, '.');
      Octet(g[0]) && Octet(g[1]) && Octet(g[2]) && Octet(g[3]) &&
      s == g[0] + ['.'] + (g[1] + ['.'] + (g[2] + ['.'] + g[3]))
  {
    var g := SplitOn(s, '.');
    JoinSplitOn(s, '.');
    assert g[1..][1..][1..] == [g[3]];
    assert JoinOn(g[1..][1..], '.') == g[2] + ['.'] + g[3];
    assert JoinOn(g[1..], '.') == g[1] + ['.'] + (g[2] + ['.'] + g[3]);
  }

  /** ...and any four octets joined by dots are accepted. */
  lemma {:induction false} Ipv4Of(a: string, b: string, c: string, d: string)
    requires Octet(a) && Octet(b) && Octet(c) && Octet(d)
    ensures IsIpv4(a + ['.'] + b + ['.'] + c + ['.'] + d)
  {
    NoDotInDigits(a);
    NoDotInDigits(b);
    NoDotInDigits(c);
    NoDotInDigits(d);
    SplitFour(a, b, c, d);
    Regroup(a, b, c, d);
  }

  /** An address can stand as the first word of a hosts line. */
  lemma {:induction false} Ipv4IsToken(s: string)
    requires IsIpv4(s)
    ensures IsDottedQuad(s) && IsToken(s)
  {
    DottedQuadIsToken(s);
  }

  // ---------------------------------------------------------------------------
  // Scanning candidates

  /** Index of the first element of `ms` satisfying `p`. */
  function FirstWhere(ms: seq<string>, p: string -> bool): (k: Option<nat>)
    ensures k.Some? ==> k.value < |ms| && p(ms[k.value])
    ensures k.Some? ==> forall j :: 0 <= j < k.value ==> !p(ms[j])
    ensures k.None? ==> forall j :: 0 <= j < |ms| ==> !p(ms[j])
  {
    if ms == [] then None
    else if p(ms[0]) then Some(0)
    else match FirstWhere(ms[1..], p)
      case None =>
        assert forall j :: 1 <= j < |ms| ==> ms[j] == ms[1..][j - 1];
        None
      case Some(k) =>
        assert forall j :: 1 <= j < k + 1 ==> ms[j] == ms[1..][j - 1];
        Some(k + 1)
  }

  /** The candidate at `FirstWhere`, if any. */
  function FirstOf(ms: seq<string>, p: string -> bool): Option<string> {
    match FirstWhere(ms, p)
    case Some(k) => Some(ms[k])
    case None => None
  }

  /** `for match in matches: if <p>: return match`. */
  method FirstMatching(ms: seq<string>, p: string -> bool) returns (r: Option<string>)
    ensures r == FirstOf(ms, p)
    ensures r.Some? ==> r.value in ms && p(r.value)
  {
    var i := 0;
    while i < |ms|
      invariant 0 <= i <= |ms|
      invariant forall j :: 0 <= j < i ==> !p(ms[j])
    {
      if p(ms[i]) {
        assert FirstWhere(ms, p) == Some(i);
        return Some(ms[i]);
      }
      i := i + 1;
    }
    return None;
  }

  // ---------------------------------------------------------------------------
  // 17ce.com

  /** One measurement node of the ping answer: `time` and `ip`, each possibly missing. An
      `ip` that is falsy is `None`, as the `ip and ...` test skips it. */
  datatype Node = Node(time: Option<int>, ip: Option<string>)

  /** `x.get('time', 999)`. */
  function TimeOf(n: Node): int {
    match n.time
    case Some(t) => t
    case None => 999
  }

  /** `ip and is_ipv4(ip)`. */
  predicate ValidNode(n: Node) {
    n.ip.Some? && IsIpv4(n.ip.value)
  }

  /** Node `k` is the valid node with the least time, the earliest one among equal times. As
      `sorted` is stable, this is the node the loop over `sorted(nodes, key=time)` returns. */
  predicate IsFastest(nodes: seq<Node>, k: int) {
    0 <= k < |nodes| && ValidNode(nodes[k]) &&
    (forall j :: 0 <= j < |nodes| && ValidNode(nodes[j]) ==> TimeOf(nodes[k]) <= TimeOf(nodes[j])) &&
    (forall j :: 0 <= j < k && ValidNode(nodes[j]) ==> TimeOf(nodes[k]) < TimeOf(nodes[j]))
  }

  /** Position of the fastest valid node, scanning from the front and keeping the earlier
      node on a tie. */
  function FastestAt(nodes: seq<Node>): (k: Option<nat>)
    ensures k.Some? ==> k.value < |nodes|
  {
    if nodes == [] then None else
      var p := FastestAt(nodes[..|nodes| - 1]);
      var x := nodes[|nodes| - 1];
      if !ValidNode(x) then p
      else if p.None? || TimeOf(x) < TimeOf(nodes[p.value]) then Some(|nodes| - 1)
      else p
  }

  function FastestIp(nodes: seq<Node>): Option<string> {
    match FastestAt(nodes)
    case Some(k) => nodes[k].ip
    case None => None
  }

  /** The scan finds the fastest valid node, and finds none only when no node is valid. */
  lemma {:induction false} FastestSpec(nodes: seq<Node>)
    ensures FastestAt(nodes).Some? ==> IsFastest(nodes, FastestAt(nodes).value)
    ensures FastestAt(nodes).None? <==> forall j :: 0 <= j < |nodes| ==> !ValidNode(nodes[j])
  {
    if nodes != [] {
      var n' := nodes[..|nodes| - 1];
      FastestSpec(n');
      assert forall j :: 0 <= j < |n'| ==> n'[j] == nodes[j];
    }
  }

  /** The fastest node comes first in the order by time, then by position, that the stable
      sort produces; so there is only one. */
  lemma FastestIsLeast(nodes: seq<Node>, k: int, j: int)
    requires IsFastest(nodes, k) && 0 <= j < |nodes| && ValidNode(nodes[j]) && j != k
    ensures TimeOf(nodes[k]) < TimeOf(nodes[j]) || (TimeOf(nodes[k]) == TimeOf(nodes[j]) && k < j)
  {
  }

  /** Sorting by time and taking the first valid node, done in one pass. */
  method PickFastest(nodes: seq<Node>) returns (ip: Option<string>)
    ensures ip == FastestIp(nodes)
    ensures ip.Some? ==> IsIpv4(ip.value)
  {
    var best: Option<nat> := None;
    var i := 0;
    while i < |nodes|
      invariant 0 <= i <= |nodes|
      invariant best == FastestAt(nodes[..i])
    {
      assert nodes[..i + 1][..i] == nodes[..i];
      var x := nodes[i];
      if ValidNode(x) && (best.None? || TimeOf(x) < TimeOf(nodes[best.value])) {
        best := Some(i);
      }
      i := i + 1;
    }
    assert nodes[..i] == nodes;
    FastestSpec(nodes);
    ip := if best.Some? then nodes[best.value].ip else None;
  }

  /** The JSON body of the ping answer: whether `status` is `'success'` with non-empty
      `data`, and the nodes in `data`. */
  datatype PingJson = PingJson(success: bool, nodes: seq<Node>)

  /** The answer to the ping request: status 200 or not, the body as JSON when it parses,
      and the address-shaped strings found in the body, in order. `json == None` also stands
      for every JSON answer whose reading raises an error that the handler for `ValueError`,
      `KeyError` and `TypeError` catches, after which the body is scanned: node times that cannot be ordered (a `TypeError` in `sorted`), or a
      truthy `ip` that is not a string, reached before any usable node (a `TypeError` in
      `re.match`). */
  datatype PingReply = PingReply(ok: bool, json: Option<PingJson>, matches: seq<string>)

  /** The answer for the site page: status 200 or not, and the address-shaped strings in it. */
  datatype PageReply = PageReply(ok: bool, matches: seq<string>)

  /** What 17ce.com answers. `ping == None` is any error that escapes to the outer handlers
      and ends the lookup with no address: a network error, or a JSON answer that is not an
      object, or whose `data` holds a node that is not an object, so that `.get` raises
      `AttributeError`. `page == None` is a failed page request, which is swallowed. */
  datatype Ce = Ce(ping: Option<PingReply>, page: Option<PageReply>)

  predicate PublicIpv4(s: string) {
    IsIpv4(s) && !IsPrivateLooking(s)
  }

  /** The address read from the ping answer: the fastest valid node of a successful JSON
      body, otherwise the first valid address in the body. */
  function PingAnswer(p: PingReply): Option<string> {
    if !p.ok then None
    else
      var fromJson := if p.json.Some? && p.json.value.success then FastestIp(p.json.value.nodes) else None;
      if fromJson.Some? then fromJson else FirstOf(p.matches, IsIpv4)
  }

  /** `get_ip_from_17ce`. */
  function Answer17ce(s: Ce): (ip: Option<string>)
    ensures ip.Some? ==> IsIpv4(ip.value)
  {
    match s.ping
    case None => None
    case Some(p) =>
      FastestSpec(if p.json.Some? then p.json.value.nodes else []);
      var first := PingAnswer(p);
      if first.Some? then first
      else match s.page
        case Some(pg) =>
          if pg.ok then FirstOf(pg.matches, PublicIpv4) else None
        case None => None
  }

  method From17ce(s: Ce) returns (ip: Option<string>)
    ensures ip == Answer17ce(s)
  {
    if s.ping.None? {
      return None;
    }
    var p := s.ping.value;
    if p.ok {
      if p.json.Some? && p.json.value.success {
        ip := PickFastest(p.json.value.nodes);
        if ip.Some? {
          return;
        }
      }
      ip := FirstMatching(p.matches, IsIpv4);
      if ip.Some? {
        return;
      }
    }
    ip := None;
    if s.page.Some? && s.page.value.ok {
      ip := FirstMatching(s.page.value.matches, PublicIpv4);
    }
  }

  /** The ping answer's JSON names no usable node: it is not JSON, does not report
      success, or has no node with an IPv4 address. */
  predicate NoJsonNode(p: PingReply) {
    p.json.None? || !p.json.value.success ||
    forall j :: 0 <= j < |p.json.value.nodes| ==> !ValidNode(p.json.value.nodes[j])
  }

  /** The ping answer yields no address at all, from its JSON or from its body. */
  predicate PingYieldsNothing(p: PingReply) {
    !p.ok || (NoJsonNode(p) && forall j :: 0 <= j < |p.matches| ==> !IsIpv4(p.matches[j]))
  }

  /** Two fastest nodes are the same node. */
  lemma {:induction false} FastestUnique(nodes: seq<Node>, k: int, k': int)
    requires IsFastest(nodes, k) && IsFastest(nodes, k')
    ensures k == k'
  {
  }

  /** An error that ends the lookup gives no address, whatever the site page holds. */
  lemma {:induction false} CeErrorEnds(s: Ce)
    requires s.ping.None?
    ensures Answer17ce(s).None?
  {
  }

  /** A successful JSON answer comes first: its fastest node's address is the answer, whatever
      the body and the site page hold. */
  lemma {:induction false} CeJsonFirst(s: Ce, k: int)
    requires s.ping.Some? && s.ping.value.ok && s.ping.value.json.Some? && s.ping.value.json.value.success
    requires IsFastest(s.ping.value.json.value.nodes, k)
    ensures Answer17ce(s) == s.ping.value.json.value.nodes[k].ip
  {
    var nodes := s.ping.value.json.value.nodes;
    FastestSpec(nodes);
    var f := FastestAt(nodes);
    assert f.Some?;
    FastestUnique(nodes, k, f.value);
    assert FastestIp(nodes) == nodes[k].ip;
  }

  /** Without a usable JSON node, the first IPv4 address in the ping body is the answer,
      whatever the site page holds; no prefix is excluded here. */
  lemma {:induction false} CeBodySecond(s: Ce, k: nat)
    requires s.ping.Some? && s.ping.value.ok && NoJsonNode(s.ping.value)
    requires k < |s.ping.value.matches| && IsIpv4(s.ping.value.matches[k])
    requires forall j :: 0 <= j < k ==> !IsIpv4(s.ping.value.matches[j])
    ensures Answer17ce(s) == Some(s.ping.value.matches[k])
  {
    var p := s.ping.value;
    if p.json.Some? && p.json.value.success {
      FastestSpec(p.json.value.nodes);
    }
    assert FirstWhere(p.matches, IsIpv4) == Some(k);
  }

  /** When the ping answer yields nothing, the answer is the first address on the site page
      that is IPv4 and starts with none of `127.`, `0.`, `192.168.`, `10.` and `172.`. */
  lemma {:induction false} CePageLast(s: Ce, k: nat)
    requires s.ping.Some? && PingYieldsNothing(s.ping.value)
    requires s.page.Some? && s.page.value.ok && k < |s.page.value.matches|
    requires IsIpv4(s.page.value.matches[k]) && !IsPrivateLooking(s.page.value.matches[k])
    requires forall j :: 0 <= j < k ==>
      !IsIpv4(s.page.value.matches[j]) || IsPrivateLooking(s.page.value.matches[j])
    ensures Answer17ce(s) == Some(s.page.value.matches[k])
  {
    PingNothing(s.ping.value);
    assert FirstWhere(s.page.value.matches, PublicIpv4) == Some(k);
  }

  /** An answer that does not come from the ping reply is an address on the site page that is
      never private-looking; and there is none when the page has no such address. */
  lemma {:induction false} CeFallbackPublic(s: Ce)
    requires s.ping.Some? && PingYieldsNothing(s.ping.value)
    ensures Answer17ce(s).Some? ==>
      s.page.Some? && s.page.value.ok && Answer17ce(s).value in s.page.value.matches &&
      IsIpv4(Answer17ce(s).value) && !IsPrivateLooking(Answer17ce(s).value)
    ensures (s.page.None? || !s.page.value.ok ||
      forall j :: 0 <= j < |s.page.value.matches| ==>
        !IsIpv4(s.page.value.matches[j]) || IsPrivateLooking(s.page.value.matches[j]))
      ==> Answer17ce(s).None?
  {
    PingNothing(s.ping.value);
    if s.page.Some? && s.page.value.ok {
      var f := FirstWhere(s.page.value.matches, PublicIpv4);
      if f.Some? {
        assert Answer17ce(s).value == s.page.value.matches[f.value];
      }
    }
  }

  /** A ping answer that yields nothing gives no address. */
  lemma {:induction false} PingNothing(p: PingReply)
    requires PingYieldsNothing(p)
    ensures PingAnswer(p).None?
  {
    if p.ok {
      if p.json.Some? && p.json.value.success {
        FastestSpec(p.json.value.nodes);
      }
      assert FirstWhere(p.matches, IsIpv4).None?;
    }
  }

  // ---------------------------------------------------------------------------
  // ip-api.com, ipapi.co and DNS

  /** The JSON answer of a lookup service: status 200 or not, whether the service reports
      success (`status == 'success'` for ip-api.com, no `error` for ipapi.co), and the
      address field (`query`, `ip`). */
  datatype ApiReply = ApiReply(ok: bool, success: bool, ip: Option<string>)

  /** `get_ip_from_ipapi` and `get_ip_from_ipapi_co`; `None` is a failed request. */
  function FromApi(r: Option<ApiReply>): (ip: Option<string>)
    ensures ip.Some? ==> IsIpv4(ip.value) && r.Some? && r.value.ip == ip
  {
    if r.Some? && r.value.ok && r.value.success && r.value.ip.Some? && IsIpv4(r.value.ip.value)
    then r.value.ip else None
  }

  /** What every source answers for one domain; `dns` is the result of `gethostbyname`,
      `None` when it fails. */
  datatype Network = Network(ce: Ce, ipApi: Option<ApiReply>, ipApiCo: Option<ApiReply>, dns: Option<string>)

  const ConfigTag := "配置文件"
  const DnsTag := "DNS查询"
  const FailTag := "失败"

  /** The third-party services, in order of priority. */
  const SourceNames: seq<string> := ["17ce.com", "ip-api.com", "ipapi.co"]

  function SourceAnswers(n: Network): (a: seq<Option<string>>)
    ensures |a| == |SourceNames|
  {
    [Answer17ce(n.ce), FromApi(n.ipApi), FromApi(n.ipApiCo)]
  }

  predicate Usable(ip: Option<string>) {
    ip.Some? && IsIpv4(ip.value)
  }

  /** `get_ip_from_multiple_sources`: the first service with an address, else DNS. */
  function MultipleSources(n: Network): (Option<string>, string) {
    var a := SourceAnswers(n);
    if Usable(a[0]) then (a[0], SourceNames[0])
    else if Usable(a[1]) then (a[1], SourceNames[1])
    else if Usable(a[2]) then (a[2], SourceNames[2])
    else if Usable(n.dns) then (n.dns, DnsTag)
    else (None, FailTag)
  }

  method FromMultipleSources(n: Network) returns (ip: Option<string>, source: string)
    ensures (ip, source) == MultipleSources(n)
  {
    var answers: seq<Option<string>> := [];
    ghost var all := SourceAnswers(n);
    var k := 0;
    while k < |SourceNames|
      invariant 0 <= k <= |SourceNames|
      invariant forall j :: 0 <= j < k ==> !Usable(all[j])
    {
      var a: Option<string>;
      if k == 0 {
        a := From17ce(n.ce);
      } else if k == 1 {
        a := FromApi(n.ipApi);
      } else {
        a := FromApi(n.ipApiCo);
      }
      assert a == all[k];
      if a.Some? && IsIpv4(a.value) {
        return a, SourceNames[k];
      }
      k := k + 1;
    }
    if n.dns.Some? && IsIpv4(n.dns.value) {
      return n.dns, DnsTag;
    }
    return None, FailTag;
  }

  /** The services are asked in priority order: the answer comes from the first one that
      has an address, DNS is used only when none has, and the result is an address exactly
      when the source is not the failure tag. */
  lemma {:induction false} MultipleSourcesSpec(n: Network)
    ensures var (ip, source) := MultipleSources(n);
      (ip.Some? <==> source != FailTag) &&
      (ip.Some? ==> IsIpv4(ip.value)) &&
      (forall k :: 0 <= k < |SourceNames| && source == SourceNames[k] ==>
        ip == SourceAnswers(n)[k] && forall j :: 0 <= j < k ==> !Usable(SourceAnswers(n)[j])) &&
      (source == DnsTag ==> ip == n.dns && forall j :: 0 <= j < |SourceNames| ==> !Usable(SourceAnswers(n)[j])) &&
      (source == FailTag ==> !Usable(n.dns) && forall j :: 0 <= j < |SourceNames| ==> !Usable(SourceAnswers(n)[j]))
  {
    var a := SourceAnswers(n);
    var r := MultipleSources(n);
    assert SourceNames[0] != SourceNames[1] && SourceNames[0] != SourceNames[2] && SourceNames[1] != SourceNames[2];
    assert DnsTag !in SourceNames && FailTag !in SourceNames && DnsTag != FailTag;
    if Usable(a[0]) {
      assert r == (a[0], SourceNames[0]);
    } else if Usable(a[1]) {
      assert r == (a[1], SourceNames[1]);
    } else if Usable(a[2]) {
      assert r == (a[2], SourceNames[2]);
    } else {
      assert forall j :: 0 <= j < |SourceNames| ==> !Usable(a[j]);
    }
  }

  // ---------------------------------------------------------------------------
  // get_domain_ip

  /** `get_domain_ip_with_source`: a non-empty configured value wins when the configuration
      is used (it is not checked to be an address); otherwise the services are asked. The
      configuration file's content is `config`; a missing or malformed file is `map[]`. */
  function DomainIpWithSource(domain: string, useConfig: bool, config: map<string, string>, n: Network)
    : (Option<string>, string)
  {
    if useConfig && domain in config && config[domain] != [] then (Some(config[domain]), ConfigTag)
    else MultipleSources(n)
  }

  method GetDomainIpWithSource(domain: string, useConfig: bool, config: map<string, string>, n: Network)
    returns (ip: Option<string>, source: string)
    ensures (ip, source) == DomainIpWithSource(domain, useConfig, config, n)
  {
    if useConfig && domain in config && config[domain] != [] {
      return Some(config[domain]), ConfigTag;
    }
    ip, source := FromMultipleSources(n);
    if ip.None? {
      source := FailTag;
    }
  }

  /** `get_domain_ip`: the address alone. */
  method GetDomainIp(domain: string, useConfig: bool, config: map<string, string>, n: Network)
    returns (ip: Option<string>)
    ensures ip == DomainIpWithSource(domain, useConfig, config, n).0
  {
    var source;
    ip, source := GetDomainIpWithSource(domain, useConfig, config, n);
  }

  /** The result's source is one of the six tags, the configuration has priority, and an
      address that does not come from the configuration is a valid IPv4 address. */
  lemma {:induction false} DomainIpSpec(domain: string, useConfig: bool, config: map<string, string>, n: Network)
    ensures var (ip, source) := DomainIpWithSource(domain, useConfig, config, n);
      (source == ConfigTag || source == DnsTag || source == FailTag || source in SourceNames) &&
      (useConfig && domain in config && config[domain] != [] ==> ip == Some(config[domain]) && source == ConfigTag) &&
      (ip.None? <==> source == FailTag) &&
      (ip.Some? && source != ConfigTag ==> IsIpv4(ip.value)) &&
      (!useConfig ==> source != ConfigTag)
  {
    MultipleSourcesSpec(n);
    assert ConfigTag !in SourceNames && ConfigTag != DnsTag && ConfigTag != FailTag;
  }

  /** When every configured address is a dotted quad, so is every address found. */
  lemma {:induction false} FoundAddressShape(domain: string, useConfig: bool, config: map<string, string>, n: Network)
    requires forall d :: d in config ==> IsDottedQuad(config[d])
    ensures var ip := DomainIpWithSource(domain, useConfig, config, n).0;
      ip.Some? ==> IsDottedQuad(ip.value)
  {
    DomainIpSpec(domain, useConfig, config, n);
    var (ip, source) := DomainIpWithSource(domain, useConfig, config, n);
    if ip.Some? && source != ConfigTag {
      Ipv4IsToken(ip.value);
    }
  }
}
