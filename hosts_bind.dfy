/** Binding domains in the hosts file (hosts/bind_hosts.py): resolve each domain, rewrite the
    lines with `add_hosts_entry` for each resolved domain, then commit the new content. */
module HostsBind {
  import opened Wrappers
  import opened Seqs
  import opened Text
  import opened Lines
  import opened HostsEntry
  import opened HostsStore
  import opened HostsRewrite
  import opened DomainIp

  // ---------------------------------------------------------------------------
  // What the rewrite needs of the hosts-file parser

  /** The new entry reads back as the binding it states, and is one terminated line. */
  lemma {:induction false} EntryLineParses(ip: string, d: string)
    requires IsDottedQuad(ip) && IsToken(d)
    ensures ParseHostsEntry(EntryLine(ip, d)) == Some(Entry(ip, d))
    ensures EntryFits(ParseHostsEntry, ip, d) && Terminated(EntryLine(ip, d))
  {
    ParseEntryLine(ip, "\t", d, "\n");
    DottedQuadIsToken(ip);
    NoNewline(ip);
    NoNewline(d);
    EntryLineIsLine(ip, d);
  }

  lemma {:induction false} NoNewline(s: string)
    requires IsToken(s)
    ensures '\n' !in s
  {
  }

  /** A line binds what it binds with or without its terminator. */
  lemma ParserIgnoresTerminator()
    ensures IgnoresTerminator(ParseHostsEntry)
  {
    forall l: string ensures ParseHostsEntry(l + "\n") == ParseHostsEntry(l) {
      StripTrailingSpace(l, "\n");
    }
  }

  /** Each of the pairs can be written as a binding line. */
  predicate Writable(ps: Pairs) {
    forall k :: 0 <= k < |ps| ==> IsDottedQuad(ps[k].1) && IsToken(ps[k].0)
  }

  lemma {:induction false} WritableFits(ps: Pairs)
    requires Writable(ps)
    ensures AllFit(ParseHostsEntry, ps)
  {
    forall k | 0 <= k < |ps| ensures EntryFits(ParseHostsEntry, ps[k].1, ps[k].0) {
      EntryLineParses(ps[k].1, ps[k].0);
    }
  }

  // ---------------------------------------------------------------------------
  // The append of an unbound domain

  /** The new entry for an unbound domain, appended as written after a last line without a
      terminator (here a comment), merges into that line when the file is written: the file
      reads back with no line of its own for the entry, and the domain stays unbound. */
  lemma {:induction false} AppendMergesIntoLastLine(prefix: seq<string>, c: string, d: string, ip: string)
    requires WellFormed(prefix + ["#" + c]) && '\n' !in c
    requires !Bound(ParseHostsEntry, prefix + ["#" + c], d) && IsDottedQuad(ip) && IsToken(d)
    ensures var back := ReadLines(Concat(AppendedAsWritten(prefix + ["#" + c], d, ip)));
      back == prefix + ["#" + c + EntryLine(ip, d)] && !Bound(ParseHostsEntry, back, d)
  {
    var h := "#" + c;
    EntryLineParses(ip, d);
    assert !Terminated(h) by {
      if c != [] {
        assert h[|h| - 1] == c[|c| - 1];
      }
    }
    CommentJoin(c, EntryLine(ip, d));
    AppendAsWrittenMerges(ParseHostsEntry, prefix, h, d, ip);
  }

  /** A comment line followed by more text is still a comment line. */
  lemma {:induction false} CommentJoin(c: string, e: string)
    ensures ParseHostsEntry("#" + c + e) == None
  {
    CommentLine([], c + e);
    assert [] + "#" + (c + e) == "#" + c + e;
  }

  /** With the last line terminated first, the entry reads back as a line of its own and the
      domain is bound exactly once, to `ip`. */
  lemma {:induction false} AppendedReadsBack(lines: seq<string>, d: string, ip: string)
    requires WellFormed(lines) && !Bound(ParseHostsEntry, lines, d) && IsDottedQuad(ip) && IsToken(d)
    ensures ReadLines(Concat(Appended(lines, d, ip))) == Appended(lines, d, ip)
    ensures BindsOnce(ParseHostsEntry, ReadLines(Concat(Appended(lines, d, ip))), d, ip)
  {
    EntryLineParses(ip, d);
    ParserIgnoresTerminator();
    AddEntryWellFormed(ParseHostsEntry, lines, d, ip);
    ConcatReadLines(Appended(lines, d, ip));
    AppendedBindsOnce(ParseHostsEntry, lines, d, ip);
  }

  // ---------------------------------------------------------------------------
  // Resolving the addresses

  /** `domain_ips[domain] = ip` on a dictionary that keeps insertion order. */
  function Put(ps: Pairs, d: string, ip: string): Pairs {
    if d in Keys(ps) then ps[FirstIndex(Keys(ps), d) := (d, ip)] else ps + [(d, ip)]
  }

  /** An address lookup for each domain. */
  type Resolver = string -> Option<string>

  /** `get_domain_ip(domain, use_config)`, with the configuration file's content `config` and
      the network's answers `net`. */
  function Lookup(useConfig: bool, config: map<string, string>, net: string -> Network): Resolver {
    d => DomainIpWithSource(d, useConfig, config, net(d)).0
  }

  /** `d` gets an address (`if not ip: continue`). */
  function Resolvable(resolve: Resolver): string -> bool {
    d => resolve(d).Some? && resolve(d).value != []
  }

  /** `domain_ips` after the resolution loop. */
  function Resolved(domains: seq<string>, resolve: Resolver): Pairs {
    if domains == [] then [] else
      var ps := Resolved(domains[..|domains| - 1], resolve);
      var d := domains[|domains| - 1];
      var ip := resolve(d);
      if ip.Some? && ip.value != [] then Put(ps, d, ip.value) else ps
  }

  lemma {:induction false} ResolvedStep(domains: seq<string>, i: nat, resolve: Resolver)
    requires i < |domains|
    ensures var ps := Resolved(domains[..i], resolve);
      var ip := resolve(domains[i]);
      Resolved(domains[..i + 1], resolve) == if ip.Some? && ip.value != [] then Put(ps, domains[i], ip.value) else ps
  {
    assert domains[..i + 1][..i] == domains[..i];
  }

  /** The resolved domains are the domains that have an address, each once, in the order of
      their first occurrence; each is paired with its address. */
  lemma {:induction false} ResolvedSpec(domains: seq<string>, resolve: Resolver)
    ensures var ps := Resolved(domains, resolve);
      Keys(ps) == Dedup(Filter(domains, Resolvable(resolve))) &&
      forall k :: 0 <= k < |ps| ==> resolve(ps[k].0) == Some(ps[k].1)
  {
    if domains != [] {
      var pre := domains[..|domains| - 1];
      var d := domains[|domains| - 1];
      var ok := Resolvable(resolve);
      ResolvedSpec(pre, resolve);
      assert domains == pre + [d];
      FilterAppend(pre, d, ok);
      var ps := Resolved(pre, resolve);
      var r := Resolved(domains, resolve);
      if ok(d) {
        var ip := resolve(d).value;
        assert r == Put(ps, d, ip);
        DedupAppend(Filter(pre, ok), d);
        PutSpec(ps, d, ip);
        forall k | 0 <= k < |r| ensures resolve(r[k].0) == Some(r[k].1) {
          if r[k] != (d, ip) {
            assert r[k] == ps[k];
          }
        }
      } else {
        assert r == ps;
      }
    }
  }

  /** `domain_ips[d] = ip` stores `ip` under `d`, at the position `d` already has or at the
      end. It keeps the keys when `d` is one of them and appends `d` otherwise, and every
      other entry is the old one. */
  lemma {:induction false} PutSpec(ps: Pairs, d: string, ip: string)
    ensures (d, ip) in Put(ps, d, ip)
    ensures d in Keys(ps) ==> Put(ps, d, ip)[FirstIndex(Keys(ps), d)] == (d, ip)
    ensures d !in Keys(ps) ==> Put(ps, d, ip)[|ps|] == (d, ip)
    ensures Keys(Put(ps, d, ip)) == if d in Keys(ps) then Keys(ps) else Keys(ps) + [d]
    ensures forall k :: 0 <= k < |Put(ps, d, ip)| ==>
      Put(ps, d, ip)[k] == (d, ip) || (k < |ps| && Put(ps, d, ip)[k] == ps[k])
  {
    var r := Put(ps, d, ip);
    var ks := Keys(ps);
    if d in ks {
      var i := FirstIndex(ks, d);
      assert r == ps[i := (d, ip)];
      assert forall k :: 0 <= k < |r| ==> Keys(r)[k] == ks[k];
    } else {
      assert r == ps + [(d, ip)];
      assert forall k :: 0 <= k < |r| ==> Keys(r)[k] == (ks + [d])[k];
    }
  }

  /** Every address the lookup returns has the shape of an IPv4 address. */
  ghost predicate GivesQuads(resolve: Resolver) {
    forall d :: resolve(d).Some? ==> IsDottedQuad(resolve(d).value)
  }

  lemma LookupGivesQuads(useConfig: bool, config: map<string, string>, net: string -> Network)
    requires forall d :: d in config ==> IsDottedQuad(config[d])
    ensures GivesQuads(Lookup(useConfig, config, net))
  {
    forall d | Lookup(useConfig, config, net)(d).Some?
      ensures IsDottedQuad(Lookup(useConfig, config, net)(d).value)
    {
      FoundAddressShape(d, useConfig, config, net(d));
    }
  }

  /** Domains that are tokens, under a lookup that gives dotted quads, resolve to pairs with
      distinct domains that can all be written as binding lines. */
  lemma {:induction false} ResolvedWritable(domains: seq<string>, resolve: Resolver)
    requires forall k :: 0 <= k < |domains| ==> IsToken(domains[k])
    requires GivesQuads(resolve)
    ensures Writable(Resolved(domains, resolve))
    ensures NoDuplicates(Keys(Resolved(domains, resolve)))
  {
    var ps := Resolved(domains, resolve);
    var ok := Resolvable(resolve);
    ResolvedSpec(domains, resolve);
    DedupSpec(Filter(domains, ok));
    forall k | 0 <= k < |ps| ensures IsDottedQuad(ps[k].1) && IsToken(ps[k].0) {
      var d := ps[k].0;
      assert d in Filter(domains, ok);
    }
  }

  /** The outcome of binding the resolved pairs `ps`: nothing is requested of the file system
      when there are none or when only previewing; otherwise the rewritten lines are
      committed. The lines are those of the file as read, none when it cannot be read. */
  twostate predicate PairsOutcome(h: HostsFile, new ps: Pairs, autoFix: bool, env: Env, ok: bool)
    reads h
  {
    var lines := if env.readable then ReadLines(old(h.content)) else [];
    if ps == [] then !ok && Untouched(h)
    else if !autoFix then ok && Untouched(h)
    else Committed(h, Concat(BindAll(ParseHostsEntry, lines, ps)), env, ok)
  }

  /** The outcome of `bind_domains`: that of binding the domains that got an address. */
  twostate predicate BindOutcome(h: HostsFile, domains: seq<string>, autoFix: bool, resolve: Resolver,
    env: Env, ok: bool)
    reads h
  {
    PairsOutcome(h, Resolved(domains, resolve), autoFix, env, ok)
  }

  /** `bind_domains`, with the configuration file's content `config` and the network's
      answers `net`: each domain is looked up with `get_domain_ip`. */
  method BindDomains(h: HostsFile, domains: seq<string>, autoFix: bool, useConfig: bool,
    config: map<string, string>, net: string -> Network, env: Env) returns (ok: bool)
    modifies h
    ensures BindOutcome(h, domains, autoFix, Lookup(useConfig, config, net), env, ok)
  {
    ok := BindWith(h, domains, autoFix, Lookup(useConfig, config, net), env);
  }

  /** `bind_domains` for any address lookup `resolve`: resolve, then bind the pairs. */
  method BindWith(h: HostsFile, domains: seq<string>, autoFix: bool, resolve: Resolver, env: Env)
    returns (ok: bool)
    modifies h
    ensures BindOutcome(h, domains, autoFix, resolve, env, ok)
  {
    var ps := ResolveDomains(domains, resolve);
    ok := BindPairs(h, ps, autoFix, env);
  }

  /** The rest of `bind_domains` once the addresses are known: read, rewrite, commit. */
  method BindPairs(h: HostsFile, ps: Pairs, autoFix: bool, env: Env) returns (ok: bool)
    modifies h
    ensures PairsOutcome(h, ps, autoFix, env, ok)
  {
    var lines := h.Read(env);
    if ps == [] {
      return false;
    }
    var newLines := RewriteLines(lines, ps);
    if !autoFix {
      return true;
    }
    ok := h.Commit(Concat(newLines), env);
  }

  /** The resolution loop of `bind_domains`, asking `resolve` for each domain's address. */
  method ResolveDomains(domains: seq<string>, resolve: Resolver) returns (ps: Pairs)
    ensures ps == Resolved(domains, resolve)
  {
    ps := [];
    for i := 0 to |domains|
      invariant ps == Resolved(domains[..i], resolve)
    {
      var ip := resolve(domains[i]);
      ResolvedStep(domains, i, resolve);
      if ip.Some? && ip.value != [] {
        ps := Put(ps, domains[i], ip.value);
      }
    }
    assert domains[..|domains|] == domains;
  }

  /** The lookup `bind_domains` uses is `get_domain_ip`. */
  method LookupDomain(d: string, useConfig: bool, config: map<string, string>, net: string -> Network)
    returns (ip: Option<string>)
    ensures ip == Lookup(useConfig, config, net)(d)
  {
    ip := GetDomainIp(d, useConfig, config, net(d));
  }

  /** The rewrite loop of `bind_domains` over a copy of the lines. */
  method RewriteLines(lines: seq<string>, ps: Pairs) returns (out: seq<string>)
    ensures out == BindAll(ParseHostsEntry, lines, ps)
  {
    var newLines := new LineList(lines);
    for j := 0 to |ps|
      invariant fresh(newLines)
      invariant newLines.items == BindAll(ParseHostsEntry, lines, ps[..j])
    {
      assert ps[..j + 1][..j] == ps[..j];
      newLines := AddHostsEntry(ParseHostsEntry, ps[j].0, ps[j].1, newLines);
    }
    assert ps[..|ps|] == ps;
    out := newLines.items;
  }

  /** After a successful bind, the file reads back as the rewritten lines, and every domain
      that got an address is bound in it exactly once, to that address. */
  lemma {:induction false} BindReadsBack(lines: seq<string>, domains: seq<string>, resolve: Resolver)
    requires WellFormed(lines)
    requires forall k :: 0 <= k < |domains| ==> IsToken(domains[k])
    requires GivesQuads(resolve)
    ensures var out := BindAll(ParseHostsEntry, lines, Resolved(domains, resolve));
      ReadLines(Concat(out)) == out &&
      forall d :: d in domains && Resolvable(resolve)(d) ==> BindsOnce(ParseHostsEntry, out, d, resolve(d).value)
  {
    var ps := Resolved(domains, resolve);
    var out := BindAll(ParseHostsEntry, lines, ps);
    ResolvedWritable(domains, resolve);
    WritableFits(ps);
    ParserIgnoresTerminator();
    BindAllBindsOnce(ParseHostsEntry, lines, ps);
    ConcatReadLines(out);
    forall d | d in domains && Resolvable(resolve)(d) ensures BindsOnce(ParseHostsEntry, out, d, resolve(d).value) {
      var k := ResolvedCovers(domains, resolve, d);
    }
  }

  /** A domain that gets an address has its pair among the resolved ones. */
  lemma {:induction false} ResolvedCovers(domains: seq<string>, resolve: Resolver, d: string) returns (k: nat)
    requires d in domains && Resolvable(resolve)(d)
    ensures k < |Resolved(domains, resolve)| && Resolved(domains, resolve)[k] == (d, resolve(d).value)
  {
    var ps := Resolved(domains, resolve);
    var ok := Resolvable(resolve);
    ResolvedSpec(domains, resolve);
    var i :| 0 <= i < |domains| && domains[i] == d;
    FilterKeeps(domains, ok, i);
    DedupSpec(Filter(domains, ok));
    k :| 0 <= k < |Keys(ps)| && Keys(ps)[k] == d;
  }

  // ---------------------------------------------------------------------------
  // Binding by problem type

  /** The domains to bind for each kind of problem a user reports. */
  const ProblemDomains: map<string, seq<string>> := map[
    "preview" := ["preview.qiantucdn.com"],
    "js" := ["js.qiantucdn.com"],
    "icon" := ["icon.qiantucdn.com"],
    "download" := ["dl.58pic.com"],
    "cloud" := ["y.58pic.com"],
    "main_site" := ["www.58pic.com", "qiye.58pic.com"],
    "download_fail" := ["proxy-rar.58pic.com", "proxy-vip.58pic.com", "proxy-vd.58pic.com"]
  ]

  /** `bind_by_problem`: an unknown problem type fails without touching anything. */
  method BindByProblem(problemType: string, h: HostsFile, autoFix: bool, useConfig: bool,
    config: map<string, string>, net: string -> Network, env: Env) returns (ok: bool)
    modifies h
    ensures problemType !in ProblemDomains ==> !ok && Untouched(h)
    ensures problemType in ProblemDomains ==>
      BindOutcome(h, ProblemDomains[problemType], autoFix, Lookup(useConfig, config, net), env, ok)
  {
    if problemType !in ProblemDomains {
      return false;
    }
    ok := BindDomains(h, ProblemDomains[problemType], autoFix, useConfig, config, net, env);
  }
}
