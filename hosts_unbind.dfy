/** Removing bindings from the hosts file (hosts/unbind_hosts.py): `unbind_domain` drops every
    line that binds the domain, a subdomain of it or a parent domain of it, and
    `unbind_all_qiantu` drops every line that binds a tracked domain. All other lines, comments
    and blank lines among them, are kept in their order, and the result is committed through
    the same backup/write/restore sequence as binding.

    As in `HostsRewrite`, the filters are stated for any parser `parse`; the methods that work
    on the hosts file pass `ParseHostsEntry`. */
module HostsUnbind {
  import opened Wrappers
  import opened Seqs
  import opened Text
  import opened Lines
  import opened HostsEntry
  import opened HostsStore
  import opened HostsRewrite

  // ---------------------------------------------------------------------------
  // unbind_domain

  /** The match of `unbind_domain`: a non-empty parsed domain `pd` that is `d`, ends in
      `'.' + d`, or is what `d` ends in after a `'.'` (a bidirectional suffix match). */
  predicate Related(pd: string, d: string) {
    pd != [] && (pd == d || EndsWith(pd, "." + d) || EndsWith(d, "." + pd))
  }

  /** The line `l` is dropped when unbinding `d`. */
  predicate Unbinds(parse: Parser, l: string, d: string) {
    parse(l).Some? && Related(parse(l).value.domain, d)
  }

  function DropsFor(parse: Parser, d: string): string -> bool {
    l => Unbinds(parse, l, d)
  }

  function KeepsFor(parse: Parser, d: string): string -> bool {
    l => !Unbinds(parse, l, d)
  }

  /** The loop of `unbind_domain`: the kept lines, and whether any line was dropped. */
  method UnbindLines(parse: Parser, domain: string, lines: seq<string>)
    returns (newLines: seq<string>, removed: bool)
    ensures newLines == Filter(lines, KeepsFor(parse, domain))
    ensures removed <==> Count(lines, DropsFor(parse, domain)) > 0
  {
    newLines := [];
    removed := false;
    for i := 0 to |lines|
      invariant newLines == Filter(lines[..i], KeepsFor(parse, domain))
      invariant removed <==> Count(lines[..i], DropsFor(parse, domain)) > 0
    {
      TakeSnoc(lines, i);
      FilterAppend(lines[..i], lines[i], KeepsFor(parse, domain));
      CountAppend(lines[..i], lines[i], DropsFor(parse, domain));
      var e := parse(lines[i]);
      if e.Some? && Related(e.value.domain, domain) {
        removed := true;
      } else {
        newLines := newLines + [lines[i]];
      }
    }
    assert lines[..|lines|] == lines;
  }

  /** What `unbind_domain` does to the hosts file `h` and returns: nothing when no line
      matches (false) or in preview mode (true); otherwise it commits the kept lines. */
  twostate predicate UnbindOutcome(h: HostsFile, domain: string, autoFix: bool, env: Env, ok: bool)
    reads h
  {
    var lines := if env.readable then ReadLines(old(h.content)) else [];
    if Count(lines, DropsFor(ParseHostsEntry, domain)) == 0 then !ok && Untouched(h)
    else if !autoFix then ok && Untouched(h)
    else Committed(h, Concat(Filter(lines, KeepsFor(ParseHostsEntry, domain))), env, ok)
  }

  /** `unbind_domain`. */
  method UnbindDomain(h: HostsFile, domain: string, autoFix: bool, env: Env) returns (ok: bool)
    modifies h
    ensures UnbindOutcome(h, domain, autoFix, env, ok)
  {
    var lines := h.Read(env);
    var newLines, removed := UnbindLines(ParseHostsEntry, domain, lines);
    if !removed {
      return false;
    }
    if !autoFix {
      return true;
    }
    ok := h.Commit(Concat(newLines), env);
  }

  // ---------------------------------------------------------------------------
  // unbind_all_qiantu

  /** The line `l` binds a tracked domain (`if domain:` and the inner loop over the bases). */
  predicate BindsTracked(parse: Parser, l: string) {
    parse(l).Some? && parse(l).value.domain != [] && IsTracked(parse(l).value.domain)
  }

  function DropsTracked(parse: Parser): string -> bool {
    l => BindsTracked(parse, l)
  }

  function KeepsUntracked(parse: Parser): string -> bool {
    l => !BindsTracked(parse, l)
  }

  /** The domains of the dropped lines, one per line, in file order. */
  function TrackedIn(parse: Parser, lines: seq<string>): (ds: seq<string>)
    ensures |ds| == Count(lines, DropsTracked(parse))
  {
    if lines == [] then [] else
      var p := TrackedIn(parse, lines[..|lines| - 1]);
      var l := lines[|lines| - 1];
      if BindsTracked(parse, l) then p + [parse(l).value.domain] else p
  }

  /** The loop of `unbind_all_qiantu`: the kept lines, `removed_count` and `removed_domains`. */
  method UnbindTrackedLines(parse: Parser, lines: seq<string>)
    returns (newLines: seq<string>, removedCount: nat, removedDomains: seq<string>)
    ensures newLines == Filter(lines, KeepsUntracked(parse))
    ensures removedCount == Count(lines, DropsTracked(parse))
    ensures removedDomains == Dedup(TrackedIn(parse, lines))
  {
    newLines := [];
    removedCount := 0;
    removedDomains := [];
    for i := 0 to |lines|
      invariant newLines == Filter(lines[..i], KeepsUntracked(parse))
      invariant removedCount == Count(lines[..i], DropsTracked(parse))
      invariant removedDomains == Dedup(TrackedIn(parse, lines[..i]))
    {
      TakeSnoc(lines, i);
      assert lines[..i + 1][..i] == lines[..i];
      FilterAppend(lines[..i], lines[i], KeepsUntracked(parse));
      CountAppend(lines[..i], lines[i], DropsTracked(parse));
      var e := parse(lines[i]);
      var isTracked := false;
      if e.Some? && e.value.domain != [] {
        isTracked := MatchesQiantu(e.value.domain);
      }
      if isTracked {
        removedCount := removedCount + 1;
        DedupAppend(TrackedIn(parse, lines[..i]), e.value.domain);
        if e.value.domain !in removedDomains {
          removedDomains := removedDomains + [e.value.domain];
        }
      } else {
        newLines := newLines + [lines[i]];
      }
    }
    assert lines[..|lines|] == lines;
  }

  /** What `unbind_all_qiantu` does to `h` and returns. */
  twostate predicate UnbindAllOutcome(h: HostsFile, autoFix: bool, env: Env, ok: bool)
    reads h
  {
    var lines := if env.readable then ReadLines(old(h.content)) else [];
    if Count(lines, DropsTracked(ParseHostsEntry)) == 0 then !ok && Untouched(h)
    else if !autoFix then ok && Untouched(h)
    else Committed(h, Concat(Filter(lines, KeepsUntracked(ParseHostsEntry))), env, ok)
  }

  /** `unbind_all_qiantu`; the removed domains are only reported. */
  method UnbindAllQiantu(h: HostsFile, autoFix: bool, env: Env) returns (ok: bool)
    modifies h
    ensures UnbindAllOutcome(h, autoFix, env, ok)
  {
    var lines := h.Read(env);
    var newLines, removedCount, removedDomains := UnbindTrackedLines(ParseHostsEntry, lines);
    if removedCount == 0 {
      return false;
    }
    if !autoFix {
      return true;
    }
    ok := h.Commit(Concat(newLines), env);
  }

  // ---------------------------------------------------------------------------
  // Properties of the filters

  /** Unbinding `d` also unbinds every subdomain of `d`. */
  lemma {:induction false} SubdomainRelated(sub: string, d: string)
    ensures Related(sub + "." + d, d)
  {
    var pd := sub + "." + d;
    assert pd[|pd| - |"." + d|..] == "." + d;
  }

  /** ...and every parent domain of `d`, however short. */
  lemma {:induction false} ParentRelated(pd: string, sub: string)
    requires pd != []
    ensures Related(pd, sub + "." + pd)
  {
    var d := sub + "." + pd;
    assert d[|d| - |"." + pd|..] == "." + pd;
  }

  /** Dropping the matching lines keeps the other lines in order: the result is a
      subsequence, every kept line does not match, every line that does not match (comments,
      blank and unparseable lines among them) is kept, and the lines dropped are counted. */
  lemma {:induction false} UnbindKeepsOthers(parse: Parser, lines: seq<string>, d: string)
    ensures IsSubsequence(Filter(lines, KeepsFor(parse, d)), lines)
    ensures forall l :: l in Filter(lines, KeepsFor(parse, d)) ==> !Unbinds(parse, l, d)
    ensures forall j :: 0 <= j < |lines| && !Unbinds(parse, lines[j], d) ==>
      lines[j] in Filter(lines, KeepsFor(parse, d))
    ensures forall j :: 0 <= j < |lines| && parse(lines[j]).None? ==>
      lines[j] in Filter(lines, KeepsFor(parse, d))
    ensures |Filter(lines, KeepsFor(parse, d))| + Count(lines, DropsFor(parse, d)) == |lines|
  {
    var keep := KeepsFor(parse, d);
    FilterIsSubsequence(lines, keep);
    forall j | 0 <= j < |lines| && keep(lines[j]) ensures lines[j] in Filter(lines, keep) {
      FilterKeeps(lines, keep, j);
    }
    FilterCount(lines, keep, DropsFor(parse, d));
  }

  /** After unbinding `d` no line binds `d`, one of its subdomains or one of its parents. */
  lemma {:induction false} UnbindLeavesNoBinding(parse: Parser, lines: seq<string>, d: string, sub: string)
    ensures d != [] ==> !Bound(parse, Filter(lines, KeepsFor(parse, d)), d)
    ensures !Bound(parse, Filter(lines, KeepsFor(parse, d)), sub + "." + d)
  {
    var r := Filter(lines, KeepsFor(parse, d));
    SubdomainRelated(sub, d);
    forall j | 0 <= j < |r| ensures !Names(parse, r[j], d) || d == [] {
      assert r[j] in r;
    }
    forall j | 0 <= j < |r| ensures !Names(parse, r[j], sub + "." + d) {
      assert r[j] in r;
    }
  }

  /** Nothing matches twice: a second unbinding of `d` finds nothing and returns False. */
  lemma {:induction false} UnbindIdempotent(parse: Parser, lines: seq<string>, d: string)
    ensures Count(Filter(lines, KeepsFor(parse, d)), DropsFor(parse, d)) == 0
    ensures Filter(Filter(lines, KeepsFor(parse, d)), KeepsFor(parse, d)) == Filter(lines, KeepsFor(parse, d))
  {
    var r := Filter(lines, KeepsFor(parse, d));
    forall j | 0 <= j < |r| ensures KeepsFor(parse, d)(r[j]) {
      assert r[j] in r;
    }
    FilterIdentity(r, KeepsFor(parse, d));
    CountZero(r, DropsFor(parse, d));
  }

  /** `unbind_domain` reports failure exactly when it would write back the lines unchanged. */
  lemma {:induction false} NoMatchMeansNoChange(parse: Parser, lines: seq<string>, d: string)
    ensures Count(lines, DropsFor(parse, d)) == 0 <==> Filter(lines, KeepsFor(parse, d)) == lines
  {
    CountZero(lines, DropsFor(parse, d));
    FilterIdentity(lines, KeepsFor(parse, d));
  }

  /** The content written by a successful unbinding reads back as the kept lines. */
  lemma {:induction false} UnbindReadsBack(parse: Parser, c: string, d: string)
    ensures ReadLines(Concat(Filter(ReadLines(c), KeepsFor(parse, d)))) == Filter(ReadLines(c), KeepsFor(parse, d))
  {
    ReadLinesWellFormed(c);
    FilterWellFormed(ReadLines(c), KeepsFor(parse, d));
    ConcatReadLines(Filter(ReadLines(c), KeepsFor(parse, d)));
  }

  /** Once the kept lines are written, reading the file again finds no binding of `d` or of
      a subdomain of it. */
  lemma {:induction false} UnboundAfterWrite(parse: Parser, c: string, d: string, sub: string)
    ensures var back := ReadLines(Concat(Filter(ReadLines(c), KeepsFor(parse, d))));
      (d != [] ==> !Bound(parse, back, d)) && !Bound(parse, back, sub + "." + d)
  {
    UnbindReadsBack(parse, c, d);
    UnbindLeavesNoBinding(parse, ReadLines(c), d, sub);
  }

  /** The domains listed by `TrackedIn` are the tracked domains bound in the lines. */
  lemma {:induction false} TrackedInSpec(parse: Parser, lines: seq<string>)
    ensures forall x :: x in TrackedIn(parse, lines) ==> IsTracked(x)
    ensures forall x :: x in TrackedIn(parse, lines) <==>
      exists j :: 0 <= j < |lines| && BindsTracked(parse, lines[j]) && parse(lines[j]).value.domain == x
  {
    if lines != [] {
      var n := |lines| - 1;
      var p := lines[..n];
      TrackedInSpec(parse, p);
      assert forall j :: 0 <= j < n ==> p[j] == lines[j];
      forall x | x in TrackedIn(parse, lines)
        ensures exists j :: 0 <= j < |lines| && BindsTracked(parse, lines[j]) && parse(lines[j]).value.domain == x
      {
        if x in TrackedIn(parse, p) {
          var j :| 0 <= j < n && BindsTracked(parse, p[j]) && parse(p[j]).value.domain == x;
          assert lines[j] == p[j];
        } else {
          assert BindsTracked(parse, lines[n]) && parse(lines[n]).value.domain == x;
        }
      }
    }
  }

  /** `unbind_all_qiantu` leaves no tracked binding; `removed_count` is the number of lines
      dropped; `removed_domains` lists each removed domain once, and exactly the tracked
      domains that were bound. */
  lemma {:induction false} UnbindAllSpec(parse: Parser, lines: seq<string>)
    ensures forall l :: l in Filter(lines, KeepsUntracked(parse)) ==> !BindsTracked(parse, l)
    ensures IsSubsequence(Filter(lines, KeepsUntracked(parse)), lines)
    ensures |Filter(lines, KeepsUntracked(parse))| + Count(lines, DropsTracked(parse)) == |lines|
    ensures NoDuplicates(Dedup(TrackedIn(parse, lines)))
    ensures forall x :: x in Dedup(TrackedIn(parse, lines)) <==>
      exists j :: 0 <= j < |lines| && BindsTracked(parse, lines[j]) && parse(lines[j]).value.domain == x
    ensures forall x :: x in Dedup(TrackedIn(parse, lines)) ==> IsTracked(x)
  {
    var keep := KeepsUntracked(parse);
    FilterIsSubsequence(lines, keep);
    FilterCount(lines, keep, DropsTracked(parse));
    TrackedInSpec(parse, lines);
    DedupSpec(TrackedIn(parse, lines));
    var t := TrackedIn(parse, lines);
    assert forall x :: x in Dedup(t) <==> x in t by {
      forall x | x in Dedup(t) ensures x in t {
        var k :| 0 <= k < |Dedup(t)| && Dedup(t)[k] == x;
      }
      forall x | x in t ensures x in Dedup(t) {
        var k :| 0 <= k < |t| && t[k] == x;
      }
    }
  }
}
