/** The rewrite `add_hosts_entry` makes of the hosts file's lines (hosts/bind_hosts.py): the
    first existing binding of a domain is replaced in place by the new entry, later ones are
    dropped, and an unbound domain is appended as a new line.

    The rewrite depends on the line parser only through what it returns for each line, so it
    is stated for any parser `parse`; the tools use `HostsEntry.ParseHostsEntry`, and the
    rewrite's properties need of the parser only the two facts `EntryFits` and
    `IgnoresTerminator`, which `HostsBind` proves of it. */
module HostsRewrite {
  import opened Wrappers
  import opened Seqs
  import opened Text
  import opened Lines
  import opened HostsEntry

  /** The line `l` binds `d`: `parsed_domain == domain`, an exact comparison. */
  predicate Names(parse: Parser, l: string, d: string) {
    parse(l).Some? && parse(l).value.domain == d
  }

  function BindsTo(parse: Parser, d: string): string -> bool {
    l => Names(parse, l, d)
  }

  function KeepFor(parse: Parser, d: string): string -> bool {
    l => !Names(parse, l, d)
  }

  /** Some line binds `d`. */
  predicate Bound(parse: Parser, lines: seq<string>, d: string) {
    exists j :: 0 <= j < |lines| && Names(parse, lines[j], d)
  }

  /** `is_domain_bound`. */
  method IsDomainBound(parse: Parser, domain: string, lines: seq<string>) returns (b: bool)
    ensures b <==> Bound(parse, lines, domain)
  {
    for i := 0 to |lines|
      invariant forall j :: 0 <= j < i ==> !Names(parse, lines[j], domain)
    {
      var e := parse(lines[i]);
      if e.Some? && e.value.domain == domain {
        return true;
      }
    }
    return false;
  }

  /** The line written for a binding: `f"{ip}\t{domain}\n"`. */
  function EntryLine(ip: string, d: string): string {
    ip + "\t" + d + "\n"
  }

  /** The entry line for `ip` and `d` is a single line that reads back as that binding. */
  predicate EntryFits(parse: Parser, ip: string, d: string) {
    IsLine(EntryLine(ip, d)) && parse(EntryLine(ip, d)) == Some(Entry(ip, d))
  }

  /** An entry line without a newline in its address or domain is a single terminated line. */
  lemma EntryLineIsLine(ip: string, d: string)
    requires '\n' !in ip && '\n' !in d
    ensures IsLine(EntryLine(ip, d)) && Terminated(EntryLine(ip, d))
  {
    var e := EntryLine(ip, d);
    assert e[..|e| - 1] == ip + "\t" + d;
  }

  /** A line terminator does not change what a line binds. */
  ghost predicate IgnoresTerminator(parse: Parser) {
    forall l :: parse(l + "\n") == parse(l)
  }

  /** Position of the first line binding `d`. */
  function FirstBound(parse: Parser, lines: seq<string>, d: string): (k: nat)
    requires Bound(parse, lines, d)
    ensures k < |lines| && Names(parse, lines[k], d)
    ensures forall j :: 0 <= j < k ==> !Names(parse, lines[j], d)
  {
    if Names(parse, lines[0], d) then 0 else
      assert Bound(parse, lines[1..], d) by {
        var j :| 0 <= j < |lines| && Names(parse, lines[j], d);
        assert lines[1..][j - 1] == lines[j];
      }
      var k := FirstBound(parse, lines[1..], d);
      assert forall j :: 1 <= j <= k ==> lines[j] == lines[1..][j - 1];
      k + 1
  }

  /** The bound case of `add_hosts_entry`: the lines before the first binding of `d`, the new
      entry, and the later lines that do not bind `d`. */
  function Rebound(parse: Parser, lines: seq<string>, d: string, ip: string): seq<string>
    requires Bound(parse, lines, d)
  {
    var k := FirstBound(parse, lines, d);
    lines[..k] + [EntryLine(ip, d)] + Filter(lines[k + 1..], KeepFor(parse, d))
  }

  /** Adds the line terminator a last line may lack. */
  function Terminate(lines: seq<string>): seq<string> {
    if lines != [] && !Terminated(lines[|lines| - 1]) then
      lines[..|lines| - 1] + [lines[|lines| - 1] + "\n"]
    else lines
  }

  /** The unbound case of `add_hosts_entry` as written: `lines.append(entry)`. */
  function AppendedAsWritten(lines: seq<string>, d: string, ip: string): seq<string> {
    lines + [EntryLine(ip, d)]
  }

  /** The unbound case with the last line terminated first, so that the entry is a line of
      its own in the file. */
  function Appended(lines: seq<string>, d: string, ip: string): seq<string> {
    Terminate(lines) + [EntryLine(ip, d)]
  }

  /** `add_hosts_entry` (with the corrected append). */
  function AddEntry(parse: Parser, lines: seq<string>, d: string, ip: string): seq<string> {
    if Bound(parse, lines, d) then Rebound(parse, lines, d, ip) else Appended(lines, d, ip)
  }

  /** Exactly one line binds `d`, and it binds it to `ip`. */
  predicate BindsOnce(parse: Parser, lines: seq<string>, d: string, ip: string) {
    Count(lines, BindsTo(parse, d)) == 1 &&
    forall l :: l in lines && Names(parse, l, d) ==> parse(l) == Some(Entry(ip, d))
  }

  /** The caller's list, which the unbound case of `add_hosts_entry` appends to in place. */
  class LineList {
    var items: seq<string>

    constructor (items: seq<string>)
      ensures this.items == items
    {
      this.items := items;
    }
  }

  /** `add_hosts_entry`: a bound domain gets a new list; otherwise the entry is appended to
      the given list, which is returned. */
  method AddHostsEntry(parse: Parser, domain: string, ip: string, lines: LineList) returns (r: LineList)
    modifies lines
    ensures r.items == AddEntry(parse, old(lines.items), domain, ip)
    ensures Bound(parse, old(lines.items), domain) ==> fresh(r) && lines.items == old(lines.items)
    ensures !Bound(parse, old(lines.items), domain) ==> r == lines
  {
    var bound := IsDomainBound(parse, domain, lines.items);
    if bound {
      var out := ReplaceBinding(parse, domain, ip, lines.items);
      r := new LineList(out);
    } else {
      if lines.items != [] && !Terminated(lines.items[|lines.items| - 1]) {
        lines.items := lines.items[..|lines.items| - 1] + [lines.items[|lines.items| - 1] + "\n"];
      }
      lines.items := lines.items + [EntryLine(ip, domain)];
      r := lines;
    }
  }

  /** The loop of the bound case: the first binding of `domain` is replaced by the new entry
      (`updated` records that it was), and every later binding is skipped. */
  method ReplaceBinding(parse: Parser, domain: string, ip: string, items: seq<string>) returns (out: seq<string>)
    requires Bound(parse, items, domain)
    ensures out == Rebound(parse, items, domain, ip)
  {
    var e := EntryLine(ip, domain);
    ghost var k := FirstBound(parse, items, domain);
    out := [];
    var updated := false;
    for i := 0 to |items|
      invariant updated <==> i > k
      invariant out == ReplacedUpTo(parse, items, domain, ip, k, i)
    {
      ReplacedStep(parse, items, domain, ip, k, i);
      var pe := parse(items[i]);
      if pe.Some? && pe.value.domain == domain {
        if !updated {
          assert i == k;
          out := out + [e];
          updated := true;
        } else {
          assert ReplacedUpTo(parse, items, domain, ip, k, i + 1) == out + [];
        }
      } else {
        out := out + [items[i]];
      }
    }
    ReplacedAll(parse, items, domain, ip, k);
  }

  lemma {:induction false} ReplacedAll(parse: Parser, items: seq<string>, d: string, ip: string, k: nat)
    requires Bound(parse, items, d) && k == FirstBound(parse, items, d)
    ensures ReplacedUpTo(parse, items, d, ip, k, |items|) == Rebound(parse, items, d, ip)
  {
    var tail := items[k + 1..];
    assert items[k + 1..|items|] == tail;
    var f := Filter(tail, KeepFor(parse, d));
    assert ReplacedUpTo(parse, items, d, ip, k, |items|) == items[..k] + [EntryLine(ip, d)] + f;
  }

  /** What the loop of `ReplaceBinding` has built after the first `i` lines. */
  ghost function ReplacedUpTo(parse: Parser, items: seq<string>, d: string, ip: string, k: nat, i: nat): seq<string>
    requires k < |items| && i <= |items|
  {
    if i <= k then items[..i]
    else items[..k] + [EntryLine(ip, d)] + Filter(items[k + 1..i], KeepFor(parse, d))
  }

  lemma {:induction false} ReplacedStep(parse: Parser, items: seq<string>, d: string, ip: string, k: nat, i: nat)
    requires Bound(parse, items, d) && k == FirstBound(parse, items, d) && i < |items|
    ensures ReplacedUpTo(parse, items, d, ip, k, i + 1) ==
      if i < k then ReplacedUpTo(parse, items, d, ip, k, i) + [items[i]]
      else if i == k then ReplacedUpTo(parse, items, d, ip, k, i) + [EntryLine(ip, d)]
      else ReplacedUpTo(parse, items, d, ip, k, i) + (if Names(parse, items[i], d) then [] else [items[i]])
    ensures i == k <==> (i <= k && Names(parse, items[i], d))
  {
    if i < k {
      ReplacedBefore(parse, items, d, ip, k, i);
    } else if i == k {
      ReplacedAt(parse, items, d, ip, k);
    } else {
      ReplacedAfter(parse, items, d, ip, k, i);
    }
  }

  lemma {:induction false} ReplacedBefore(parse: Parser, items: seq<string>, d: string, ip: string, k: nat, i: nat)
    requires i < k < |items|
    ensures ReplacedUpTo(parse, items, d, ip, k, i + 1) == ReplacedUpTo(parse, items, d, ip, k, i) + [items[i]]
  {
    TakeSnoc(items, i);
  }

  lemma {:induction false} ReplacedAt(parse: Parser, items: seq<string>, d: string, ip: string, k: nat)
    requires k < |items|
    ensures ReplacedUpTo(parse, items, d, ip, k, k + 1) == ReplacedUpTo(parse, items, d, ip, k, k) + [EntryLine(ip, d)]
  {
    assert items[k + 1..k + 1] == [];
    assert Filter(items[k + 1..k + 1], KeepFor(parse, d)) == [];
  }

  lemma {:induction false} ReplacedAfter(parse: Parser, items: seq<string>, d: string, ip: string, k: nat, i: nat)
    requires k < i < |items|
    ensures ReplacedUpTo(parse, items, d, ip, k, i + 1) ==
      ReplacedUpTo(parse, items, d, ip, k, i) + (if Names(parse, items[i], d) then [] else [items[i]])
  {
    FilterStep(items, k, i, KeepFor(parse, d));
    var head := items[..k] + [EntryLine(ip, d)];
    var f := Filter(items[k + 1..i], KeepFor(parse, d));
    var tail := if Names(parse, items[i], d) then [] else [items[i]];
    assert head + (f + tail) == head + f + tail;
  }

  lemma {:induction false} FilterStep(items: seq<string>, k: nat, i: nat, keep: string -> bool)
    requires k < i < |items|
    ensures Filter(items[k + 1..i + 1], keep) ==
      Filter(items[k + 1..i], keep) + (if keep(items[i]) then [items[i]] else [])
  {
    SliceSnoc(items, k + 1, i);
    FilterAppend(items[k + 1..i], items[i], keep);
  }

  // ---------------------------------------------------------------------------
  // Properties of the rewrite

  /** Rewriting a bound domain: its first binding line is replaced by the new entry, the
      lines before it are untouched, and afterwards it is bound exactly once, to `ip`. */
  lemma {:induction false} ReboundBindsOnce(parse: Parser, lines: seq<string>, d: string, ip: string)
    requires Bound(parse, lines, d) && EntryFits(parse, ip, d)
    ensures var r := Rebound(parse, lines, d, ip); var k := FirstBound(parse, lines, d);
      k < |r| && r[..k] == lines[..k] && r[k] == EntryLine(ip, d) && BindsOnce(parse, r, d, ip)
  {
    var k := FirstBound(parse, lines, d);
    var pre := lines[..k];
    var e := EntryLine(ip, d);
    var f := Filter(lines[k + 1..], KeepFor(parse, d));
    var r := Rebound(parse, lines, d, ip);
    assert r == (pre + [e]) + f;
    assert (pre + [e])[..k] == pre;
    CountConcat(pre + [e], f, BindsTo(parse, d));
    CountAppend(pre, e, BindsTo(parse, d));
    forall i | 0 <= i < |pre| ensures !BindsTo(parse, d)(pre[i]) {
      assert pre[i] == lines[i];
    }
    forall i | 0 <= i < |f| ensures !BindsTo(parse, d)(f[i]) {
      assert f[i] in f;
    }
    CountZero(pre, BindsTo(parse, d));
    CountZero(f, BindsTo(parse, d));
    assert forall l :: l in r && Names(parse, l, d) ==> l == e;
  }

  /** Rewriting a bound domain changes nothing but bindings of that domain: the lines that
      do not bind it are the same lines, in the same order. */
  lemma {:induction false} ReboundKeepsOthers(parse: Parser, lines: seq<string>, d: string, ip: string)
    requires Bound(parse, lines, d) && EntryFits(parse, ip, d)
    ensures Filter(Rebound(parse, lines, d, ip), KeepFor(parse, d)) == Filter(lines, KeepFor(parse, d))
  {
    var k := FirstBound(parse, lines, d);
    var pre := lines[..k];
    var rest := lines[k + 1..];
    var e := EntryLine(ip, d);
    var keep := KeepFor(parse, d);
    var f := Filter(rest, keep);
    FilterIdentity(pre, keep);
    FilterIdentity(f, keep);
    FilterConcat(pre + [e], f, keep);
    FilterAppend(pre, e, keep);
    SplitAt(lines, k);
    FilterConcat(pre + [lines[k]], rest, keep);
    FilterAppend(pre, lines[k], keep);
  }

  /** Terminating the last line keeps every line's binding, and makes well-formed lines all
      terminated. */
  lemma {:induction false} TerminateSpec(parse: Parser, lines: seq<string>)
    requires IgnoresTerminator(parse)
    ensures var t := Terminate(lines);
      |t| == |lines| &&
      (forall j :: 0 <= j < |lines| ==> parse(t[j]) == parse(lines[j])) &&
      (forall j :: 0 <= j < |lines| ==> t[j] == lines[j] || (j == |lines| - 1 && t[j] == lines[j] + "\n"))
    ensures WellFormed(lines) ==> AllLines(Terminate(lines)) && AllTerminated(Terminate(lines))
  {
    var t := Terminate(lines);
    if lines != [] && !Terminated(lines[|lines| - 1]) {
      var n := |lines| - 1;
      var last := lines[n];
      assert t[n] == last + "\n";
      assert parse(last + "\n") == parse(last);
      if WellFormed(lines) {
        WellFormedSplit(lines);
        assert (last + "\n")[..|last|] == last;
        assert last[..|last| - 1] + [last[|last| - 1]] == last;
        assert IsLine(last + "\n");
        forall l | l in t ensures IsLine(l) && Terminated(l) {
          if l != t[n] {
            var j :| 0 <= j < |t| && t[j] == l;
            assert l in lines[..n];
          }
        }
      }
    } else if WellFormed(lines) && lines != [] {
      WellFormedSplit(lines);
      assert lines == lines[..|lines| - 1] + [lines[|lines| - 1]];
    }
  }

  lemma {:induction false} CountSame(a: seq<string>, b: seq<string>, p: string -> bool)
    requires |a| == |b| && forall j :: 0 <= j < |a| ==> (p(a[j]) <==> p(b[j]))
    ensures Count(a, p) == Count(b, p)
  {
    if a != [] {
      var n := |a| - 1;
      assert forall j :: 0 <= j < n ==> a[..n][j] == a[j] && b[..n][j] == b[j];
      CountSame(a[..n], b[..n], p);
    }
  }

  /** Appending an unbound domain: the lines keep their bindings (the last one possibly
      gaining its terminator), the entry comes last, and the domain is bound exactly once. */
  lemma {:induction false} AppendedBindsOnce(parse: Parser, lines: seq<string>, d: string, ip: string)
    requires !Bound(parse, lines, d) && EntryFits(parse, ip, d) && IgnoresTerminator(parse)
    ensures var r := Appended(lines, d, ip);
      |r| == |lines| + 1 && r[|lines|] == EntryLine(ip, d) && BindsOnce(parse, r, d, ip) &&
      (forall j :: 0 <= j < |lines| ==> parse(r[j]) == parse(lines[j])) &&
      (forall j :: 0 <= j < |lines| ==> r[j] == lines[j] || (j == |lines| - 1 && r[j] == lines[j] + "\n"))
  {
    var t := Terminate(lines);
    var e := EntryLine(ip, d);
    var r := Appended(lines, d, ip);
    TerminateSpec(parse, lines);
    assert forall j :: 0 <= j < |t| ==> r[j] == t[j];
    CountSame(t, lines, BindsTo(parse, d));
    CountZero(lines, BindsTo(parse, d));
    CountAppend(t, e, BindsTo(parse, d));
    forall j | 0 <= j < |t| ensures !Names(parse, t[j], d) {
      assert parse(t[j]) == parse(lines[j]);
    }
    assert forall l :: l in r && Names(parse, l, d) ==> l == e;
  }

  lemma {:induction false} InPrefix(s: seq<string>, k: int, l: string)
    requires 0 <= k <= |s| && l in s[..k]
    ensures l in s
  {
    var j :| 0 <= j < k && s[..k][j] == l;
    assert s[j] == l;
  }

  lemma {:induction false} InSuffix(s: seq<string>, k: int, l: string)
    requires 0 <= k <= |s| && l in s[k..]
    ensures l in s
  {
    var j :| 0 <= j < |s| - k && s[k..][j] == l;
    assert s[k + j] == l;
  }

  /** Rewriting a bound domain leaves the binding of every other domain as it was. */
  lemma {:induction false} ReboundKeepsOther(parse: Parser, lines: seq<string>, d: string, ip: string, d2: string, ip2: string)
    requires Bound(parse, lines, d) && EntryFits(parse, ip, d)
    requires d2 != d && BindsOnce(parse, lines, d2, ip2)
    ensures BindsOnce(parse, Rebound(parse, lines, d, ip), d2, ip2)
  {
    var k := FirstBound(parse, lines, d);
    var pre := lines[..k];
    var rest := lines[k + 1..];
    var e := EntryLine(ip, d);
    var f := Filter(rest, KeepFor(parse, d));
    var r := Rebound(parse, lines, d, ip);
    var p := BindsTo(parse, d2);
    assert !p(e);
    CountConcat(pre + [e], f, p);
    CountAppend(pre, e, p);
    CountFilterKept(rest, KeepFor(parse, d), p);
    SplitAt(lines, k);
    CountConcat(pre + [lines[k]], rest, p);
    CountAppend(pre, lines[k], p);
    forall l | l in r && Names(parse, l, d2) ensures l in lines {
      if l in pre {
        InPrefix(lines, k, l);
      } else if l != e {
        assert l in f;
        InSuffix(lines, k + 1, l);
      }
    }
  }

  /** Appending an unbound domain leaves the binding of every other domain as it was. */
  lemma {:induction false} AppendedKeepsOther(parse: Parser, lines: seq<string>, d: string, ip: string, d2: string, ip2: string)
    requires EntryFits(parse, ip, d) && IgnoresTerminator(parse)
    requires d2 != d && BindsOnce(parse, lines, d2, ip2)
    ensures BindsOnce(parse, Appended(lines, d, ip), d2, ip2)
  {
    var t := Terminate(lines);
    var e := EntryLine(ip, d);
    var r := Appended(lines, d, ip);
    TerminateSpec(parse, lines);
    CountSame(t, lines, BindsTo(parse, d2));
    CountAppend(t, e, BindsTo(parse, d2));
    forall l | l in r && Names(parse, l, d2) ensures parse(l) == Some(Entry(ip2, d2)) {
      var j :| 0 <= j < |t| && t[j] == l;
      assert lines[j] in lines;
    }
  }

  /** The rewrite keeps a hosts file well formed. */
  lemma {:induction false} AddEntryWellFormed(parse: Parser, lines: seq<string>, d: string, ip: string)
    requires WellFormed(lines) && EntryFits(parse, ip, d) && IgnoresTerminator(parse)
    ensures WellFormed(AddEntry(parse, lines, d, ip))
  {
    var e := EntryLine(ip, d);
    assert WellFormed([e]);
    if Bound(parse, lines, d) {
      var k := FirstBound(parse, lines, d);
      var pre := lines[..k];
      var rest := lines[k + 1..];
      forall l | l in pre + [e] ensures IsLine(l) && Terminated(l) {
        if l != e {
          var j :| 0 <= j < k && pre[j] == l;
          assert lines[j] == l;
        }
      }
      assert WellFormed(rest) by {
        forall j | 0 <= j < |rest| ensures rest[j] == lines[k + 1 + j] {}
      }
      FilterWellFormed(rest, KeepFor(parse, d));
      WellFormedConcat(pre + [e], Filter(rest, KeepFor(parse, d)));
    } else {
      TerminateSpec(parse, lines);
      WellFormedConcat(Terminate(lines), [e]);
    }
  }

  /** Writing lines whose last one lacks its terminator, followed by one more line, reads
      back with the two joined into one line. */
  lemma {:induction false} MergesIntoLast(prefix: seq<string>, h: string, e: string)
    requires WellFormed(prefix + [h]) && !Terminated(h) && IsLine(e)
    ensures ReadLines(Concat(prefix + [h] + [e])) == prefix + [h + e]
  {
    MergedText(prefix, h, e);
    MergedWellFormed(prefix, h, e);
    ConcatReadLines(prefix + [h + e]);
  }

  lemma {:induction false} MergedText(prefix: seq<string>, h: string, e: string)
    ensures Concat(prefix + [h] + [e]) == Concat(prefix + [h + e])
  {
    ConcatAppend(prefix + [h], e);
    ConcatAppend(prefix, h);
    ConcatAppend(prefix, h + e);
    var c := Concat(prefix);
    assert (c + h) + e == c + (h + e);
  }

  lemma {:induction false} MergedWellFormed(prefix: seq<string>, h: string, e: string)
    requires WellFormed(prefix + [h]) && !Terminated(h) && IsLine(e)
    ensures WellFormed(prefix + [h + e])
  {
    var lines := prefix + [h];
    var m := h + e;
    assert lines[..|lines| - 1] == prefix;
    WellFormedSplit(lines);
    assert '\n' !in h by {
      assert h == h[..|h| - 1] + [h[|h| - 1]];
    }
    assert m[..|m| - 1] == h + e[..|e| - 1];
    assert IsLine(m);
    assert WellFormed([m]);
    WellFormedConcat(prefix, [m]);
  }

  /** The unbound case as written, after a last line without its terminator whose join with
      the entry binds nothing: the file reads back without a line for the entry, and the
      domain stays unbound. */
  lemma {:induction false} AppendAsWrittenMerges(parse: Parser, prefix: seq<string>, h: string, d: string, ip: string)
    requires WellFormed(prefix + [h]) && !Terminated(h) && EntryFits(parse, ip, d)
    requires !Bound(parse, prefix + [h], d) && !Names(parse, h + EntryLine(ip, d), d)
    ensures var back := ReadLines(Concat(AppendedAsWritten(prefix + [h], d, ip)));
      back == prefix + [h + EntryLine(ip, d)] && !Bound(parse, back, d)
  {
    MergesIntoLast(prefix, h, EntryLine(ip, d));
    UnboundReplaceLast(parse, prefix, h, h + EntryLine(ip, d), d);
  }

  /** Replacing the last line by one that does not bind `d` keeps `d` unbound. */
  lemma {:induction false} UnboundReplaceLast(parse: Parser, prefix: seq<string>, h: string, m: string, d: string)
    requires !Bound(parse, prefix + [h], d) && !Names(parse, m, d)
    ensures !Bound(parse, prefix + [m], d)
  {
    var lines := prefix + [h];
    var back := prefix + [m];
    forall j | 0 <= j < |back| ensures !Names(parse, back[j], d) {
      if j < |prefix| {
        assert back[j] == lines[j];
      }
    }
  }

  // ---------------------------------------------------------------------------
  // Binding several domains

  /** The domain-address pairs of `domain_ips`, in insertion order. */
  type Pairs = seq<(string, string)>

  function Keys(ps: Pairs): (ks: seq<string>)
    ensures |ks| == |ps| && forall k :: 0 <= k < |ps| ==> ks[k] == ps[k].0
  {
    if ps == [] then [] else Keys(ps[..|ps| - 1]) + [ps[|ps| - 1].0]
  }

  /** The new lines after the loop `for domain, ip in domain_ips.items()`. */
  function BindAll(parse: Parser, lines: seq<string>, ps: Pairs): seq<string> {
    if ps == [] then lines
    else AddEntry(parse, BindAll(parse, lines, ps[..|ps| - 1]), ps[|ps| - 1].0, ps[|ps| - 1].1)
  }

  /** Every pair's entry line fits. */
  predicate AllFit(parse: Parser, ps: Pairs) {
    forall k :: 0 <= k < |ps| ==> EntryFits(parse, ps[k].1, ps[k].0)
  }

  /** After the rewrite for distinct domains, each of them is bound exactly once, to its
      address, and the lines are still well formed. */
  lemma {:induction false} BindAllBindsOnce(parse: Parser, lines: seq<string>, ps: Pairs)
    requires WellFormed(lines) && NoDuplicates(Keys(ps)) && AllFit(parse, ps) && IgnoresTerminator(parse)
    ensures WellFormed(BindAll(parse, lines, ps))
    ensures forall k :: 0 <= k < |ps| ==> BindsOnce(parse, BindAll(parse, lines, ps), ps[k].0, ps[k].1)
  {
    if ps != [] {
      var n := |ps| - 1;
      var ps' := ps[..n];
      var b := BindAll(parse, lines, ps');
      var (d, ip) := ps[n];
      assert Keys(ps') == Keys(ps)[..n];
      assert AllFit(parse, ps') by {
        forall k | 0 <= k < n ensures ps'[k] == ps[k] {}
      }
      BindAllBindsOnce(parse, lines, ps');
      AddEntryWellFormed(parse, b, d, ip);
      forall k | 0 <= k < |ps| ensures BindsOnce(parse, AddEntry(parse, b, d, ip), ps[k].0, ps[k].1) {
        if k == n {
          if Bound(parse, b, d) {
            ReboundBindsOnce(parse, b, d, ip);
          } else {
            AppendedBindsOnce(parse, b, d, ip);
          }
        } else {
          assert Keys(ps)[k] != Keys(ps)[n];
          assert ps'[k] == ps[k];
          if Bound(parse, b, d) {
            ReboundKeepsOther(parse, b, d, ip, ps[k].0, ps[k].1);
          } else {
            AppendedKeepsOther(parse, b, d, ip, ps[k].0, ps[k].1);
          }
        }
      }
    }
  }
}
