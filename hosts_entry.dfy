/** Reading and parsing the hosts file, and listing the Qiantu domains bound in it
    (hosts/check_hosts.py). */
module HostsEntry {
  import opened Wrappers
  import opened Text
  import opened Lines

  /** The domains the tools consider theirs; a domain is tracked when it is one of these
      or a subdomain of one. */
  const QiantuDomains: seq<string> := [
    "preview.qiantucdn.com",
    "js.qiantucdn.com",
    "icon.qiantucdn.com",
    "dl.58pic.com",
    "y.58pic.com",
    "proxy-rar.58pic.com",
    "proxy-vip.58pic.com",
    "proxy-vd.58pic.com",
    "58pic.com",
    "qiantucdn.com"
  ]

  /** `d == base or d.endswith('.' + base)`. */
  predicate IsUnder(d: string, base: string) {
    d == base || EndsWith(d, "." + base)
  }

  predicate IsTracked(d: string) {
    exists q :: 0 <= q < |QiantuDomains| && IsUnder(d, QiantuDomains[q])
  }

  /** One binding `ip domain` of the hosts file. */
  datatype Entry = Entry(ip: string, domain: string)

  /** The stripped text in front of the first `#`. */
  function Uncomment(s: string): (r: string)
    ensures '#' !in r
  {
    if '#' in s then
      var i := IndexOf(s, '#');
      StripAvoids(s[..i], '#');
      Strip(s[..i])
    else s
  }

  /** The binding stated by one line: its first two whitespace-separated words, when the
      first has the shape of an IPv4 address; blank lines and comments state none. */
  function ParseHostsEntry(line: string): (e: Option<Entry>)
    ensures e.Some? ==> IsDottedQuad(e.value.ip) && IsToken(e.value.domain)
  {
    ParseStripped(Strip(line))
  }

  /** The parse of an already stripped line. */
  function ParseStripped(s: string): (e: Option<Entry>)
    ensures e.Some? ==> IsDottedQuad(e.value.ip) && IsToken(e.value.domain)
  {
    if s == [] || s[0] == '#' then None else ParseWords(Uncomment(s))
  }

  /** The parse of a line stripped of its comment. */
  function ParseWords(u: string): (e: Option<Entry>)
    requires '#' !in u
    ensures e.Some? ==> IsDottedQuad(e.value.ip) && IsToken(e.value.domain)
  {
    var parts := Split(u);
    if |parts| >= 2 && IsDottedQuad(parts[0]) then
      SplitAvoids(u, '#');
      SplitWords(u);
      assert '#' !in parts[1];
      Some(Entry(parts[0], parts[1]))
    else None
  }

  function DomainOf(line: string): Option<string> {
    match ParseHostsEntry(line)
    case Some(e) => Some(e.domain)
    case None => None
  }

  /** How many lines `read_hosts(max_lines)` keeps out of `n`: a zero or absent limit keeps
      all of them, a negative one none. */
  function WindowSize(n: nat, maxLines: Option<int>): (m: nat)
    ensures m <= n
  {
    if maxLines.None? || maxLines.value == 0 then n
    else if maxLines.value < 0 then 0
    else if maxLines.value < n then maxLines.value
    else n
  }

  /** The lines `read_hosts` returns for a file with content `file` (`None`: the file cannot
      be opened or read, which yields no lines). */
  function HostsWindow(file: Option<string>, maxLines: Option<int>): seq<string> {
    match file
    case None => []
    case Some(c) => ReadLines(c)[..WindowSize(|ReadLines(c)|, maxLines)]
  }

  method ReadHosts(file: Option<string>, maxLines: Option<int>) returns (lines: seq<string>)
    ensures file.None? ==> lines == []
    ensures file.Some? ==> lines <= ReadLines(file.value)
    ensures file.Some? ==> |lines| == WindowSize(|ReadLines(file.value)|, maxLines)
    ensures lines == HostsWindow(file, maxLines)
  {
    match file
    case None =>
      lines := [];
    case Some(c) =>
      var all := ReadLines(c);
      if maxLines.Some? && maxLines.value != 0 {
        lines := [];
        var i := 0;
        while i < |all|
          invariant 0 <= i <= |all|
          invariant lines == all[..i]
          invariant i <= WindowSize(|all|, maxLines)
        {
          if i >= maxLines.value {
            break;
          }
          lines := lines + [all[i]];
          i := i + 1;
        }
      } else {
        lines := all;
      }
  }

  /** A tracked domain's first binding: its address, its 1-based line number and the
      stripped line. */
  datatype Binding = Binding(ip: string, line: nat, rawLine: string)

  /** A line parser; the tools use `ParseHostsEntry`. */
  type Parser = string -> Option<Entry>

  /** The parse of every line, in order. */
  function Entries(parse: Parser, lines: seq<string>): (es: seq<Option<Entry>>)
    ensures |es| == |lines|
  {
    seq(|lines|, j requires 0 <= j < |lines| => parse(lines[j]))
  }

  lemma EntriesAt(parse: Parser, lines: seq<string>, j: nat)
    requires j < |lines|
    ensures Entries(parse, lines)[j] == parse(lines[j])
  {
  }

  /** The line at index `j` binds `d`. */
  predicate Binds(es: seq<Option<Entry>>, j: int, d: string)
    requires 0 <= j < |es|
  {
    es[j].Some? && es[j].value.domain == d
  }

  /** `b` describes the first of `lines` (parsed as `es`) that binds `d`. */
  predicate FirstBinding(lines: seq<string>, es: seq<Option<Entry>>, d: string, b: Binding)
    requires |es| == |lines|
  {
    1 <= b.line <= |lines|
    && es[b.line - 1] == Some(Entry(b.ip, d))
    && b.rawLine == Strip(lines[b.line - 1])
    && forall j :: 0 <= j < b.line - 1 ==> !Binds(es, j, d)
  }

  /** Every recorded domain is tracked and carries its first binding, found among the first
      `i` lines. */
  predicate Recorded(lines: seq<string>, es: seq<Option<Entry>>, results: map<string, Binding>, i: nat)
    requires |es| == |lines|
  {
    forall d :: d in results ==> IsTracked(d) && FirstBinding(lines, es, d, results[d]) && results[d].line <= i
  }

  /** Every tracked domain bound among the first `i` lines is recorded. */
  predicate Complete(es: seq<Option<Entry>>, results: map<string, Binding>, i: nat)
    requires i <= |es|
  {
    forall j :: 0 <= j < i && es[j].Some? && IsTracked(es[j].value.domain) ==> es[j].value.domain in results
  }

  /** The results after scanning the first `i` lines. */
  predicate Scanned(lines: seq<string>, es: seq<Option<Entry>>, results: map<string, Binding>, i: nat)
    requires i <= |lines| == |es|
  {
    Recorded(lines, es, results, i) && Complete(es, results, i)
  }

  /** The tracked domains bound in the first lines of the hosts file, each with its first
      binding, and no other domain. */
  method CheckHosts(file: Option<string>, maxLines: Option<int>) returns (results: map<string, Binding>)
    ensures var lines := HostsWindow(file, maxLines);
      Recorded(lines, Entries(ParseHostsEntry, lines), results, |lines|) &&
      Complete(Entries(ParseHostsEntry, lines), results, |lines|)
  {
    var lines := ReadHosts(file, maxLines);
    results := ScanLines(ParseHostsEntry, lines);
  }

  /** The loop of `check_hosts` over the lines read, each parsed with `parse`. */
  method ScanLines(parse: Parser, lines: seq<string>) returns (results: map<string, Binding>)
    ensures Recorded(lines, Entries(parse, lines), results, |lines|) &&
      Complete(Entries(parse, lines), results, |lines|)
  {
    ghost var es := Entries(parse, lines);
    results := map[];
    var i := 0;
    while i < |lines|
      invariant 0 <= i <= |lines|
      invariant Scanned(lines, es, results, i)
    {
      ghost var before := results;
      results := ScanLine(parse(lines[i]), Strip(lines[i]), i + 1, results);
      EntriesAt(parse, lines, i);
      RecordStep(lines, es, before, results, i);
      i := i + 1;
    }
  }

  /** One iteration, given the parse `e` of the line and the stripped line `raw`: the first
      binding of a tracked domain is recorded with its line number. */
  method ScanLine(e: Option<Entry>, raw: string, lineNum: nat, results: map<string, Binding>)
    returns (r: map<string, Binding>)
    ensures r == if e.Some? && IsTracked(e.value.domain) && e.value.domain !in results
                 then results[e.value.domain := Binding(e.value.ip, lineNum, raw)]
                 else results
  {
    r := results;
    if e.Some? && e.value.domain != [] {
      var d := e.value.domain;
      var tracked := MatchesQiantu(d);
      if tracked && d !in r {
        r := r[d := Binding(e.value.ip, lineNum, raw)];
      }
    }
  }

  /** The inner loop over the tracked bases, which stops at the first one `d` falls under. */
  method MatchesQiantu(d: string) returns (found: bool)
    ensures found <==> IsTracked(d)
  {
    found := false;
    var k := 0;
    while k < |QiantuDomains|
      invariant 0 <= k <= |QiantuDomains|
      invariant forall q :: 0 <= q < k ==> !IsUnder(d, QiantuDomains[q])
    {
      if IsUnder(d, QiantuDomains[k]) {
        found := true;
        break;
      }
      k := k + 1;
    }
  }

  /** One iteration of the scan keeps both loop invariants. */
  lemma RecordStep(lines: seq<string>, es: seq<Option<Entry>>, before: map<string, Binding>,
                   after: map<string, Binding>, i: nat)
    requires i < |lines| == |es|
    requires Scanned(lines, es, before, i)
    requires var e := es[i];
      after == if e.Some? && IsTracked(e.value.domain) && e.value.domain !in before
               then before[e.value.domain := Binding(e.value.ip, i + 1, Strip(lines[i]))]
               else before
    ensures Scanned(lines, es, after, i + 1)
  {
    var e := es[i];
    if e.Some? && IsTracked(e.value.domain) && e.value.domain !in before {
      var d := e.value.domain;
      var b := Binding(e.value.ip, i + 1, Strip(lines[i]));
      assert FirstBinding(lines, es, d, b);
      forall x | x in after ensures IsTracked(x) && FirstBinding(lines, es, x, after[x]) && after[x].line <= i + 1 {
        if x != d {
          assert after[x] == before[x];
        }
      }
    }
  }

  // ---------------------------------------------------------------------------
  // Properties of the line parser

  /** The text of a binding line with its words put back together. */
  lemma {:induction false} StrippedEntryLine(ip: string, sep: string, domain: string, rest: string)
    requires IsDottedQuad(ip) && sep != [] && AllSpace(sep) && IsToken(domain)
    requires rest == [] || IsSpace(rest[0])
    ensures Strip(ip + sep + domain + rest) == ip + sep + domain + TrimRight(rest)
  {
    DottedQuadIsToken(ip);
    var core := ip + sep + domain;
    var line := core + rest;
    assert line[0] == ip[0];
    TrimLeftNoop(line);
    assert core[|core| - 1] == domain[|domain| - 1];
    TrimRightNoop(core);
    TrimRightAppend(core, rest);
  }

  /** A line `ip sep domain rest` binds `domain` to `ip`: the parser reads back what a
      binding line says, whatever whitespace separates the words, and ignores any further
      words (aliases) on the line. */
  lemma {:induction false} ParseEntryLine(ip: string, sep: string, domain: string, rest: string)
    requires IsDottedQuad(ip) && sep != [] && AllSpace(sep) && IsToken(domain)
    requires rest == [] || IsSpace(rest[0])
    requires '#' !in rest
    ensures ParseHostsEntry(ip + sep + domain + rest) == Some(Entry(ip, domain))
  {
    StrippedEntryLine(ip, sep, domain, rest);
    var t := TrimRight(rest);
    assert '#' !in t;
    ParseStrippedEntry(ip, sep, domain, t);
  }

  lemma {:induction false} ParseStrippedEntry(ip: string, sep: string, domain: string, t: string)
    requires IsDottedQuad(ip) && sep != [] && AllSpace(sep) && IsToken(domain)
    requires t == [] || IsSpace(t[0])
    requires '#' !in t
    ensures ParseStripped(ip + sep + domain + t) == Some(Entry(ip, domain))
  {
    DottedQuadIsToken(ip);
    EntryText(ip, sep, domain, t);
    SplitEntry(ip, sep, domain, t);
    var s := ip + sep + domain + t;
    StrippedIsWords(s);
    WordsOfEntry(s, ip, domain, Split(t));
  }

  /** A line made of comment-free pieces starting with a token is non-empty and has no `#`. */
  lemma {:induction false} EntryText(ip: string, sep: string, domain: string, t: string)
    requires IsToken(ip) && AllSpace(sep) && IsToken(domain) && '#' !in t
    ensures var s := ip + sep + domain + t; s != [] && '#' !in s
  {
    assert '#' !in sep;
  }

  /** A non-empty stripped line without `#` is parsed by its words. */
  lemma {:induction false} StrippedIsWords(s: string)
    requires s != [] && '#' !in s
    ensures ParseStripped(s) == ParseWords(s)
  {
    assert s[0] != '#';
    assert Uncomment(s) == s;
  }

  /** A comment-free line whose first two words are an address and a domain binds that
      domain to that address. */
  lemma {:induction false} WordsOfEntry(s: string, ip: string, domain: string, rest: seq<string>)
    requires '#' !in s && IsDottedQuad(ip)
    requires Split(s) == [ip] + ([domain] + rest)
    ensures ParseWords(s) == Some(Entry(ip, domain))
  {
    var parts := Split(s);
    assert parts[0] == ip && parts[1] == domain;
  }

  lemma {:induction false} SplitEntry(ip: string, sep: string, domain: string, t: string)
    requires IsToken(ip) && sep != [] && AllSpace(sep) && IsToken(domain)
    requires t == [] || IsSpace(t[0])
    ensures Split(ip + sep + domain + t) == [ip] + ([domain] + Split(t))
  {
    assert ip + sep + domain + t == ip + (sep + (domain + t));
    SplitWord(ip, sep + (domain + t));
    SplitSpaces(sep, domain + t);
    SplitWord(domain, t);
  }

  /** Everything from the first `#` on is a comment and does not change the binding. */
  lemma {:induction false} CommentDiscarded(s: string, c: string)
    requires '#' !in s
    ensures ParseHostsEntry(s + "#" + c) == ParseHostsEntry(s)
  {
    var h := "#" + c;
    assert s + "#" + c == s + h;
    TrimRightKeepsHead(h);
    if TrimLeft(s) == [] {
      BlankBeforeComment(s, h);
    } else {
      WordsBeforeComment(s, h);
    }
  }

  lemma {:induction false} BlankBeforeComment(s: string, h: string)
    requires TrimLeft(s) == [] && TrimRight(h) != [] && TrimRight(h)[0] == '#'
    ensures ParseHostsEntry(s + h) == None == ParseHostsEntry(s)
  {
    StripEmpty(s);
    TrimLeftSpaces(s, h);
    assert h[0] == '#';
    TrimLeftNoop(h);
    var st := Strip(s + h);
    assert st == TrimRight(h);
    assert st != [] && st[0] == '#';
    assert ParseStripped(st) == None;
    assert ParseStripped(Strip(s)) == None;
  }

  lemma {:induction false} WordsBeforeComment(s: string, h: string)
    requires '#' !in s && TrimLeft(s) != [] && TrimRight(h) != [] && TrimRight(h)[0] == '#'
    ensures ParseHostsEntry(s + h) == ParseHostsEntry(s)
  {
    StripAvoids(s, '#');
    var tl := TrimLeft(s);
    var th := TrimRight(h);
    TrimLeftAppend(s, h);
    TrimRightAppend(tl, h);
    assert Strip(s + h) == tl + th;
    UncommentAt(tl, th);
    TrimLeftIdempotent(s);
    var ss := Strip(s);
    assert Uncomment(tl + th) == ss;
    assert ss[0] == tl[0];
    assert Uncomment(ss) == ss;
    assert ParseStripped(tl + th) == ParseWords(ss);
  }

  /** Comment removal cuts a stripped line at its first `#`. */
  lemma {:induction false} UncommentAt(a: string, b: string)
    requires '#' !in a && b != [] && b[0] == '#'
    ensures Uncomment(a + b) == Strip(a)
  {
    var st := a + b;
    assert st[|a|] == '#';
    assert st[..|a|] == a;
    assert IndexOf(st, '#') == |a|;
  }

  /** Lines holding only whitespace bind nothing. */
  lemma {:induction false} BlankLine(line: string)
    requires AllSpace(line)
    ensures ParseHostsEntry(line) == None
  {
    TrimLeftSpaces(line, []);
    assert line + [] == line;
  }

  /** Lines whose first non-blank character is `#` bind nothing. */
  lemma {:induction false} CommentLine(indent: string, c: string)
    requires AllSpace(indent)
    ensures ParseHostsEntry(indent + "#" + c) == None
  {
    var h := "#" + c;
    assert indent + "#" + c == indent + h;
    StrippedComment(indent, h);
  }

  lemma {:induction false} StrippedComment(indent: string, h: string)
    requires AllSpace(indent) && h != [] && h[0] == '#'
    ensures Strip(indent + h) != [] && Strip(indent + h)[0] == '#'
  {
    TrimLeftSpaces(indent, h);
    TrimLeftNoop(h);
    TrimRightKeepsHead(h);
  }

  /** Every subdomain of a tracked base is tracked. */
  lemma {:induction false} SubdomainTracked(sub: string, q: nat)
    requires q < |QiantuDomains|
    ensures IsTracked(sub + "." + QiantuDomains[q])
  {
    var d := sub + "." + QiantuDomains[q];
    assert d[|d| - |"." + QiantuDomains[q]|..] == "." + QiantuDomains[q];
    assert IsUnder(d, QiantuDomains[q]);
  }
}
