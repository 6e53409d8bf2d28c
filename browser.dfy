/** Browser version checks (browser/check_browser.py): reading a version string as a tuple of
    integers, comparing two versions in tuple order, and deciding for each browser whether
    it is installed, compatible or in need of an upgrade. The version string a browser
    reports is an input; how it is probed (registry, `--version`, `Info.plist`) is not part
    of this model. */
module BrowserVersion {
  import opened Wrappers
  import opened Text

  /** `MIN_VERSIONS`: the lowest major version recommended for each browser. */
  const MinVersions: map<string, int> := map["Chrome" := 90, "Safari" := 14, "Edge" := 90, "Firefox" := 88]

  // ---------------------------------------------------------------------------
  // parse_version

  /** A base-10 digit string as `int()` reads it: digits, with single underscores allowed
      between two digits. */
  predicate DigitRun(b: string) {
    b != [] && IsDigit(b[0]) && IsDigit(b[|b| - 1]) &&
    (forall i :: 0 <= i < |b| ==> IsDigit(b[i]) || b[i] == '_') &&
    (forall i :: 0 <= i < |b| - 1 ==> b[i] == '_' ==> b[i + 1] != '_')
  }

  /** The text after an optional leading sign. */
  function Unsigned(t: string): string {
    if t != [] && (t[0] == '+' || t[0] == '-') then t[1..] else t
  }

  /** `int(p)` succeeds: surrounding whitespace, an optional sign, then a digit run. */
  predicate IsIntLiteral(p: string) {
    DigitRun(Unsigned(Strip(p)))
  }

  /** `int(p)`. */
  function IntValue(p: string): int
    requires IsIntLiteral(p)
  {
    var t := Strip(p);
    var n: int := DigitsValue(Unsigned(t));
    if t[0] == '-' then -n else n
  }

  /** `int(p)`, or `None` where it raises `ValueError`. */
  function IntOf(p: string): (n: Option<int>)
    ensures n.Some? <==> IsIntLiteral(p)
  {
    if IsIntLiteral(p) then Some(IntValue(p)) else None
  }

  /** `tuple(read(part) for part in parts)`: `None` where some `read` fails. Stated for any
      reader `read`; `parse_version` reads with `IntOf`. */
  function ReadAll(read: string -> Option<int>, parts: seq<string>): (v: Option<seq<int>>)
    ensures v.None? <==> exists k :: 0 <= k < |parts| && read(parts[k]).None?
    ensures v.Some? ==> (|v.value| == |parts| &&
      forall k :: 0 <= k < |parts| ==> read(parts[k]) == Some(v.value[k]))
  {
    if parts == [] then Some([])
    else if read(parts[0]).None? then None
    else
      var rest := ReadAll(read, parts[1..]);
      assert forall k :: 1 <= k < |parts| ==> parts[1..][k - 1] == parts[k];
      if rest.None? then None else Some([read(parts[0]).value] + rest.value)
  }

  /** The first four pieces of `s` between dots, or all of them when there are fewer. */
  function Leading(s: string): (parts: seq<string>)
    ensures 1 <= |parts| <= 4
  {
    var all := SplitOn(s, '.');
    if |all| <= 4 then all else all[..4]
  }

  /** `parse_version`: the integers of the first at most four parts, `(0, 0, 0, 0)` when
      one of them is not an integer. */
  function ParseVersion(s: string): (v: seq<int>)
    ensures 1 <= |v| <= 4
  {
    match ReadAll(IntOf, Leading(s))
    case Some(ns) => ns
    case None => [0, 0, 0, 0]
  }

  /** The major version, `parse_version(version)[0]`. */
  function Major(s: string): int {
    ParseVersion(s)[0]
  }

  // ---------------------------------------------------------------------------
  // Writing versions, the inverse of parsing

  /** `str(n)` for a natural number. */
  function ShowNat(n: nat): (s: string)
    ensures s != [] && forall i :: 0 <= i < |s| ==> IsDigit(s[i])
  {
    if n < 10 then [('0' as int + n) as char]
    else ShowNat(n / 10) + [('0' as int + n % 10) as char]
  }

  function ShowAll(ns: seq<nat>): (ps: seq<string>)
    ensures |ps| == |ns|
    ensures forall k :: 0 <= k < |ns| ==> ps[k] == ShowNat(ns[k])
  {
    if ns == [] then [] else [ShowNat(ns[0])] + ShowAll(ns[1..])
  }

  /** `'.'.join(str(n) for n in ns)`. */
  function FormatVersion(ns: seq<nat>): string
    requires |ns| >= 1
  {
    JoinOn(ShowAll(ns), '.')
  }

  lemma {:induction false} DigitsValueShow(n: nat)
    ensures DigitsValue(ShowNat(n)) == n
  {
    if n >= 10 {
      DigitsValueShow(n / 10);
      var s := ShowNat(n);
      assert s[..|s| - 1] == ShowNat(n / 10);
    }
  }

  /** A written number reads back as itself. */
  lemma {:induction false} ShowNatParses(n: nat)
    ensures IsIntLiteral(ShowNat(n)) && IntValue(ShowNat(n)) == n
    ensures '.' !in ShowNat(n)
  {
    var s := ShowNat(n);
    assert !IsSpace(s[0]) && !IsSpace(s[|s| - 1]);
    TrimLeftNoop(s);
    TrimRightNoop(s);
    assert Strip(s) == s;
    assert Unsigned(s) == s;
    DigitsValueShow(n);
    assert s[0] != '-';
    assert '.' !in s by {
      forall i | 0 <= i < |s| ensures s[i] != '.' {
        assert IsDigit(s[i]);
      }
    }
  }

  /** The written numbers read back as the numbers. */
  lemma {:induction false} ParseShown(ns: seq<nat>)
    ensures ReadAll(IntOf, ShowAll(ns)) == Some(ns)
    ensures Avoids(ShowAll(ns), '.')
  {
    var ps := ShowAll(ns);
    forall k | 0 <= k < |ps| ensures IntOf(ps[k]) == Some(ns[k] as int) && '.' !in ps[k] {
      ShowNatParses(ns[k]);
    }
    var v := ReadAll(IntOf, ps);
    assert v.Some?;
    assert |v.value| == |ns| && forall k :: 0 <= k < |ns| ==> v.value[k] == ns[k];
    assert v.value == ns;
  }

  /** Parsing recovers every version of one to four parts. */
  lemma {:induction false} ParseFormat(ns: seq<nat>)
    requires 1 <= |ns| <= 4
    ensures ParseVersion(FormatVersion(ns)) == ns
  {
    var ps := ShowAll(ns);
    ParseShown(ns);
    SplitJoinOn(ps, '.');
    assert Leading(FormatVersion(ns)) == ps;
  }

  /** One part that is not an integer turns the whole version into `(0, 0, 0, 0)`. */
  lemma {:induction false} BadPartZero(s: string, k: nat)
    requires k < |Leading(s)| && !IsIntLiteral(Leading(s)[k])
    ensures ParseVersion(s) == [0, 0, 0, 0]
  {
    assert IntOf(Leading(s)[k]).None?;
  }

  /** Parts after the fourth are ignored. */
  lemma {:induction false} ExtraPartsIgnored(s: string, t: string)
    requires |SplitOn(s, '.')| >= 4
    ensures ParseVersion(s + "." + t) == ParseVersion(s)
  {
    SplitOnAppend(s, '.', t);
    var a := SplitOn(s, '.');
    assert (a + SplitOn(t, '.'))[..4] == a[..4];
    assert Leading(s + "." + t) == Leading(s);
  }

  // ---------------------------------------------------------------------------
  // compare_versions

  /** Python's `<` on tuples of integers: lexicographic, a strict prefix first. */
  predicate LexLess(a: seq<int>, b: seq<int>)
    decreases |a|
  {
    if a == [] then b != []
    else if b == [] then false
    else a[0] < b[0] || (a[0] == b[0] && LexLess(a[1..], b[1..]))
  }

  /** The order as the language reference describes it: the first difference decides, and
      when there is none the shorter tuple is smaller. */
  predicate FirstDifferenceLess(a: seq<int>, b: seq<int>, k: nat) {
    k <= |a| && k <= |b| && a[..k] == b[..k] &&
    ((k == |a| && k < |b|) || (k < |a| && k < |b| && a[k] < b[k]))
  }

  lemma {:induction false} LexLessSpec(a: seq<int>, b: seq<int>)
    ensures LexLess(a, b) <==> exists k: nat :: FirstDifferenceLess(a, b, k)
    decreases |a|
  {
    if a != [] && b != [] {
      LexLessSpec(a[1..], b[1..]);
      if LexLess(a, b) {
        if a[0] < b[0] {
          assert FirstDifferenceLess(a, b, 0);
        } else {
          var k: nat :| FirstDifferenceLess(a[1..], b[1..], k);
          assert a[..k + 1] == [a[0]] + a[1..][..k];
          assert b[..k + 1] == [b[0]] + b[1..][..k];
          assert FirstDifferenceLess(a, b, k + 1);
        }
      }
      if exists k: nat :: FirstDifferenceLess(a, b, k) {
        var k: nat :| FirstDifferenceLess(a, b, k);
        if k > 0 {
          assert a[0] == a[..k][0] == b[..k][0] == b[0];
          assert a[1..][..k - 1] == a[..k][1..] && b[1..][..k - 1] == b[..k][1..];
          assert FirstDifferenceLess(a[1..], b[1..], k - 1);
        }
      }
    } else if a == [] && b != [] {
      assert FirstDifferenceLess(a, b, 0);
    }
  }

  /** Exactly one of `a < b`, `a == b` and `b < a`. */
  lemma {:induction false} LexTrichotomy(a: seq<int>, b: seq<int>)
    ensures LexLess(a, b) || a == b || LexLess(b, a)
    ensures !(LexLess(a, b) && LexLess(b, a))
    decreases |a|
  {
    if a != [] && b != [] {
      LexTrichotomy(a[1..], b[1..]);
      if a[0] == b[0] && a[1..] == b[1..] {
        assert a == [a[0]] + a[1..] && b == [b[0]] + b[1..];
      }
    }
  }

  lemma {:induction false} LexIrreflexive(a: seq<int>)
    ensures !LexLess(a, a)
    decreases |a|
  {
    if a != [] {
      LexIrreflexive(a[1..]);
    }
  }

  lemma {:induction false} LexTransitive(a: seq<int>, b: seq<int>, c: seq<int>)
    requires LexLess(a, b) && LexLess(b, c)
    ensures LexLess(a, c)
    decreases |a|
  {
    if a != [] && a[0] == b[0] && b[0] == c[0] {
      LexTransitive(a[1..], b[1..], c[1..]);
    }
  }

  /** `compare_versions`: -1, 0 or 1 as the first version's tuple is below, equal to or
      above the second's. */
  function CompareVersions(v1: string, v2: string): (c: int)
    ensures c == -1 || c == 0 || c == 1
    ensures c == -1 <==> LexLess(ParseVersion(v1), ParseVersion(v2))
    ensures c == 1 <==> LexLess(ParseVersion(v2), ParseVersion(v1))
    ensures c == 0 <==> ParseVersion(v1) == ParseVersion(v2)
  {
    var a := ParseVersion(v1);
    var b := ParseVersion(v2);
    LexTrichotomy(a, b);
    LexIrreflexive(a);
    if LexLess(a, b) then -1 else if LexLess(b, a) then 1 else 0
  }

  lemma CompareAntisymmetric(v1: string, v2: string)
    ensures CompareVersions(v1, v2) == -CompareVersions(v2, v1)
  {
  }

  lemma CompareReflexive(v: string)
    ensures CompareVersions(v, v) == 0
  {
  }

  lemma CompareTransitive(v1: string, v2: string, v3: string)
    requires CompareVersions(v1, v2) == -1 && CompareVersions(v2, v3) == -1
    ensures CompareVersions(v1, v3) == -1
  {
    LexTransitive(ParseVersion(v1), ParseVersion(v2), ParseVersion(v3));
  }

  /** A tuple extended with more parts is newer than the tuple itself. */
  lemma {:induction false} LongerIsNewer(a: seq<int>, b: seq<int>)
    requires b != []
    ensures LexLess(a, a + b)
    decreases |a|
  {
    if a != [] {
      assert (a + b)[1..] == a[1..] + b;
      LongerIsNewer(a[1..], b);
    }
  }

  /** `"1.2.3.4.9"` compares equal to `"1.2.3.4"`. */
  lemma FifthPartIgnored()
    ensures CompareVersions("1.2.3.4.9", "1.2.3.4") == 0
  {
    assert "1.2.3.4" + "." + "9" == "1.2.3.4.9";
    var ns: seq<nat> := [1, 2, 3, 4];
    var ps := ShowAll(ns);
    assert ps == ["1", "2", "3", "4"];
    assert JoinOn(ps[3..], '.') == "4";
    assert JoinOn(ps[2..], '.') == "3.4";
    assert JoinOn(ps[1..], '.') == "2.3.4";
    assert JoinOn(ps, '.') == "1.2.3.4";
    ParseShown(ns);
    SplitJoinOn(ps, '.');
    ExtraPartsIgnored("1.2.3.4", "9");
  }

  // ---------------------------------------------------------------------------
  // check_browser_version and check_all_browsers

  /** The `result` dictionary of `check_browser_version`. */
  datatype BrowserStatus = BrowserStatus(
    browser: string,
    installed: bool,
    version: Option<string>,
    compatible: bool,
    needsUpgrade: bool)

  /** The browsers `check_browser_version` knows how to probe on `system`. */
  predicate Probed(system: string, browser: string) {
    if system == "Windows" then browser == "Chrome" || browser == "Edge"
    else if system == "Darwin" then browser == "Chrome" || browser == "Safari" || browser == "Edge"
    else false
  }

  /** `list(BROWSER_EXECUTABLES.get(system, {}).keys())`. */
  function BrowsersOn(system: string): seq<string> {
    if system == "Windows" then ["Chrome", "Edge"]
    else if system == "Darwin" then ["Chrome", "Safari", "Edge"]
    else []
  }

  /** `MIN_VERSIONS.get(browser)` gives a (truthy) minimum. */
  predicate HasMinimum(browser: string) {
    browser in MinVersions && MinVersions[browser] != 0
  }

  /** `r` is the verdict on `browser` once its probe has answered `version`: installed when a
      non-empty version was found; compatible when the major version reaches the minimum or
      there is no minimum; needing an upgrade when there is a minimum and the major version
      is below it. */
  predicate Assessed(r: BrowserStatus, browser: string, version: Option<string>) {
    var found := version.Some? && version.value != "";
    r.browser == browser &&
    r.installed == found &&
    r.version == (if found then version else None) &&
    (r.compatible <==> found && (!HasMinimum(browser) || Major(version.value) >= MinVersions[browser])) &&
    (r.needsUpgrade <==> found && HasMinimum(browser) && Major(version.value) < MinVersions[browser])
  }

  /** What `check_browser_version(browser)` reports on `system`: the verdict for a browser it
      probes, all flags false for any other. */
  predicate Reports(r: BrowserStatus, system: string, browser: string, version: Option<string>) {
    if Probed(system, browser) then Assessed(r, browser, version)
    else r == BrowserStatus(browser, false, None, false, false)
  }

  /** `check_browser_version`, with `version` the probe's answer for `browser` on `system`. */
  method CheckBrowserVersion(system: string, browser: string, version: Option<string>)
    returns (r: BrowserStatus)
    ensures Reports(r, system, browser, version)
  {
    r := BrowserStatus(browser, false, None, false, false);
    if !Probed(system, browser) {
      return;
    }
    r := Judge(r, browser, version);
  }

  /** The decision once a browser has been probed, filling in the initial `result`. */
  method Judge(r0: BrowserStatus, browser: string, version: Option<string>) returns (r: BrowserStatus)
    requires r0 == BrowserStatus(browser, false, None, false, false)
    ensures Assessed(r, browser, version)
  {
    r := r0;
    if version.Some? && version.value != "" {
      r := r.(installed := true, version := version);
      if HasMinimum(browser) {
        var major := ParseVersion(version.value)[0];
        if major >= MinVersions[browser] {
          r := r.(compatible := true);
        } else {
          r := r.(needsUpgrade := true);
        }
      } else {
        r := r.(compatible := true);
      }
    } else {
      r := r.(installed := false);
    }
  }

  /** `check_all_browsers`, with `probe` giving the version found for each browser. */
  method CheckAllBrowsers(system: string, probe: string -> Option<string>)
    returns (results: map<string, BrowserStatus>)
    ensures results.Keys == set b | b in BrowsersOn(system)
    ensures forall b :: b in results ==> Reports(results[b], system, b, probe(b))
  {
    var browsers := BrowsersOn(system);
    results := map[];
    for i := 0 to |browsers|
      invariant results.Keys == set b | b in browsers[..i]
      invariant forall b :: b in results ==> Reports(results[b], system, b, probe(b))
    {
      var r := CheckBrowserVersion(system, browsers[i], probe(browsers[i]));
      assert browsers[..i + 1] == browsers[..i] + [browsers[i]];
      results := results[browsers[i] := r];
    }
    assert browsers[..|browsers|] == browsers;
  }

  // ---------------------------------------------------------------------------
  // Properties of the decision

  /** A report determines every field. */
  lemma ReportsUnique(r1: BrowserStatus, r2: BrowserStatus, system: string, browser: string,
    version: Option<string>)
    requires Reports(r1, system, browser, version) && Reports(r2, system, browser, version)
    ensures r1 == r2
  {
  }

  /** An installed browser with a minimum is compatible or needs an upgrade, never both; a
      browser that is not installed, or not probed on the system, is neither. */
  lemma {:induction false} VerdictExclusive(r: BrowserStatus, system: string, browser: string,
    version: Option<string>)
    requires Reports(r, system, browser, version)
    ensures r.installed && HasMinimum(browser) ==> r.compatible != r.needsUpgrade
    ensures !r.installed ==> !r.compatible && !r.needsUpgrade && r.version.None?
    ensures !Probed(system, browser) ==> !r.installed
  {
  }

  /** Every probed browser has a minimum, so for it exactly one verdict holds. */
  lemma {:induction false} ProbedHaveMinimum(system: string, browser: string)
    requires Probed(system, browser)
    ensures HasMinimum(browser)
  {
  }

  /** `check_all_browsers` lists exactly the browsers `check_browser_version` probes. */
  lemma {:induction false} ListedIsProbed(system: string, browser: string)
    ensures browser in BrowsersOn(system) <==> Probed(system, browser)
  {
  }
}
