# qt-user-tools: hosts, domain addresses, browser and download checks

A Dafny model of the core of qt-user-tools, a set of desktop helpers for users of the
Qiantu (58pic.com / qiantucdn.com) sites. The model covers the following parts.

- **Checking the hosts file** (`HostsEntry`). This is the hosts-file line parser: blank lines,
  comments and trailing comments bind nothing; otherwise the first two words bind when the
  first looks like an IPv4 address. It also covers reading the first lines of the file, and
  listing each tracked Qiantu domain with its first binding.
- **The hosts file on disk** (`HostsStore`). This is a class `HostsFile` whose `content`, `backups`
  and request log `ops` change in place. It holds the commit sequence that binding and
  unbinding share: back up, write directly or through the privilege-elevation helper, and
  restore the backup when the write fails.
- **Rewriting lines** (`HostsRewrite`). This covers `is_domain_bound` and `add_hosts_entry`,
  which replaces the first binding of a domain and drops the later ones, or appends a new entry.
- **Binding** (`HostsBind`). This covers `bind_domains`, which resolves each domain, rewrites the
  lines for every domain that got an address, then previews or commits. It also covers
  `bind_by_problem`.
- **Unbinding** (`HostsUnbind`). This covers `unbind_domain` and `unbind_all_qiantu`.
- **Choosing an address** (`DomainIp`). This covers `get_domain_ip` and
  `get_domain_ip_with_source`. The configured address comes first. Otherwise the model takes
  the first of 17ce.com, ip-api.com and ipapi.co that answers with an IPv4 address, and DNS
  last. Every network answer is an input.
- **Browser versions** (`BrowserVersion`). This covers `parse_version`, `compare_versions`,
  `check_browser_version` and `check_all_browsers`. The probed version string is an input.
- **Download diagnostics** (`DownloadCheck`). This covers `check_download_url` and
  `diagnose_download_issue`. The host extracted from the URL and the installed download
  tools are inputs.

Three modules hold shared helpers. `Text` holds Python string operations (`strip`, `split`,
`endswith`, `join`). `Lines` reads a file as Python does, as lines that keep their
terminators. `Seqs` holds filters, counts and de-duplication.

Several filters and loops are stated for any line parser `parse` or any address lookup
`resolve`. The operations that work on the hosts file pass `ParseHostsEntry`, or the lookup
`HostsBind.Lookup` built from `get_domain_ip`.

Integers, strings and lists are unbounded, as in Python. Dictionaries that the tools build
in insertion order are sequences of pairs (`Pairs`, `HostsBind.Put`). Dictionaries whose
order is not observed are maps.

One choice follows the code exactly. `unbind_domain` matches in both directions. It drops a
line binding `d`, a subdomain of `d`, or any domain that `d` is a subdomain of, however
short that domain is. The model keeps that match (`HostsUnbind.Related`), and
`HostsUnbind.ParentRelated` states the consequence.

## Model

| member | source | states |
|---|---|---|
| HostsEntry.ReadHosts | hosts/check_hosts.py:42-74 | An unreadable file gives no lines. Otherwise the result is a prefix of the file's lines. All lines are kept for an absent or zero limit, none for a negative one, and at most the limit otherwise. |
| HostsEntry.ParseHostsEntry | hosts/check_hosts.py:77-103 | A parsed binding has an address of the shape `\d{1,3}` four times joined by dots. The domain is a non-empty word without whitespace or `#`. |
| HostsEntry.ParseEntryLine | hosts/check_hosts.py:84-101 | A line `ip sep domain rest` parses as the binding of `domain` to `ip`, for any whitespace separator and any comment-free trailing words. |
| HostsEntry.CommentDiscarded | hosts/check_hosts.py:90-92 | Text from the first `#` on never changes what a line binds. |
| HostsEntry.BlankLine | hosts/check_hosts.py:86-88 | A line of whitespace binds nothing. |
| HostsEntry.CommentLine | hosts/check_hosts.py:86-88 | A line whose first non-blank character is `#` binds nothing. |
| HostsEntry.CheckHosts | hosts/check_hosts.py:106-135 | Every recorded domain is tracked and carries its first binding among the lines read: address, 1-based line number, stripped line. Every tracked domain bound in those lines is recorded. |
| HostsEntry.ScanLines | hosts/check_hosts.py:120-133 | The loop over the lines records exactly the tracked domains bound in them, each with its first binding, for any parser. |
| HostsEntry.ScanLine | hosts/check_hosts.py:121-133 | One line adds its domain, with its address, line number and stripped text, exactly when the domain is tracked and not yet recorded. Otherwise the results are unchanged. |
| HostsEntry.MatchesQiantu | hosts/check_hosts.py:125-133 | The loop over the tracked bases finds one exactly when the domain is a base or a subdomain of one. |
| HostsEntry.RecordStep | hosts/check_hosts.py:127-132 | Recording a first binding keeps both loop invariants: recorded means first-bound, and everything bound so far is recorded. |
| HostsEntry.SubdomainTracked | hosts/check_hosts.py:15-26 | Every subdomain of a tracked base is tracked. |
| Lines.ReadLinesConcat | hosts/check_hosts.py:62 | The lines of a file, joined, are its content. |
| Lines.ReadLinesWellFormed | hosts/check_hosts.py:56-62 | Every line read is non-empty, and every line except the last ends in its newline. |
| Lines.ConcatReadLines | hosts/bind_hosts.py:159 | Well-formed lines joined with `''` and read again are the same lines. |
| HostsStore.HostsFile.Read | hosts/bind_hosts.py:129 | `read_hosts()` without a limit gives the lines of the current content, or none when the file cannot be read. |
| HostsStore.HostsFile.Backup | hosts/bind_hosts.py:34-64 | It succeeds exactly when the direct copy works as administrator, or the elevated copy works. It records the backed-up content, leaves the file unchanged, and logs the copies attempted. |
| HostsStore.HostsFile.Restore | hosts/bind_hosts.py:181-189 | It copies the latest backup back when the copy works, swallows a failure, and logs one direct or elevated copy. |
| HostsStore.HostsFile.Commit | hosts/bind_hosts.py:150-223 | The result is true exactly when backup and write both succeed. The file then holds the new text. After a failed write the backup is restored, or the partial write is left when the restore fails. The request log is the exact sequence of copies and writes. |
| HostsStore.BackupFailureWritesNothing | hosts/bind_hosts.py:152-156 | A failed backup ends the commit with no write and no restore. |
| HostsStore.WritesOnlyText | hosts/bind_hosts.py:159-173 | Every write request carries the new content. |
| HostsStore.RestoreOnlyOnFailure | hosts/bind_hosts.py:178-223 | A restore is requested only after a successful backup and a failed write. |
| HostsStore.FailureRestores | hosts/bind_hosts.py:178-223 | After a successful backup and a failed write, a restore is always requested, as the last request. |
| HostsStore.BackupComesFirst | hosts/bind_hosts.py:150-156 | A commit always starts with a backup request. |
| HostsRewrite.IsDomainBound | hosts/bind_hosts.py:67-73 | True exactly when some line parses as a binding of the domain. |
| HostsRewrite.FirstBound | hosts/bind_hosts.py:93-99 | The position of the first line binding the domain: no earlier line binds it. |
| HostsRewrite.EntryLineIsLine | hosts/bind_hosts.py:109 | The entry `ip\tdomain\n` is a single terminated line. |
| HostsRewrite.AddHostsEntry | hosts/bind_hosts.py:76-112 | The new lines are the corrected `add_hosts_entry` result. A bound domain gives a fresh list and leaves the caller's list alone. An unbound domain is appended to the caller's own list, which is returned. |
| HostsRewrite.ReplaceBinding | hosts/bind_hosts.py:89-106 | The loop keeps the lines before the first binding, replaces that binding with the new entry, and drops every later binding of the domain. |
| HostsRewrite.ReboundBindsOnce | hosts/bind_hosts.py:89-106 | After replacement the prefix is unchanged, the entry stands where the first binding was, and the domain is bound exactly once, to the new address. |
| HostsRewrite.ReboundKeepsOthers | hosts/bind_hosts.py:93-102 | Replacement changes no line that does not bind the domain, and keeps their order. |
| HostsRewrite.ReboundKeepsOther | hosts/bind_hosts.py:93-102 | Another domain bound exactly once stays bound exactly once, to the same address. |
| HostsRewrite.TerminateSpec | hosts/bind_hosts.py:107-112 | Terminating the last line changes only that line, by a newline, and changes no line's binding. |
| HostsRewrite.AppendedBindsOnce | hosts/bind_hosts.py:107-112 | With the corrected append, the entry is a line of its own, earlier lines keep their bindings, and the domain is bound exactly once, to the address. |
| HostsRewrite.AppendedKeepsOther | hosts/bind_hosts.py:107-112 | Appending keeps every other domain that was bound exactly once bound exactly once, to the same address. |
| HostsRewrite.AddEntryWellFormed | hosts/bind_hosts.py:76-112 | Adding an entry keeps the lines well formed. |
| HostsRewrite.AppendAsWrittenMerges | hosts/bind_hosts.py:107-112 | As written, an entry appended after an unterminated last line merges into it when the file is written and read back, and the domain can stay unbound. |
| HostsRewrite.BindAllBindsOnce | hosts/bind_hosts.py:146-148 | After the rewrite loop over distinct domains, each is bound exactly once, to its address, and the lines stay well formed. |
| HostsBind.EntryLineParses | hosts/bind_hosts.py:107-109 | The entry line written for an address and a domain parses back as that binding. |
| HostsBind.ParserIgnoresTerminator | hosts/check_hosts.py:84 | A line binds the same with or without a trailing newline. |
| HostsBind.AppendMergesIntoLastLine | hosts/bind_hosts.py:107-112 | As written, a domain appended after a final comment with no newline reads back merged into the comment, and is not bound. |
| HostsBind.AppendedReadsBack | hosts/bind_hosts.py:107-112 | With the last line terminated first, the written file reads back as the new lines and binds the domain exactly once, to the address. |
| HostsBind.LookupDomain | hosts/bind_hosts.py:135 | The address asked for each domain is the one `get_domain_ip` gives, with the configuration and the network answers for that domain. |
| HostsBind.ResolveDomains | hosts/bind_hosts.py:132-139 | For any lookup, the resolution loop produces `domain_ips` as the specification function `Resolved` defines it. |
| HostsBind.PutSpec | hosts/bind_hosts.py:139 | Storing a domain stores its address under it: the new pair takes the domain's existing position, or goes at the end when the domain is new. The keys are unchanged when the domain was present, and gain it at the end otherwise. Every other entry is the old entry at that position. |
| HostsBind.ResolvedSpec | hosts/bind_hosts.py:132-139 | The resolved domains are exactly the domains with a non-empty address, each once, in first-seen order, each paired with its address. |
| HostsBind.ResolvedCovers | hosts/bind_hosts.py:132-139 | Every domain that gets an address has its pair among the resolved ones. |
| HostsBind.LookupGivesQuads | hosts/bind_hosts.py:135 | When the configured values have the shape of addresses, every address `get_domain_ip` returns has that shape too. |
| HostsBind.ResolvedWritable | hosts/bind_hosts.py:132-148 | The resolved pairs have distinct domains and can all be written as binding lines. |
| HostsBind.RewriteLines | hosts/bind_hosts.py:146-148 | The rewrite loop, calling `add_hosts_entry` on the copy, gives the lines of the specification function `BindAll`. |
| HostsBind.BindReadsBack | hosts/bind_hosts.py:146-166 | The written content reads back as the new lines, and every domain that got an address is bound in them exactly once, to that address. |
| HostsBind.BindPairs | hosts/bind_hosts.py:141-232 | No resolved pair: false, and nothing touched. Preview: true, and nothing touched. Otherwise the rewritten lines are committed, and the result is the commit's. |
| HostsBind.BindWith | hosts/bind_hosts.py:115-232 | For any lookup, resolving the domains and then binding them has the outcome of binding the resolved pairs, as above. |
| HostsBind.BindDomains | hosts/bind_hosts.py:115-232 | `bind_domains` has the outcome of binding the pairs resolved with `get_domain_ip`, as above. |
| HostsBind.BindByProblem | hosts/bind_hosts.py:235-257 | An unknown problem type gives false and touches nothing. A known one binds that problem's domains. |
| HostsUnbind.UnbindLines | hosts/unbind_hosts.py:69-84 | The loop keeps exactly the lines not binding a related domain, in order. `removed` is true exactly when some line was dropped. |
| HostsUnbind.UnbindDomain | hosts/unbind_hosts.py:56-173 | No match: false, and nothing touched. Preview: true, and nothing touched. Otherwise the kept lines are committed. |
| HostsUnbind.SubdomainRelated | hosts/unbind_hosts.py:75-77 | Unbinding a domain drops the bindings of all its subdomains. |
| HostsUnbind.ParentRelated | hosts/unbind_hosts.py:75-77 | Unbinding a domain also drops the bindings of every non-empty parent domain. |
| HostsUnbind.UnbindKeepsOthers | hosts/unbind_hosts.py:72-84 | The kept lines are a subsequence. No kept line matches. Every non-matching line is kept, comments and unparseable lines included. Kept and dropped lines add up to all the lines. |
| HostsUnbind.UnbindLeavesNoBinding | hosts/unbind_hosts.py:72-84 | After unbinding `d`, no line binds `d` or any subdomain of it. |
| HostsUnbind.UnbindIdempotent | hosts/unbind_hosts.py:72-88 | Unbinding twice drops nothing the second time and leaves the lines unchanged. |
| HostsUnbind.NoMatchMeansNoChange | hosts/unbind_hosts.py:85-88 | No line matches exactly when the kept lines are all the lines. |
| HostsUnbind.UnbindReadsBack | hosts/unbind_hosts.py:98-105 | The written content reads back as the kept lines. |
| HostsUnbind.UnboundAfterWrite | hosts/unbind_hosts.py:72-105 | Reading the file after the write finds no binding of the domain or its subdomains. |
| HostsUnbind.TrackedIn | hosts/unbind_hosts.py:192-208 | One removed domain is listed per dropped line. |
| HostsUnbind.TrackedInSpec | hosts/unbind_hosts.py:193-208 | The listed domains are tracked. They are exactly the tracked domains bound in the lines. |
| HostsUnbind.UnbindTrackedLines | hosts/unbind_hosts.py:188-210 | The loop keeps exactly the lines not binding a tracked domain. `removed_count` counts the dropped lines. `removed_domains` lists their domains without repeats, in first-seen order. |
| HostsUnbind.UnbindAllSpec | hosts/unbind_hosts.py:192-214 | No tracked binding is left. The kept lines are a subsequence. The counts add up. The removed domains have no repeats and are exactly the tracked domains that were bound. |
| HostsUnbind.UnbindAllQiantu | hosts/unbind_hosts.py:176-302 | No tracked binding: false, and nothing touched. Preview: true, and nothing touched. Otherwise the kept lines are committed. |
| DomainIp.TrailingNewlineAccepted | hosts/get_domain_ip.py:155-162 | As written, an address followed by a newline is accepted, though it is not an address. |
| DomainIp.Ipv4Parts | hosts/get_domain_ip.py:155-162 | An accepted address is exactly four octets of at most 255, joined by dots. |
| DomainIp.Ipv4Of | hosts/get_domain_ip.py:155-162 | Any four octets joined by dots are accepted. |
| DomainIp.Ipv4IsToken | hosts/check_hosts.py:100 | An accepted address has the dotted-quad shape, so it can be the first word of a hosts line. |
| DomainIp.FirstWhere | hosts/get_domain_ip.py:92-94 | The index of the first candidate that satisfies the test: none earlier does, and none at all when absent. |
| DomainIp.FirstMatching | hosts/get_domain_ip.py:105-111 | The scan returns the first candidate that passes the test. |
| DomainIp.FastestSpec | hosts/get_domain_ip.py:75-79 | The one-pass choice finds the valid node with the least time, the earliest on ties. It finds none only when no node is valid. |
| DomainIp.FastestIsLeast | hosts/get_domain_ip.py:75 | The chosen node precedes every other valid node in the stable order by time. |
| DomainIp.PickFastest | hosts/get_domain_ip.py:72-79 | The loop returns that fastest node's address, which is IPv4. |
| DomainIp.Answer17ce | hosts/get_domain_ip.py:34-122 | Whatever 17ce.com answers, an address returned is IPv4. |
| DomainIp.CeErrorEnds | hosts/get_domain_ip.py:117-122 | An error that escapes to the outer handlers (a network error, or a JSON answer that is not an object) ends the lookup with no address, whatever the site page holds. |
| DomainIp.FastestUnique | hosts/get_domain_ip.py:75-79 | At most one node is the fastest valid node, so the stable sort's first valid node is determined. |
| DomainIp.CeJsonFirst | hosts/get_domain_ip.py:66-79 | When the ping reply has status 200 and its JSON reports success with a valid node, the fastest such node's address is the answer, whatever the body and the site page hold. |
| DomainIp.CeBodySecond | hosts/get_domain_ip.py:80-94 | When the JSON yields no valid node, the answer is the first IPv4 address in the ping body, whatever the site page holds. No private prefix is excluded on this path. |
| DomainIp.CePageLast | hosts/get_domain_ip.py:98-111 | When the ping reply yields nothing, the answer is the first site-page address that is IPv4 and starts with none of `127.`, `0.`, `192.168.`, `10.` and `172.`. |
| DomainIp.CeFallbackPublic | hosts/get_domain_ip.py:98-115 | An answer that does not come from the ping reply is an IPv4 address on the site page that is never private-looking. With no such address on the page, or no page, there is no answer. |
| DomainIp.PingNothing | hosts/get_domain_ip.py:66-96 | A ping reply with a failed status, or with no usable JSON node and no IPv4 address in its body, contributes no address. |
| DomainIp.From17ce | hosts/get_domain_ip.py:49-115 | The method follows `get_ip_from_17ce`: the JSON nodes, else the page's addresses, else the site page's public addresses. |
| DomainIp.FromApi | hosts/get_domain_ip.py:165-220 | An address returned is IPv4 and is the service's own answer field. |
| DomainIp.FromMultipleSources | hosts/get_domain_ip.py:223-270 | The loop over the services, then DNS, gives the address and the source tag of `MultipleSources`. |
| DomainIp.MultipleSourcesSpec | hosts/get_domain_ip.py:239-270 | An address is returned exactly when the tag is not the failure tag, and it is IPv4. A service's tag means every earlier service had no address. DNS is used only when no service has one. |
| DomainIp.GetDomainIpWithSource | hosts/get_domain_ip.py:288-316 | The method returns the address and source of `DomainIpWithSource`. |
| DomainIp.GetDomainIp | hosts/get_domain_ip.py:273-285 | The address alone, as `get_domain_ip_with_source` gives it. |
| DomainIp.DomainIpSpec | hosts/get_domain_ip.py:288-316 | The tag is one of the six sources. A non-empty configured value wins when the configuration is used. No address goes with the failure tag. Every address not from the configuration is IPv4. |
| DomainIp.FoundAddressShape | hosts/get_domain_ip.py:303-313 | With well-shaped configured values, every address found has the dotted-quad shape. |
| BrowserVersion.IntOf | browser/check_browser.py:147 | `int(part)` succeeds exactly on an optionally signed run of digits with single underscores between digits, surrounded by whitespace. |
| BrowserVersion.ReadAll | browser/check_browser.py:147 | The tuple fails exactly when one part fails. Otherwise it holds each part's value, in order. |
| BrowserVersion.Leading | browser/check_browser.py:145-147 | `split('.')` then `[:4]` keeps one to four parts. |
| BrowserVersion.ParseVersion | browser/check_browser.py:143-149 | A parsed version has one to four numbers. |
| BrowserVersion.ShowNatParses | browser/check_browser.py:147 | A written natural number reads back as itself, and contains no dot. |
| BrowserVersion.ParseShown | browser/check_browser.py:147 | Written numbers read back as the numbers. |
| BrowserVersion.ParseFormat | browser/check_browser.py:143-149 | Parsing a version written with one to four numbers gives those numbers back. |
| BrowserVersion.BadPartZero | browser/check_browser.py:146-149 | One non-integer part among the first four makes the version `(0, 0, 0, 0)`. |
| BrowserVersion.ExtraPartsIgnored | browser/check_browser.py:145-147 | Parts after the fourth never change the parsed version. |
| BrowserVersion.FifthPartIgnored | browser/check_browser.py:145-147 | `1.2.3.4.9` compares equal to `1.2.3.4`. |
| BrowserVersion.LexLessSpec | browser/check_browser.py:160-163 | Tuple order: the first difference decides, and otherwise the shorter tuple is smaller. |
| BrowserVersion.LexTrichotomy | browser/check_browser.py:160-165 | Of `a < b`, `a == b` and `b < a`, at least one holds, and the two orders never both hold. |
| BrowserVersion.LexIrreflexive | browser/check_browser.py:160-163 | No tuple is below itself. |
| BrowserVersion.LexTransitive | browser/check_browser.py:160-165 | The tuple order is transitive. |
| BrowserVersion.LongerIsNewer | browser/check_browser.py:160 | A tuple extended with more parts is newer than the tuple. |
| BrowserVersion.CompareVersions | browser/check_browser.py:152-165 | The result is -1, 0 or 1. It is -1 exactly when the first parse is below the second, 1 exactly when above, and 0 exactly when the parses are equal. |
| BrowserVersion.CompareAntisymmetric | browser/check_browser.py:152-165 | Swapping the arguments negates the result. |
| BrowserVersion.CompareReflexive | browser/check_browser.py:152-165 | A version compares equal to itself. |
| BrowserVersion.CompareTransitive | browser/check_browser.py:152-165 | Below, then below, gives below. |
| BrowserVersion.CheckBrowserVersion | browser/check_browser.py:168-220 | A browser not probed on the system keeps the initial result. A probed browser gets the verdict of `Assessed`. |
| BrowserVersion.Judge | browser/check_browser.py:203-218 | Installed exactly when a non-empty version was found. Compatible exactly when the major version reaches the minimum or there is none. Needs an upgrade exactly when it is below the minimum. |
| BrowserVersion.CheckAllBrowsers | browser/check_browser.py:223-232 | The keys are exactly the browsers known for the system, and each entry is that browser's report. |
| BrowserVersion.ReportsUnique | browser/check_browser.py:168-220 | A report determines every field. |
| BrowserVersion.VerdictExclusive | browser/check_browser.py:203-218 | An installed browser with a minimum is compatible or needs an upgrade, never both. A browser that is not installed is neither. |
| BrowserVersion.ProbedHaveMinimum | browser/check_browser.py:184-216 | Every probed browser has a minimum version. |
| BrowserVersion.ListedIsProbed | browser/check_browser.py:184-226 | `check_all_browsers` lists a browser exactly when `check_browser_version` probes it. |
| DownloadCheck.CheckDownloadUrl | download/check_download.py:36-69 | No host: no domain, no flags, and the single format suggestion. A host: both flags hold exactly when it is a proxy or a subdomain of one, and then the single bind suggestion. |
| DownloadCheck.DiagnoseDownloadIssue | download/check_download.py:121-198 | The tools and cloud table are stored. The URL is checked exactly when given, and the stored check is what `check_download_url` reports for it. The suggestions are, in this order: avoiding the tools when any are installed, disabling cloud acceleration always, and binding the URL's host when it is a download proxy. No format or proxy suggestion of the URL check is copied into them. |
| DownloadCheck.ProxySubdomain | download/check_download.py:62-67 | Every subdomain of a proxy needs a binding. |
| DownloadCheck.ProxiesNeedBinding | download/check_download.py:62-67 | Every proxy itself needs a binding. |
| DownloadCheck.ShortHostNotProxy | download/check_download.py:62-67 | A host shorter than every proxy name needs no binding. |
| DownloadCheck.ProxiesAreTracked | download/check_download.py:20-24 | Every host that needs a binding is a tracked Qiantu domain. |

## Left out

- The hosts-file path and the operating-system switch in `get_hosts_path` are left out: the file is the `HostsFile` object.
- Printed messages, the preview printouts and the command-line entry points (`main`, `print_hosts_status`, `print_browser_status`) are left out, because they only report.
- Backup file names carry a timestamp from the clock. The clock is left out; a backup is recorded by its content.
- `check_permission`, `shutil.copy2`, `elevate_copy_file` and `elevate_write_file` are foreign calls. Their results for one run are the fields of `HostsStore.Env`.
- Newline translation when reading and writing text files is left out: `\r\n` is read as is. Decoding with `errors='ignore'` is also left out; the file content is already text.
- A `read_hosts` that raises `PermissionError` or `FileNotFoundError` is modelled as an unreadable file (`None`, no lines). The reason is not modelled.
- `load_config` reads a JSON file. Its content is the `config` map, and a missing file or a file that is not valid JSON is the empty map. Configured values are not checked to be addresses, as in the source.
- `config` stands only for a decoded JSON object whose values are strings. `load_config` catches only `FileNotFoundError` and `json.JSONDecodeError` (hosts/get_domain_ip.py:25-30). A file that exists but cannot be opened (`PermissionError`, `IsADirectoryError`) or is not UTF-8 (`UnicodeDecodeError`) raises. So does JSON that is not an object: `null` or a number makes `domain in config` raise `TypeError`, and a list or string holding the domain makes `config[domain]` raise it. `get_domain_ip_with_source` and `bind_domains` do not catch these, so `bind_domains` stops before touching the hosts file. The model has no such outcome, and would go on to the network and may commit.
- HTTP requests, JSON decoding, BeautifulSoup and the regular-expression scan of a response are left out: their outcome is the `Network` value.
  - `matches` stands for the strings of the `\b(?:\d{1,3}\.){3}\d{1,3}\b` scan, in order.
  - Node times are integers. Any order the real times induce (integers, floats, or strings compared with each other) can be written as integer ranks, so this loses no ordering. Times that cannot be compared with each other, such as a `null` next to numbers, make `sorted` raise `TypeError`. Lines 80-81 catch that, and the lookup goes on with the body scan. In the model that reply is `json == None`.
  - A truthy `ip` that is not a string makes `re.match` in `is_ipv4` raise `TypeError`. When the sorted loop reaches such a node before any usable one, the same handler at lines 80-81 catches it and the body is scanned: that reply is also `json == None`. Falsy `ip` values are skipped, and are `None`.
  - A JSON answer that is not an object (`[]`, `"ok"`, `null`), or whose `data` holds a node that is not an object, makes `.get` at lines 70 or 75 raise `AttributeError`. The handler at lines 80-81 does not catch it, and the `except Exception` at lines 120-122 returns `None` without trying the body or the site page. In the model that reply is `ping == None`, the case `DomainIp.CeErrorEnds` states.
- `\d` in the address patterns and the digits `int()` accepts include non-ASCII Unicode digits in Python. The model accepts ASCII digits only.
- Probing browser versions (the Windows registry, `--version` subprocesses, Safari's `Info.plist`) is left out: the version string is an input.
- HostsBind.BindDomains: the network answers are `net: string -> Network`, one per domain per run. `bind_domains` calls `get_domain_ip` once per list element, so a domain listed twice is asked twice and may get two different answers. For `["a", "b", "a"]`, a failed first lookup of `a` and a successful second one give the order `b`, `a` in the source. The model gives both lookups of `a` the same answer. The order of first appearance stated by `HostsBind.ResolvedSpec` relies on this.
- BrowserVersion.CheckAllBrowsers: returns a map, so the insertion order of the source's dictionary is not stated.
- `check_third_party_download_tools` only checks whether fixed paths exist. That file-system probe is left out: the tool list is an input to `DiagnoseDownloadIssue`.
- `extract_domain_from_url` relies on `urlparse`, which is left out: the extracted host is an input.
- Suggestions are modelled by kind and argument (`DownloadCheck.Suggestion`), not by their Chinese texts.
- `get_ip_from_dns` is left out: the `gethostbyname` answer is the `dns` field.
- An exception escaping a service function inside `get_ip_from_multiple_sources` is left out, because each service catches its own errors.
- `check_hosts` reads at most 1000 lines by default. `CheckHosts` takes the limit as a parameter; the callers pass `Some(1000)`.

## Findings

| source | as written | input that shows it | evidently intended | confidence | as-written member | corrected member |
|---|---|---|---|---|---|---|
| hosts/bind_hosts.py:107-112 | The unbound case appends `ip\tdomain\n` after the last line unchanged. Line 159 joins the lines with `''`. | A hosts file ending in `# end` without a newline, binding `dl.58pic.com` to `1.2.3.4`: the file is written as one comment line, `# end1.2.3.4\tdl.58pic.com`, and the domain stays unbound while the tool reports success. | The new entry is a line of its own: terminate the last line first. | not executed | HostsBind.AppendMergesIntoLastLine | HostsBind.AppendedReadsBack |
| hosts/get_domain_ip.py:158-161 | `re.match` with a pattern ending in `$` also matches in front of a final newline, and `int('4\n')` is 4. | `is_ipv4("1.2.3.4\n")` is True. Such an address would split the hosts line it is written into. | Accept only four octets joined by dots, with nothing after them. | not executed | DomainIp.TrailingNewlineAccepted | DomainIp.Ipv4Parts |

The rest of the model uses the corrected definitions: `HostsRewrite.Appended` inside
`HostsRewrite.AddEntry`, and `DomainIp.IsIpv4` for every address test.
