/** Download diagnostics (download/check_download.py): whether a download URL's host is one
    of the download proxies that need a hosts binding, and the list of suggestions the
    diagnosis gives. The host name extracted from the URL and the list of installed
    third-party download tools are inputs. */
module DownloadCheck {
  import opened Wrappers
  import opened HostsEntry

  /** `DOWNLOAD_PROXY_DOMAINS`. */
  const ProxyDomains: seq<string> := ["proxy-rar.58pic.com", "proxy-vip.58pic.com", "proxy-vd.58pic.com"]

  /** `check_browser_cloud_acceleration()`: only 360's default is known. */
  const CloudAcceleration: map<string, Option<bool>> :=
    map["Chrome" := None, "Edge" := None, "Safari" := None, "360" := Some(true)]

  /** The host is a download proxy or a subdomain of one. */
  predicate IsProxyDomain(d: string) {
    exists k :: 0 <= k < |ProxyDomains| && IsUnder(d, ProxyDomains[k])
  }

  /** The suggestions the tools print, by kind and argument. */
  datatype Suggestion =
    | CheckUrlFormat                   // the host could not be extracted from the URL
    | BindProxyHost(domain: string)    // `check_download_url`: bind this host
    | AvoidTools(tools: seq<string>)   // third-party download tools are installed
    | DisableCloudAcceleration         // turn off the browser's cloud-accelerated download
    | BindWithTool(domain: string)     // bind the host, with bind_hosts.py

  /** The `result` dictionary of `check_download_url`. */
  datatype UrlCheck = UrlCheck(
    url: string,
    domain: Option<string>,
    isProxyDomain: bool,
    needsHostsBind: bool,
    suggestions: seq<Suggestion>)

  /** What `check_download_url(url)` reports when `extracted` is the host of `url`: with no
      host, only the advice to check the URL; otherwise the host, flagged exactly when it is a
      download proxy, with one suggestion to bind it in that case. */
  predicate ChecksUrl(r: UrlCheck, url: string, extracted: Option<string>) {
    r.url == url &&
    (extracted.None? || extracted.value == "" ==>
      r.domain.None? && !r.isProxyDomain && !r.needsHostsBind && r.suggestions == [CheckUrlFormat]) &&
    (extracted.Some? && extracted.value != "" ==>
      r.domain == extracted &&
      (r.isProxyDomain <==> IsProxyDomain(extracted.value)) &&
      r.needsHostsBind == r.isProxyDomain &&
      r.suggestions == (if r.isProxyDomain then [BindProxyHost(extracted.value)] else []))
  }

  /** `check_download_url(url)`, where `extracted` is what `extract_domain_from_url(url)`
      returns. */
  method CheckDownloadUrl(url: string, extracted: Option<string>) returns (r: UrlCheck)
    ensures ChecksUrl(r, url, extracted)
  {
    r := UrlCheck(url, None, false, false, []);
    if extracted.None? || extracted.value == "" {
      r := r.(suggestions := r.suggestions + [CheckUrlFormat]);
      return;
    }
    var domain := extracted.value;
    r := r.(domain := Some(domain));
    for k := 0 to |ProxyDomains|
      invariant r == UrlCheck(url, Some(domain), false, false, [])
      invariant forall j :: 0 <= j < k ==> !IsUnder(domain, ProxyDomains[j])
    {
      if IsUnder(domain, ProxyDomains[k]) {
        r := r.(isProxyDomain := true, needsHostsBind := true,
                suggestions := r.suggestions + [BindProxyHost(domain)]);
        return;
      }
    }
  }

  /** The `result` dictionary of `diagnose_download_issue`. */
  datatype Diagnosis = Diagnosis(
    thirdPartyTools: seq<string>,
    cloudAcceleration: map<string, Option<bool>>,
    urlCheck: Option<UrlCheck>,
    suggestions: seq<Suggestion>)

  /** The URL check asks for a hosts binding. */
  predicate NeedsBinding(url: Option<string>, extracted: Option<string>) {
    url.Some? && url.value != "" && extracted.Some? && extracted.value != "" &&
    IsProxyDomain(extracted.value)
  }

  /** `diagnose_download_issue(url)`, with `tools` the installed third-party tools and
      `extracted` the host of `url`. */
  method DiagnoseDownloadIssue(tools: seq<string>, url: Option<string>, extracted: Option<string>)
    returns (d: Diagnosis)
    ensures d.thirdPartyTools == tools && d.cloudAcceleration == CloudAcceleration
    ensures d.urlCheck.Some? <==> url.Some? && url.value != ""
    ensures d.urlCheck.Some? ==> ChecksUrl(d.urlCheck.value, url.value, extracted)
    ensures d.suggestions ==
      (if tools != [] then [AvoidTools(tools)] else []) + [DisableCloudAcceleration] +
      (if NeedsBinding(url, extracted) then [BindWithTool(extracted.value)] else [])
    ensures AvoidTools(tools) in d.suggestions <==> tools != []
    ensures forall s :: s in d.suggestions && s.BindWithTool? ==>
      NeedsBinding(url, extracted) && s == BindWithTool(extracted.value)
    ensures forall s :: s in d.suggestions ==> !s.CheckUrlFormat? && !s.BindProxyHost?
  {
    d := Diagnosis([], map[], None, []);
    d := d.(thirdPartyTools := tools);
    if tools != [] {
      d := d.(suggestions := d.suggestions + [AvoidTools(tools)]);
    }
    d := d.(cloudAcceleration := CloudAcceleration);
    d := d.(suggestions := d.suggestions + [DisableCloudAcceleration]);
    if url.Some? && url.value != "" {
      var check := CheckDownloadUrl(url.value, extracted);
      d := d.(urlCheck := Some(check));
      if check.needsHostsBind {
        d := d.(suggestions := d.suggestions + [BindWithTool(check.domain.value)]);
      }
    }
  }

  // ---------------------------------------------------------------------------
  // Properties

  /** Every subdomain of a download proxy needs a binding... */
  lemma {:induction false} ProxySubdomain(sub: string, k: nat)
    requires k < |ProxyDomains|
    ensures IsProxyDomain(sub + "." + ProxyDomains[k])
  {
    var d := sub + "." + ProxyDomains[k];
    assert d[|d| - |"." + ProxyDomains[k]|..] == "." + ProxyDomains[k];
    assert IsUnder(d, ProxyDomains[k]);
  }

  /** ...and so does every proxy itself... */
  lemma {:induction false} ProxiesNeedBinding(k: nat)
    requires k < |ProxyDomains|
    ensures IsProxyDomain(ProxyDomains[k])
  {
    assert IsUnder(ProxyDomains[k], ProxyDomains[k]);
  }

  /** ...while a host shorter than every proxy, such as the site's own `58pic.com` or
      `dl.58pic.com`, needs none. */
  lemma {:induction false} ShortHostNotProxy(d: string)
    requires |d| < 18
    ensures !IsProxyDomain(d)
  {
    forall k | 0 <= k < |ProxyDomains| ensures !IsUnder(d, ProxyDomains[k]) {
      assert |ProxyDomains[k]| >= 18;
    }
  }

  /** The download proxies are tracked domains, so checking the hosts file lists them. */
  lemma {:induction false} ProxiesAreTracked(d: string)
    requires IsProxyDomain(d)
    ensures IsTracked(d)
  {
    var k :| 0 <= k < |ProxyDomains| && IsUnder(d, ProxyDomains[k]);
    assert ProxyDomains[k] == QiantuDomains[k + 5];
  }
}
