/**
 * The tenant id a request's host names, as src/lib/tenant.ts (server, from
 * the Host header) and src/lib/tenant-client.ts (browser, from
 * window.location.hostname) read it: the first of more than two
 * dot-separated parts.
 *
 * As written, both check for more than two parts before they check for the
 * loopback names, so "127.0.0.1", which has four parts, names the tenant
 * "127" and the loopback test never decides anything. The corrected rule
 * checks the loopback names first; GetTenantId and GetTenantIdClient use it.
 */
module TenantHost {
  import opened Wrappers
  import Strings

  /** The development host names the code means to map to no tenant. */
  predicate Loopback(hostname: string)
  {
    hostname == "localhost" || hostname == "127.0.0.1"
  }

  /** `headers.get("host") || headers.get("x-forwarded-host")`, an empty header counting as none. */
  function HostHeader(host: Option<string>, forwarded: Option<string>): (r: Option<string>)
    ensures r.Some? ==> r.value != ""
    ensures host.Some? && host.value != "" ==> r == host
    ensures !(host.Some? && host.value != "") ==> r == if forwarded.Some? && forwarded.value != "" then forwarded else None
  {
    if host.Some? && host.value != "" then host
    else if forwarded.Some? && forwarded.value != "" then forwarded
    else None
  }

  /** The split-and-index on a hostname, in the order the code tests it. */
  function SubdomainAsWritten(hostname: string): (r: Option<string>)
    ensures r.Some? <==> Strings.Count(hostname, '.') >= 2
    ensures r.Some? ==> r.value == Strings.Before(hostname, '.') && '.' !in r.value
  {
    var parts := Strings.Split(hostname, '.');
    Strings.SplitLength(hostname, '.');
    if |parts| > 2 then Some(parts[0])
    else if Loopback(hostname) then None
    else None
  }

  /** The rule with the loopback names checked first. */
  function Subdomain(hostname: string): (r: Option<string>)
    ensures r.Some? <==> !Loopback(hostname) && Strings.Count(hostname, '.') >= 2
    ensures r.Some? ==> r.value == Strings.Before(hostname, '.') && '.' !in r.value
  {
    if Loopback(hostname) then None else SubdomainAsWritten(hostname)
  }

  /** getTenantId as written: no host gives no tenant, and the port is cut off at the first ":". */
  function GetTenantIdAsWritten(host: Option<string>, forwarded: Option<string>): (r: Option<string>)
    ensures HostHeader(host, forwarded).None? ==> r.None?
    ensures r.Some? ==> '.' !in r.value && ':' !in r.value
  {
    match HostHeader(host, forwarded)
    case None => None
    case Some(h) =>
      var hostname := Strings.Before(h, ':');
      SubdomainAsWritten(hostname)
  }

  /** getTenantId with the loopback names checked first. */
  function GetTenantId(host: Option<string>, forwarded: Option<string>): (r: Option<string>)
    ensures HostHeader(host, forwarded).None? ==> r.None?
    ensures HostHeader(host, forwarded).Some? ==>
              var hostname := Strings.Before(HostHeader(host, forwarded).value, ':');
              (r.Some? <==> !Loopback(hostname) && Strings.Count(hostname, '.') >= 2)
    ensures r.Some? ==> '.' !in r.value && ':' !in r.value
  {
    match HostHeader(host, forwarded)
    case None => None
    case Some(h) => Subdomain(Strings.Before(h, ':'))
  }

  /** getTenantIdClient as written; `None` for the hostname means there is no window. */
  function GetTenantIdClientAsWritten(hostname: Option<string>): (r: Option<string>)
    ensures hostname.None? ==> r.None?
    ensures hostname.Some? ==> (r.Some? <==> Strings.Count(hostname.value, '.') >= 2)
  {
    if hostname.None? then None else SubdomainAsWritten(hostname.value)
  }

  /** getTenantIdClient with the loopback names checked first. */
  function GetTenantIdClient(hostname: Option<string>): (r: Option<string>)
    ensures hostname.None? ==> r.None?
    ensures hostname.Some? ==> (r.Some? <==> !Loopback(hostname.value) && Strings.Count(hostname.value, '.') >= 2)
    ensures r.Some? ==> '.' !in r.value
  {
    if hostname.None? then None else Subdomain(hostname.value)
  }

  /** The server and the browser agree on every host without a port. */
  lemma ClientAgrees(h: string)
    requires h != "" && ':' !in h
    ensures GetTenantId(Some(h), None) == GetTenantIdClient(Some(h))
    ensures GetTenantIdAsWritten(Some(h), None) == GetTenantIdClientAsWritten(Some(h))
  {
    assert Strings.Before(h, ':') == h;
  }

  /** The corrected rule differs from the written one exactly on the loopback names. */
  lemma CorrectionOnlyLoopback(hostname: string)
    ensures !Loopback(hostname) ==> Subdomain(hostname) == SubdomainAsWritten(hostname)
    ensures hostname == "localhost" ==> Subdomain(hostname) == SubdomainAsWritten(hostname) == None
  {
    if hostname == "localhost" {
      Strings.CountAbsent(hostname, '.');
    }
  }

  /** A host name with a dot in it is not "localhost". */
  lemma DottedNotLocalhost(h: string)
    requires '.' in h
    ensures h != "localhost"
  {
    assert '.' !in "localhost";
  }

  /** A host name of three or more labels, without a port, names the tenant of its first label. */
  lemma FirstLabel(sub: string, rest: string)
    requires '.' !in sub && ':' !in sub && ':' !in rest && '.' in rest
    requires sub + "." + rest != "127.0.0.1"
    ensures GetTenantId(Some(sub + "." + rest), None) == Some(sub)
  {
    var h := sub + "." + rest;
    FirstLabelHostname(sub, rest);
    assert h[|sub|] == '.';
    DottedNotLocalhost(h);
    assert Subdomain(h) == Some(sub);
    assert HostHeader(Some(h), None) == Some(h);
  }

  /** What the rule reads off such a host name: itself, at least two dots, `sub` first. */
  lemma FirstLabelHostname(sub: string, rest: string)
    requires '.' !in sub && ':' !in sub && ':' !in rest && '.' in rest
    ensures var h := sub + "." + rest;
            Strings.Before(h, ':') == h && Strings.Count(h, '.') >= 2 && Strings.Before(h, '.') == sub
  {
    NoColonAround(sub, rest);
    Strings.BeforeAndCountAt(sub, rest, '.');
    Strings.CountPositive(rest, '.');
  }

  lemma NoColonAround(sub: string, rest: string)
    requires ':' !in sub && ':' !in rest
    ensures ':' !in sub + "." + rest
  {
    assert ':' !in ".";
  }

  /** The hostname of a host with an optional ":port" after it. */
  lemma PortCut(hostname: string, port: string)
    requires ':' !in hostname && (port == [] || port[0] == ':')
    ensures Strings.Before(hostname + port, ':') == hostname
  {
    if port == [] {
      assert hostname + port == hostname;
    } else {
      assert hostname + port == hostname + [':'] + port[1..];
      Strings.BeforeAndCountAt(hostname, port[1..], ':');
    }
  }

  /** A host name of two labels, with or without a port, names no tenant. */
  lemma TwoLabels(domain: string, tld: string, port: string)
    requires '.' !in domain && ':' !in domain && '.' !in tld && ':' !in tld
    requires port == [] || port[0] == ':'
    ensures GetTenantId(Some(domain + "." + tld + port), None) == None
  {
    var hostname := domain + "." + tld;
    PortCut(hostname, port);
    Strings.BeforeAndCountAt(domain, tld, '.');
    Strings.CountAbsent(tld, '.');
  }

  /** A host name of one label, with or without a port, names no tenant. */
  lemma OneLabel(name: string, port: string)
    requires '.' !in name && ':' !in name && name != []
    requires port == [] || port[0] == ':'
    ensures GetTenantId(Some(name + port), None) == None
  {
    PortCut(name, port);
    Strings.CountAbsent(name, '.');
  }

  lemma SiteLabels()
    ensures '.' !in "kalitechnia" && ':' !in "kalitechnia"
    ensures ':' !in "ftiaxesite.gr" && "ftiaxesite.gr"[10] == '.'
    ensures "kalitechnia" + "." + "ftiaxesite.gr" != "127.0.0.1"
  {
  }

  lemma BareLabels()
    ensures '.' !in "ftiaxesite" && ':' !in "ftiaxesite" && '.' !in "gr" && ':' !in "gr"
    ensures '.' !in "localhost" && ':' !in "localhost"
    ensures ":3000"[0] == ':'
  {
  }

  /** Every subdomain label of the site, with or without a port, names its tenant. */
  lemma SiteSubdomain(sub: string, port: string)
    requires '.' !in sub && ':' !in sub
    requires port == [] || port[0] == ':'
    ensures GetTenantId(Some(sub + "." + "ftiaxesite.gr" + port), None) == Some(sub)
  {
    var rest := "ftiaxesite.gr";
    assert ':' !in rest && rest[10] == '.';
    var h := sub + "." + rest;
    assert h[|h| - 1] == 'r';
    FirstLabelHostname(sub, rest);
    PortCut(h, port);
    assert h[|sub|] == '.';
    DottedNotLocalhost(h);
    assert Subdomain(h) == Some(sub);
    assert HostHeader(Some(h + port), None) == Some(h + port);
  }

  /** The example of the code's comment: "kalitechnia.ftiaxesite.gr" names "kalitechnia". */
  lemma SiteExample()
    ensures GetTenantId(Some("kalitechnia" + "." + "ftiaxesite.gr"), None) == Some("kalitechnia")
  {
    SiteLabels();
    SiteSubdomain("kalitechnia", "");
    assert "kalitechnia" + "." + "ftiaxesite.gr" + "" == "kalitechnia" + "." + "ftiaxesite.gr";
  }

  /** The bare domain and localhost name no tenant. */
  lemma BareExamples()
    ensures GetTenantId(Some("ftiaxesite" + "." + "gr" + ""), None) == None
    ensures GetTenantId(Some("localhost" + ":3000"), None) == None
  {
    BareLabels();
    TwoLabels("ftiaxesite", "gr", "");
    OneLabel("localhost", ":3000");
  }

  /** The port of "127.0.0.1:3000" is cut off. */
  lemma LoopbackHostname()
    ensures Strings.Before("127.0.0.1:3000", ':') == "127.0.0.1"
  {
    assert "127.0.0.1:3000" == "127.0.0.1" + ":" + "3000";
    Strings.BeforeAndCountAt("127.0.0.1", "3000", ':');
  }

  /** "127.0.0.1" has three dots, and "127" before the first. */
  lemma LoopbackParts()
    ensures Strings.Before("127.0.0.1", '.') == "127"
    ensures Strings.Count("127.0.0.1", '.') == 3
  {
    var tail := "0" + "." + "1";
    var rest := "0" + "." + tail;
    assert "127.0.0.1" == "127" + "." + rest;
    Strings.BeforeAndCountAt("127", rest, '.');
    Strings.BeforeAndCountAt("0", tail, '.');
    Strings.BeforeAndCountAt("0", "1", '.');
    Strings.CountAbsent("1", '.');
  }

  /** As written, the loopback address names the tenant "127". */
  lemma LoopbackAsWritten()
    ensures GetTenantIdAsWritten(Some("127.0.0.1:3000"), None) == Some("127")
    ensures GetTenantIdClientAsWritten(Some("127.0.0.1")) == Some("127")
  {
    LoopbackHostname();
    LoopbackParts();
  }

  /** With the correction, the loopback address names no tenant. */
  lemma LoopbackCorrected()
    ensures GetTenantId(Some("127.0.0.1:3000"), None) == None
    ensures GetTenantIdClient(Some("127.0.0.1")) == None
  {
    LoopbackHostname();
  }
}
