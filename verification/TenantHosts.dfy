/** URLs that lead to a tenant's host, and the resolvers that find the tenant of a request by its host. */
module TenantHosts {
  import opened Wrappers
  import opened Text
  import opened Seqs

  // ---------- Strings ----------

  // s.split('.')
  function Labels(s: string): (labels: seq<string>)
    ensures |labels| > 0
  {
    if s == "" then [""]
    else
      var rest := Labels(s[1..]);
      if s[0] == '.' then [""] + rest else [[s[0]] + rest[0]] + rest[1..]
  }

  // s.split(':')[0]
  function BeforeColon(s: string): (r: string)
    ensures |r| <= |s|
  {
    if s == "" || s[0] == ':' then "" else [s[0]] + BeforeColon(s[1..])
  }

  predicate StartsWith(s: string, prefix: string) { |prefix| <= |s| && s[..|prefix|] == prefix }

  // ---------- Building URLs ----------

  // NaN counts as no port.
  datatype Options = Options(http: bool, port: Option<real>)

  datatype Tenant = Tenant(id: string, customDomain: Option<string>)

  predicate IsAlnum(c: char) { IsLetter(c) || IsDigit(c) }

  // HOST_LABEL_RE
  predicate IsHostLabel(s: string) {
    && 1 <= |s| <= 63 && IsAlnum(s[0]) && IsAlnum(s[|s| - 1])
    && forall i :: 0 <= i < |s| ==> IsAlnum(s[i]) || s[i] == '-'
  }

  // HOST_RE, and the length of a name
  predicate IsSafeHost(s: string) {
    1 <= |s| <= 253 && forall i :: 0 <= i < |Labels(s)| ==> IsHostLabel(Labels(s)[i])
  }

  predicate IsSafePort(port: real) { port.Floor as real == port && 1.0 <= port <= 65535.0 }

  function WithSlash(path: string): string { if StartsWith(path, "/") then path else "/" + path }

  predicate IsLineBreak(c: char) { c == '\r' || c == '\n' }

  // normalizeRedirectPath
  function NormalizeRedirectPath(path: string): Option<string> {
    if exists i :: 0 <= i < |path| && IsLineBreak(path[i]) then None
    else if StartsWith(WithSlash(path), "//") then None
    else Some(WithSlash(path))
  }

  function Protocol(opts: Options): string { if opts.http then "http" else "https" }

  // The port as it is written behind the host; zero is no port.
  function PortSuffix(opts: Options): string {
    if opts.port.None? || opts.port.value == 0.0 || !IsSafePort(opts.port.value) then ""
    else ":" + Decimal(opts.port.value.Floor)
  }

  function Assemble(host: string, path: string, opts: Options): Option<string> {
    if !IsSafeHost(host) then None
    else if opts.port.Some? && opts.port.value != 0.0 && !IsSafePort(opts.port.value) then None
    else
      var normalized := NormalizeRedirectPath(path);
      if normalized.None? then None
      else Some(Protocol(opts) + "://" + host + PortSuffix(opts) + normalized.value)
  }

  function ToTenantSubdomainHost(base: string, slug: string): Option<string> {
    if IsHostLabel(slug) then Some(slug + "." + base) else None
  }

  function ToTenantSubdomain(base: string, slug: string, path: string, opts: Options): Option<string> {
    var host := ToTenantSubdomainHost(base, slug);
    if host.None? then None else Assemble(host.value, path, opts)
  }

  function ToCentral(base: string, path: string, opts: Options): Option<string> { Assemble(base, path, opts) }

  function ToTenant(base: string, tenant: Tenant, path: string, opts: Options): Option<string> {
    if tenant.customDomain.Some? then Assemble(tenant.customDomain.value, path, opts)
    else ToTenantSubdomain(base, tenant.id, path, opts)
  }

  // ---------- Resolving hosts ----------

  datatype Hit = Id(tenantId: string) | Domain(domain: string) | Miss

  function Suffix(base: string): string { if StartsWith(base, ".") then base else "." + base }

  // What is left of a host that ends with the suffix.
  function Sub(host: string, base: string): string
    requires EndsWith(host, Suffix(base))
  {
    host[..|host| - |Suffix(base)|]
  }

  // SubdomainResolver
  function BySubdomain(base: string, raw: string): Hit {
    var host := BeforeColon(raw);
    if host == "" || host == base then Miss
    else if EndsWith(host, Suffix(base)) then (if Sub(host, base) != "" then Id(Sub(host, base)) else Miss)
    else if |Labels(host)| > 1 then Id(Labels(host)[0])
    else Miss
  }

  // DomainOrSubdomainResolver
  function ByDomainOrSubdomain(base: string, raw: string): Hit {
    var host := BeforeColon(raw);
    if host == "" then Miss
    else if host != base && EndsWith(host, Suffix(base)) && Sub(host, base) != "" then Id(Sub(host, base))
    else if host != base then Domain(host)
    else Miss
  }

  // legacyResolveTenantId, for either of the two strategies
  function LegacyId(base: string, raw: string): Option<string> {
    var host := BeforeColon(raw);
    if EndsWith(host, Suffix(base)) then (if Sub(host, base) != "" then Some(Sub(host, base)) else None)
    else if host == base then None
    else if |Labels(host)| > 1 then Some(Labels(host)[0])
    else None
  }

  // resolveTenant without a registry; an empty id is none
  function ByLegacy(base: string, raw: string): Hit {
    var id := LegacyId(base, raw);
    if id.Some? && id.value != "" then Id(id.value) else Miss
  }

  // ---------- Where a URL leads ----------

  // Section 3 of RFC 3986: the authority is between the two slashes and the next slash, question mark or number sign.
  datatype Url = Url(scheme: string, authority: string, rest: string)

  predicate EndsAuthority(c: char) { c == '/' || c == '?' || c == '#' }

  function AuthorityRun(s: string): (n: nat)
    ensures n <= |s|
  {
    if s != "" && !EndsAuthority(s[0]) then 1 + AuthorityRun(s[1..]) else 0
  }

  function ReadUrl(url: string): Option<Url> {
    var scheme := BeforeColon(url);
    if !StartsWith(url[|scheme|..], "://") then None
    else
      var s := url[|scheme| + 3..];
      Some(Url(scheme, s[..AuthorityRun(s)], s[AuthorityRun(s)..]))
  }

  // ---------- The parts of a URL ----------

  lemma {:induction false} BeforeColonOf(s: string, rest: string)
    requires ':' !in s && (rest == "" || rest[0] == ':')
    ensures BeforeColon(s + rest) == s && (s + rest)[|s|..] == rest
  {
    if s == "" {
      AppendNothing(rest);
    } else {
      AppendTail(s, rest);
      BeforeColonOf(s[1..], rest);
      Uncons(s);
    }
  }

  lemma {:induction false} AuthorityOf(s: string, rest: string)
    requires forall i :: 0 <= i < |s| ==> !EndsAuthority(s[i])
    requires rest == "" || EndsAuthority(rest[0])
    ensures AuthorityRun(s + rest) == |s| && (s + rest)[..|s|] == s && (s + rest)[|s|..] == rest
  {
    if s == "" {
      AppendNothing(rest);
    } else {
      AppendTail(s, rest);
      AuthorityOf(s[1..], rest);
    }
  }

  predicate IsPlain(c: char) { IsAlnum(c) || c == '-' }

  // The characters of a host are those of its labels and the dots between them.
  lemma {:induction false} HostChars(s: string)
    requires forall i :: 0 <= i < |Labels(s)| ==> forall j :: 0 <= j < |Labels(s)[i]| ==> IsPlain(Labels(s)[i][j])
    ensures forall k :: 0 <= k < |s| ==> IsPlain(s[k]) || s[k] == '.'
  {
    if s != "" {
      var rest, labels := Labels(s[1..]), Labels(s);
      if s[0] == '.' {
        assert forall i :: 0 <= i < |rest| ==> labels[i + 1] == rest[i];
      } else {
        assert forall j :: 0 <= j < |rest[0]| ==> labels[0][j + 1] == rest[0][j];
        assert forall i :: 1 <= i < |rest| ==> labels[i] == rest[i];
        assert labels[0][0] == s[0];
      }
      HostChars(s[1..]);
    }
  }

  lemma {:induction false} FirstLabel(s: string)
    ensures Labels(s)[0] <= s
  {
    if s != "" && s[0] != '.' {
      FirstLabel(s[1..]);
    }
  }

  lemma SafeHost(host: string)
    requires IsSafeHost(host)
    ensures forall k :: 0 <= k < |host| ==> IsPlain(host[k]) || host[k] == '.'
    ensures host != "" && host[0] != '.' && ':' !in host
  {
    HostChars(host);
    FirstLabel(host);
    assert IsHostLabel(Labels(host)[0]);
  }

  lemma PortChars(opts: Options)
    ensures PortSuffix(opts) == "" || PortSuffix(opts)[0] == ':'
    ensures forall i :: 0 <= i < |PortSuffix(opts)| ==> IsDigit(PortSuffix(opts)[i]) || PortSuffix(opts)[i] == ':'
  {
    if PortSuffix(opts) != "" {
      DecimalReadsBack(opts.port.value.Floor);
    }
  }

  lemma ReadUrlOf(scheme: string, authority: string, rest: string)
    requires ':' !in scheme
    requires forall i :: 0 <= i < |authority| ==> !EndsAuthority(authority[i])
    requires rest != "" && rest[0] == '/'
    ensures ReadUrl(scheme + ("://" + (authority + rest))) == Some(Url(scheme, authority, rest))
  {
    AuthorityOf(authority, rest);
    var s := authority + rest;
    BeforeColonOf(scheme, "://" + s);
    assert ("://" + s)[3..] == s && ("://" + s)[..3] == "://";
    var url := scheme + ("://" + s);
    assert url[|scheme| + 3..] == url[|scheme|..][3..];
    hide BeforeColon, AuthorityRun;
  }

  lemma Regroup(p: string, q: string, h: string, s: string, r: string)
    ensures p + q + h + s + r == p + (q + ((h + s) + r))
  {
    Associative(p + q, h, s);
    Associative(p + q, h + s, r);
    Associative(p, q, (h + s) + r);
  }

  // What is not refused, and the URL by its parts.
  lemma Assembled(host: string, path: string, opts: Options)
    requires Assemble(host, path, opts).Some?
    ensures IsSafeHost(host) && forall i :: 0 <= i < |path| ==> !IsLineBreak(path[i])
    ensures Assemble(host, path, opts).value
            == Protocol(opts) + ("://" + ((host + PortSuffix(opts)) + WithSlash(path)))
  {
    hide IsSafeHost, PortSuffix, Protocol, WithSlash;
    Regroup(Protocol(opts), "://", host, PortSuffix(opts), WithSlash(path));
  }

  // The host and the port.
  lemma AuthorityChars(host: string, opts: Options)
    requires IsSafeHost(host)
    ensures var authority := host + PortSuffix(opts);
            && BeforeColon(authority) == host
            && forall i :: 0 <= i < |authority| ==> !EndsAuthority(authority[i]) && !IsLineBreak(authority[i])
  {
    SafeHost(host);
    PortChars(opts);
    BeforeColonOf(host, PortSuffix(opts));
    hide BeforeColon, PortSuffix, IsSafeHost;
  }

  lemma SchemeAndSlash(opts: Options, path: string)
    ensures ':' !in Protocol(opts) && WithSlash(path) != "" && WithSlash(path)[0] == '/'
  {
    if StartsWith(path, "/") {
      assert path[..1][0] == path[0];
    }
  }

  /**
   * Whatever the path says, a URL that is built leads to the host that was checked: its authority is that host and the
   * port, and then comes the path behind a slash.
   */
  lemma UrlParts(host: string, path: string, opts: Options)
    requires Assemble(host, path, opts).Some?
    ensures ReadUrl(Assemble(host, path, opts).value)
            == Some(Url(Protocol(opts), host + PortSuffix(opts), WithSlash(path)))
    ensures BeforeColon(host + PortSuffix(opts)) == host
  {
    Assembled(host, path, opts);
    AuthorityChars(host, opts);
    SchemeAndSlash(opts, path);
    hide *;
    ReadUrlOf(Protocol(opts), host + PortSuffix(opts), WithSlash(path));
  }

  /** A URL is built for a safe host, a whole port up to 65535 or none, and a path of one line on that host. */
  lemma UrlIsBuilt(host: string, path: string, opts: Options)
    ensures Assemble(host, path, opts).Some? <==>
            && IsSafeHost(host)
            && (opts.port.Some? ==>
                  var p := opts.port.value; p == 0.0 || (p == p.Floor as real && 1.0 <= p <= 65535.0))
            && '\r' !in path && '\n' !in path
            && !(|path| >= 2 && path[0] == '/' && path[1] == '/')
  {
    assert (exists i :: 0 <= i < |path| && IsLineBreak(path[i])) <==> '\r' in path || '\n' in path;
    StartsWithOne(path);
    assert StartsWith(WithSlash(path), "//") <==> |path| >= 2 && path[0] == '/' && path[1] == '/' by {
      var s := WithSlash(path);
      assert |s| >= 2 ==> (s[..2] == "//" <==> s[0] == '/' && s[1] == '/');
    }
    hide IsSafeHost, WithSlash, StartsWith;
  }

  lemma StartsWithOne(path: string)
    ensures StartsWith(path, "/") <==> path != "" && path[0] == '/'
  {
    if path != "" { assert path[..1] == [path[0]]; }
  }

  /** The parts once more, written out: the scheme, the digits of the port, and the slash before the path. */
  lemma UrlSays(host: string, path: string, opts: Options)
    requires Assemble(host, path, opts).Some?
    ensures var url := ReadUrl(Assemble(host, path, opts).value);
            && url.Some? && url.value.scheme == (if opts.http then "http" else "https")
            && url.value.rest == (if path != "" && path[0] == '/' then path else "/" + path)
            && host <= url.value.authority
            && var port := url.value.authority[|host|..];
               if opts.port == None || opts.port.value == 0.0 then port == ""
               else port != "" && port[0] == ':' && NumberOf(port[1..]) as real == opts.port.value
  {
    UrlParts(host, path, opts);
    UrlIsBuilt(host, path, opts);
    StartsWithOne(path);
    var authority := host + PortSuffix(opts);
    assert authority[|host|..] == PortSuffix(opts);
    if opts.port.Some? && opts.port.value != 0.0 {
      var n := opts.port.value.Floor;
      DecimalReadsBack(n);
      ConsTail(':', Decimal(n));
    }
    hide Assemble, ReadUrl, IsSafeHost, StartsWith, NumberOf, Decimal;
  }

  /** There is no line break in a URL that is built. */
  lemma NoLineBreak(host: string, path: string, opts: Options)
    requires Assemble(host, path, opts).Some?
    ensures forall c :: c in Assemble(host, path, opts).value ==> !IsLineBreak(c)
  {
    Assembled(host, path, opts);
    AuthorityChars(host, opts);
    var rest := WithSlash(path);
    assert forall i :: 0 <= i < |rest| ==> !IsLineBreak(rest[i]);
    hide BeforeColon, Assemble, PortSuffix, IsSafeHost, WithSlash;
  }
}
