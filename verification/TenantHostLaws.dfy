/** The host of a URL that is built for a tenant finds the tenant again. */
module TenantHostLaws {
  import opened Wrappers
  import opened Text
  import opened Seqs
  import opened TenantHosts

  // The Host field of a request for a URL: its authority, by section 7.2 of RFC 9110.
  function HostField(url: string): string {
    if ReadUrl(url).Some? then ReadUrl(url).value.authority else ""
  }

  lemma HostFieldOf(host: string, path: string, opts: Options)
    requires Assemble(host, path, opts).Some?
    ensures IsSafeHost(host) && BeforeColon(HostField(Assemble(host, path, opts).value)) == host
  {
    Assembled(host, path, opts);
    UrlParts(host, path, opts);
    hide *;
  }

  lemma {:induction false} LabelsDotted(slug: string, base: string)
    requires '.' !in slug
    ensures Labels(slug + "." + base) == [slug] + Labels(base)
  {
    if slug == "" {
      assert slug + "." + base == "." + base;
      ConsTail('.', base);
    } else {
      LabelsDotted(slug[1..], base);
      assert slug + "." + base == slug + ("." + base) && slug[1..] + "." + base == slug[1..] + ("." + base);
      AppendTail(slug, "." + base);
      Uncons(slug);
    }
  }

  lemma {:induction false} NoDots(part: string)
    requires '.' !in part
    ensures Labels(part) == [part]
  {
    if part != "" {
      NoDots(part[1..]);
      Uncons(part);
    }
  }

  // A label of a host name, as section 2.1 of RFC 1123 has it.
  predicate IsLabel(s: string) {
    && 1 <= |s| <= 63 && s[0] != '-' && s[|s| - 1] != '-'
    && forall i :: 0 <= i < |s| ==>
         'a' <= s[i] <= 'z' || 'A' <= s[i] <= 'Z' || '0' <= s[i] <= '9' || s[i] == '-'
  }

  /** Safe hosts are labels with dots between them, at most 253 characters in all. */
  lemma SafeHostIs(part: string, host: string)
    requires '.' !in part
    ensures IsSafeHost(part) <==> IsLabel(part)
    ensures IsSafeHost(part + "." + host) <==> IsLabel(part) && IsSafeHost(host) && |part| + 1 + |host| <= 253
  {
    NoDots(part);
    LabelsDotted(part, host);
    assert IsLabel(part) <==> IsHostLabel(part);
    var all, rest := Labels(part + "." + host), Labels(host);
    hide IsLabel, IsHostLabel, Labels;
    ConsTail(part, rest);
    assert all[0] == part && forall i :: 0 <= i < |rest| ==> all[i + 1] == rest[i];
    if IsSafeHost(part + "." + host) {
      forall i | 0 <= i < |rest| ensures IsHostLabel(rest[i]) {
        assert IsHostLabel(all[i + 1]) && all[i + 1] == rest[i];
      }
      assert IsHostLabel(all[0]) && IsHostLabel(rest[0]);
      EmptyHost(host);
    }
  }

  lemma EmptyHost(host: string)
    ensures host == "" ==> Labels(host) == [""] && !IsHostLabel("")
  {
  }

  lemma Dotted(base: string)
    ensures StartsWith(base, ".") <==> base != "" && base[0] == '.'
    ensures Suffix(base) != "" && Suffix(base)[0] == '.'
  {
    if base != "" {
      assert base[..1] == [base[0]];
    }
  }

  lemma SubNotEmpty(host: string, base: string)
    requires EndsWith(host, Suffix(base)) && host != "" && host[0] != '.'
    ensures Sub(host, base) != ""
  {
    Dotted(base);
    assert host[|host| - |Suffix(base)|] == host[|host| - |Suffix(base)|..][0] == '.';
  }

  // A host of two parts, the second of them as long as the base domain.
  lemma TwoParts(slug: string, other: string, base: string)
    requires slug != "" && '.' !in slug && base != "" && base[0] != '.' && |other| == |base|
    ensures var host := slug + "." + other;
            && host != base && host != "" && |Labels(host)| > 1 && Labels(host)[0] == slug
            && (EndsWith(host, Suffix(base)) <==> other == base)
            && (EndsWith(host, Suffix(base)) ==> Sub(host, base) == slug)
  {
    LabelsDotted(slug, other);
    Dotted(base);
    hide Labels;
    var host := slug + "." + other;
    Associative(slug, ".", other);
    assert host[|slug|..] == "." + other && host[..|slug|] == slug;
    ConsTail('.', other);
    ConsTail('.', base);
    assert Suffix(base) == "." + base;
  }

  // What the three resolvers find in such a host.
  lemma ReadTwoParts(slug: string, other: string, base: string)
    requires slug != "" && '.' !in slug && base != "" && base[0] != '.' && |other| == |base|
    requires ':' !in slug + "." + other
    ensures var host := slug + "." + other;
            && BySubdomain(base, host) == ByLegacy(base, host) == Id(slug)
            && ByDomainOrSubdomain(base, host) == if other == base then Id(slug) else Domain(host)
  {
    TwoParts(slug, other, base);
    var host := slug + "." + other;
    BeforeColonOf(host, "");
    AppendNothing(host);
    hide BeforeColon, EndsWith, Sub, Suffix, Labels;
  }

  lemma SafeBelow(slug: string, base: string)
    requires IsHostLabel(slug) && IsSafeHost(slug + "." + base)
    ensures slug != "" && '.' !in slug && base != "" && base[0] != '.'
  {
    LabelsDotted(slug, base);
    var all := Labels(slug + "." + base);
    assert all[1] == Labels(base)[0] && IsHostLabel(all[1]);
    FirstLabel(base);
  }

  /** Every URL that is built for a slug leads to a host where all three resolvers find the slug, whatever the port. */
  lemma SlugResolvesBack(base: string, slug: string, path: string, opts: Options)
    requires ToTenantSubdomain(base, slug, path, opts).Some?
    ensures var host := HostField(ToTenantSubdomain(base, slug, path, opts).value);
            BySubdomain(base, host) == ByDomainOrSubdomain(base, host) == ByLegacy(base, host) == Id(slug)
  {
    var host := slug + "." + base;
    HostFieldOf(host, path, opts);
    SafeBelow(slug, base);
    TwoParts(slug, base, base);
    hide HostField, BeforeColon, Assemble, EndsWith, Sub, Suffix, Labels, IsSafeHost;
  }

  /** The central host belongs to no tenant. */
  lemma CentralResolvesToNone(base: string, path: string, opts: Options)
    requires ToCentral(base, path, opts).Some?
    ensures var host := HostField(ToCentral(base, path, opts).value);
            BySubdomain(base, host) == ByDomainOrSubdomain(base, host) == ByLegacy(base, host) == Miss
  {
    HostFieldOf(base, path, opts);
    hide HostField, BeforeColon, Assemble, Labels, IsSafeHost;
  }

  /** A base domain with a leading dot, which the resolvers allow, gets no URL at all. */
  lemma DottedBaseIsRefused(base: string, slug: string, path: string, opts: Options)
    requires StartsWith(base, ".")
    ensures ToTenantSubdomain(base, slug, path, opts).None? && ToCentral(base, path, opts).None?
  {
    Dotted(base);
    if IsSafeHost(base) { SafeHost(base); }
    if IsHostLabel(slug) && IsSafeHost(slug + "." + base) { SafeBelow(slug, base); }
    hide IsSafeHost;
  }

  /**
   * A tenant's own domain is looked up as a domain exactly if it is neither the base domain nor below it. The other two
   * resolvers then take its first label for a tenant id.
   */
  lemma CustomDomainResolves(base: string, tenant: Tenant, path: string, opts: Options)
    requires tenant.customDomain.Some? && ToTenant(base, tenant, path, opts).Some?
    ensures var domain := tenant.customDomain.value;
            var host := HostField(ToTenant(base, tenant, path, opts).value);
            var elsewhere := domain != base && !EndsWith(domain, Suffix(base));
            && (ByDomainOrSubdomain(base, host) == Domain(domain) <==> elsewhere)
            && (elsewhere ==>
                  BySubdomain(base, host) == ByLegacy(base, host)
                  == if |Labels(domain)| > 1 then Id(Labels(domain)[0]) else Miss)
  {
    var domain := tenant.customDomain.value;
    HostFieldOf(domain, path, opts);
    SafeHost(domain);
    assert IsHostLabel(Labels(domain)[0]);
    if EndsWith(domain, Suffix(base)) {
      SubNotEmpty(domain, base);
    }
    hide HostField, BeforeColon, Assemble, EndsWith, Suffix, Sub, Labels, IsSafeHost;
  }

  /**
   * The resolver and its stand-in before boot agree on every host but those that begin with a dot and are not below the
   * base domain: there the resolver finds a tenant with an empty id.
   */
  lemma LegacyAgrees(base: string, raw: string)
    ensures var host := BeforeColon(raw);
            BySubdomain(base, raw) == ByLegacy(base, raw)
            <==> host == "" || host[0] != '.' || EndsWith(host, Suffix(base))
  {
    var host := BeforeColon(raw);
    if host != "" {
      FirstLabelEmpty(host);
    }
    if EndsWith(host, Suffix(base)) && host == base {
      assert Sub(host, base) == "";
    }
    if host == base && host != "" && host[0] == '.' {
      assert host[..1] == ".";
      assert EndsWith(host, Suffix(base));
    }
    hide BeforeColon, Labels;
  }

  lemma FirstLabelEmpty(host: string)
    requires host != ""
    ensures host[0] == '.' <==> Labels(host)[0] == ""
    ensures host[0] == '.' ==> |Labels(host)| > 1
  {
  }

  // ---------- Clients that write hosts in lower case ----------

  function LowerCase(s: string): (r: string)
    ensures |r| == |s| && forall i :: 0 <= i < |s| ==> r[i] == Lower(s[i])
  {
    if s == "" then "" else [Lower(s[0])] + LowerCase(s[1..])
  }

  lemma {:induction false} LowerCaseAppend(a: string, b: string)
    ensures LowerCase(a + b) == LowerCase(a) + LowerCase(b)
  {
    if a == "" {
      AppendNothing(b);
    } else {
      AppendTail(a, b);
      LowerCaseAppend(a[1..], b);
    }
  }

  lemma LowerDotted(slug: string, base: string)
    ensures LowerCase(slug + "." + base) == LowerCase(slug) + "." + LowerCase(base)
  {
    LowerCaseAppend(slug, ".");
    LowerCaseAppend(slug + ".", base);
    assert LowerCase(".") == ".";
    hide LowerCase;
  }

  lemma LowerKeepsOut(s: string, c: char)
    requires c !in s && (c == '.' || c == ':')
    ensures c !in LowerCase(s)
  {
    hide LowerCase;
    assert forall i :: 0 <= i < |s| ==> s[i] != c && Lower(s[i]) != c;
  }

  /**
   * Browsers write hosts in lower case, as the URL Standard asks, and the resolvers mind the case. So a slug is found
   * again by its subdomain exactly if it is in lower case, and by domain or subdomain exactly if the base domain is so
   * too; otherwise another id or a domain is found.
   */
  lemma LowerCaseSlugResolvesBack(base: string, slug: string, path: string, opts: Options)
    requires ToTenantSubdomain(base, slug, path, opts).Some?
    ensures var host := LowerCase(BeforeColon(HostField(ToTenantSubdomain(base, slug, path, opts).value)));
            && (BySubdomain(base, host) == Id(slug) <==> LowerCase(slug) == slug)
            && (ByLegacy(base, host) == Id(slug) <==> LowerCase(slug) == slug)
            && (ByDomainOrSubdomain(base, host) == Id(slug) <==> LowerCase(slug) == slug && LowerCase(base) == base)
  {
    HostFieldOf(slug + "." + base, path, opts);
    SafeHost(slug + "." + base);
    SafeBelow(slug, base);
    LowerKeepsOut(slug + "." + base, ':');
    LowerKeepsOut(slug, '.');
    LowerDotted(slug, base);
    ReadTwoParts(LowerCase(slug), LowerCase(base), base);
    hide HostField, BeforeColon, Assemble, IsSafeHost, IsHostLabel, LowerCase;
    hide BySubdomain, ByLegacy, ByDomainOrSubdomain;
  }
}
