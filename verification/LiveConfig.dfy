/**
 `LiveConfig`: the site map of a node with its two domain indexes, and host matching.

 `lower` stands for `str::to_lowercase`; every statement holds whatever it computes.
 */
module LiveConfig {
  import opened Wrappers
  import opened Decimal

  datatype Site = Site(enabled: bool, domains: seq<string>, targetLabels: seq<string>, settings: seq<Byte>)

  type Sites = map<string, Site>
  type Index = map<string, string>

  predicate IsWildcard(domain: string) {
    "*." <= domain
  }

  /** The site with this id is enabled and names this domain, up to letter case. */
  ghost predicate Claims(sites: Sites, lower: string -> string, id: string, domain: string) {
    id in sites && sites[id].enabled && exists i | 0 <= i < |sites[id].domains| :: lower(sites[id].domains[i]) == domain
  }

  /** An index maps each domain of its kind that is claimed to one of its claimants, and no other. */
  ghost predicate Indexes(ix: Index, sites: Sites, lower: string -> string, wildcard: bool) {
    forall d :: if d in ix then IsWildcard(d) == wildcard && Claims(sites, lower, ix[d], d)
                else IsWildcard(d) == wildcard ==> forall id :: !Claims(sites, lower, id, d)
  }

  function LastIndex(s: string, c: char): (r: Option<nat>)
    ensures r.Some? ==> r.value < |s| && s[r.value] == c && c !in s[r.value + 1..]
    ensures r.None? ==> c !in s
  {
    if s == [] then None
    else if s[|s| - 1] == c then Some(|s| - 1)
    else LastIndex(s[..|s| - 1], c)
  }

  function Until(s: string, c: char): (r: string)
    ensures r <= s && c !in r && (r == s || s[|r|] == c)
  {
    if s == [] || s[0] == c then [] else [s[0]] + Until(s[1..], c)
  }

  /** Brackets around an IPv6 address, or a trailing `:port`, are dropped. */
  function StripPort(host: string): string {
    if host != [] && host[0] == '[' then Until(host[1..], ']')
    else match LastIndex(host, ':')
         case Some(k) => if k + 1 < |host| && AllDigits(host[k + 1..]) then host[..k] else host
         case None => host
  }

  function NormalizeHost(host: string, lower: string -> string): string {
    lower(StripPort(host))
  }

  /** `*.` and everything after the first dot of the host; None without a dot. */
  function WildcardOf(host: string): Option<string> {
    var first := Until(host, '.');
    if first == host then None else Some("*." + host[|first| + 1..])
  }

  function Lookup(sites: Sites, ix: Index, domain: string): Option<Site> {
    if domain in ix && ix[domain] in sites && sites[ix[domain]].enabled then Some(sites[ix[domain]]) else None
  }

  function MatchSite(sites: Sites, exact: Index, wildcard: Index, host: string, lower: string -> string): Option<Site> {
    var h := NormalizeHost(host, lower);
    var direct := Lookup(sites, exact, h);
    if direct.Some? then direct
    else match WildcardOf(h)
         case None => None
         case Some(w) => Lookup(sites, wildcard, w)
  }

  /** The naive search: is this the configuration of some enabled site naming the domain? */
  ghost predicate IsClaimant(sites: Sites, lower: string -> string, domain: string, site: Site) {
    exists id :: Claims(sites, lower, id, domain) && sites[id] == site
  }

  ghost predicate Claimed(sites: Sites, lower: string -> string, domain: string) {
    exists id :: Claims(sites, lower, id, domain)
  }

  lemma {:induction false} LookupIsSearch(sites: Sites, ix: Index, lower: string -> string, wildcard: bool, d: string)
    requires Indexes(ix, sites, lower, wildcard)
    ensures Lookup(sites, ix, d).Some? ==> IsClaimant(sites, lower, d, Lookup(sites, ix, d).value)
    ensures IsWildcard(d) == wildcard && Claimed(sites, lower, d) ==> Lookup(sites, ix, d).Some?
  {
  }

  /**
   What the search should find for a host h: an enabled site naming h; failing that, if h has a first
   label `a` and a dot, an enabled site naming `*.` and the rest; failing that, nothing.
   */
  ghost predicate Found(sites: Sites, lower: string -> string, h: string, a: string, rest: string, r: Option<Site>) {
    && (Claimed(sites, lower, h) ==> r.Some? && IsClaimant(sites, lower, h, r.value))
    && (!Claimed(sites, lower, h) && '.' !in h ==> r == None)
    && (!Claimed(sites, lower, h) && '.' !in a && h == a + "." + rest ==>
          if Claimed(sites, lower, "*." + rest) then r.Some? && IsClaimant(sites, lower, "*." + rest, r.value)
          else r == None)
  }

  lemma {:induction false} WildcardOfHost(h: string, a: string, rest: string)
    ensures '.' !in h ==> WildcardOf(h) == None
    ensures '.' !in a && h == a + "." + rest ==> WildcardOf(h) == Some("*." + rest)
  {
    hide Until;
    if '.' !in a && h == a + "." + rest {
      UntilFound(a, '.', rest);
      assert h[|a|] == '.' && h[|a| + 1..] == rest;
    }
  }

  lemma {:induction false} WildcardHosts(h: string)
    ensures WildcardOf(h).Some? ==> IsWildcard(WildcardOf(h).value)
    ensures IsWildcard(h) ==> WildcardOf(h) == Some(h)
  {
    if IsWildcard(h) {
      assert h == "*" + "." + h[2..] == "*." + h[2..];
      WildcardOfHost(h, "*", h[2..]);
    }
  }

  /**
   With indexes built from the sites in any order, matching a host is the naive search, for every
   way to split the host at its first dot.
   */
  lemma {:induction false} MatchIsNaiveSearch(sites: Sites, exact: Index, wildcard: Index, host: string,
                                             lower: string -> string, a: string, rest: string)
    requires Indexes(exact, sites, lower, false) && Indexes(wildcard, sites, lower, true)
    ensures Found(sites, lower, NormalizeHost(host, lower), a, rest, MatchSite(sites, exact, wildcard, host, lower))
  {
    hide NormalizeHost, Lookup, Indexes, WildcardOf, IsWildcard;
    var h := NormalizeHost(host, lower);
    LookupIsSearch(sites, exact, lower, false, h);
    WildcardHosts(h);
    WildcardOfHost(h, a, rest);
    if WildcardOf(h).Some? {
      LookupIsSearch(sites, wildcard, lower, true, WildcardOf(h).value);
    }
    if IsWildcard(h) {
      ExactHasNoWildcards(sites, exact, lower, h);
    }
  }

  lemma {:induction false} ExactHasNoWildcards(sites: Sites, exact: Index, lower: string -> string, d: string)
    requires Indexes(exact, sites, lower, false) && IsWildcard(d)
    ensures Lookup(sites, exact, d) == None
  {
  }

  /**
   What is matched, up to letter case: everything before the last colon if only digits follow it, at
   least one of them; what stands in brackets if the host opens one; otherwise the whole host.
   */
  lemma {:induction false} PortIsIgnored(name: string, port: string, lower: string -> string)
    requires (name == [] || name[0] != '[') && ':' !in port
    ensures var plain := port != [] && forall c | c in port :: '0' <= c <= '9';
      NormalizeHost(name + ":" + port, lower) == lower(if plain then name else name + ":" + port)
    ensures ':' !in name ==> NormalizeHost(name, lower) == lower(name)
  {
    hide *;
    LastColon(name, port);
    DigitsOnly(port);
    Unbracketed(name + ":" + port, |name|, lower);
    if ':' !in name { Portless(name, lower); }
  }

  lemma {:induction false} Unbracketed(h: string, k: nat, lower: string -> string)
    requires h != [] && h[0] != '[' && LastIndex(h, ':') == Some(k) && k < |h|
    ensures NormalizeHost(h, lower) == lower(if h[k + 1..] != [] && AllDigits(h[k + 1..]) then h[..k] else h)
  {
    hide LastIndex, AllDigits;
  }

  lemma {:induction false} Portless(h: string, lower: string -> string)
    requires (h == [] || h[0] != '[') && ':' !in h
    ensures NormalizeHost(h, lower) == lower(h)
  {
    hide LastIndex;
  }

  lemma {:induction false} BracketsAreDropped(address: string, rest: string, lower: string -> string)
    requires ']' !in address
    ensures NormalizeHost("[" + address + "]" + rest, lower) == lower(address)
    ensures NormalizeHost("[" + address, lower) == lower(address)
  {
    hide Until, LastIndex;
    UntilFound(address, ']', rest);
    assert ("[" + address + "]" + rest)[1..] == address + "]" + rest;
    assert ("[" + address)[1..] == address;
  }

  lemma {:induction false} DigitsOnly(port: string)
    ensures AllDigits(port) <==> forall c | c in port :: '0' <= c <= '9'
  {
    forall i | 0 <= i < |port| ensures port[i] in port {}
  }

  lemma {:induction false} LastColon(name: string, port: string)
    requires ':' !in port
    ensures var h := name + ":" + port;
            LastIndex(h, ':') == Some(|name|) && h[|name| + 1..] == port && h[..|name|] == name
  {
    hide LastIndex;
    var h := name + ":" + port;
    assert h[|name|] == ':';
    forall j | |name| < j < |h| ensures h[j] != ':' {
      assert h[j] == port[j - |name| - 1];
    }
  }

  lemma {:induction false} UntilFound(a: string, c: char, rest: string)
    requires c !in a
    ensures Until(a + [c] + rest, c) == a && Until(a, c) == a
  {
    if a != [] {
      UntilFound(a[1..], c, rest);
      assert (a + [c] + rest)[1..] == a[1..] + [c] + rest;
      assert a == [a[0]] + a[1..];
    }
  }

  predicate LabelsMatch(site: Site, nodeLabels: set<string>) {
    site.targetLabels == [] || exists l | l in site.targetLabels :: l in nodeLabels
  }

  function FilterByLabels(sites: Sites, nodeLabels: set<string>): Sites {
    map id | id in sites && LabelsMatch(sites[id], nodeLabels) :: sites[id]
  }

  // ------------------------------------------------------------------------------------------
  // The object swapped into the proxy.

  class Config {
    var sites: Sites
    var domainIndex: Index
    var wildcardIndex: Index

    constructor (sites: Sites)
      ensures this.sites == sites && domainIndex == map[] && wildcardIndex == map[]
    {
      this.sites, domainIndex, wildcardIndex := sites, map[], map[];
    }

    /** Clears both indexes and refills them from the sites, in whatever order the map iterates. */
    method BuildIndexes(lower: string -> string)
      modifies this`domainIndex, this`wildcardIndex
      ensures Indexes(domainIndex, sites, lower, false)
      ensures Indexes(wildcardIndex, sites, lower, true)
    {
      domainIndex, wildcardIndex := map[], map[];
      var todo := sites.Keys;
      while todo != {}
        invariant todo <= sites.Keys
        invariant PartlyIndexes(domainIndex, sites, sites.Keys - todo, lower, false)
        invariant PartlyIndexes(wildcardIndex, sites, sites.Keys - todo, lower, true)
        decreases |todo|
      {
        var id :| id in todo;
        AddSite(id, sites.Keys - todo, lower);
        todo := todo - {id};
        assert sites.Keys - todo == sites.Keys - (todo + {id}) + {id};
      }
      PartlyToAll(domainIndex, sites, lower, false);
      PartlyToAll(wildcardIndex, sites, lower, true);
    }

    method AddSite(id: string, ghost done: set<string>, lower: string -> string)
      requires id in sites
      requires PartlyIndexes(domainIndex, sites, done, lower, false)
      requires PartlyIndexes(wildcardIndex, sites, done, lower, true)
      modifies this`domainIndex, this`wildcardIndex
      ensures PartlyIndexes(domainIndex, sites, done + {id}, lower, false)
      ensures PartlyIndexes(wildcardIndex, sites, done + {id}, lower, true)
    {
      hide PartlyIndexes, Claims, IsWildcard;
      var site := sites[id];
      if !site.enabled {
        NotIndexed(domainIndex, sites, done, lower, false, id);
        NotIndexed(wildcardIndex, sites, done, lower, true, id);
        return;
      }
      for i := 0 to |site.domains|
        invariant PartlyIndexes(domainIndex, sites, done, lower, false)
        invariant PartlyIndexes(wildcardIndex, sites, done, lower, true)
        invariant forall j | 0 <= j < i ::
          lower(site.domains[j]) in if IsWildcard(lower(site.domains[j])) then wildcardIndex else domainIndex
      {
        var domain := lower(site.domains[i]);
        OwnDomain(sites, lower, id, i);
        StillIndexes(if IsWildcard(domain) then wildcardIndex else domainIndex, sites, done, lower, domain, id);
        if IsWildcard(domain) {
          wildcardIndex := wildcardIndex[domain := id];
        } else {
          domainIndex := domainIndex[domain := id];
        }
      }
      AllIndexed(domainIndex, sites, done, lower, false, id);
      AllIndexed(wildcardIndex, sites, done, lower, true, id);
    }
  }

  /** As `Indexes`, for the sites visited so far. */
  ghost predicate PartlyIndexes(ix: Index, sites: Sites, done: set<string>, lower: string -> string, wildcard: bool) {
    && (forall d | d in ix :: IsWildcard(d) == wildcard && Claims(sites, lower, ix[d], d))
    && (forall id, i | id in done && id in sites && sites[id].enabled && 0 <= i < |sites[id].domains| ::
          IsWildcard(lower(sites[id].domains[i])) == wildcard ==> lower(sites[id].domains[i]) in ix)
  }

  lemma {:induction false} OwnDomain(sites: Sites, lower: string -> string, id: string, i: nat)
    requires id in sites && sites[id].enabled && i < |sites[id].domains|
    ensures Claims(sites, lower, id, lower(sites[id].domains[i]))
  {
  }

  lemma {:induction false} StillIndexes(ix: Index, sites: Sites, done: set<string>, lower: string -> string,
                                       domain: string, id: string)
    requires PartlyIndexes(ix, sites, done, lower, IsWildcard(domain)) && Claims(sites, lower, id, domain)
    ensures PartlyIndexes(ix[domain := id], sites, done, lower, IsWildcard(domain))
  {
    hide IsWildcard, Claims;
  }

  lemma {:induction false} NotIndexed(ix: Index, sites: Sites, done: set<string>, lower: string -> string,
                                     wildcard: bool, id: string)
    requires PartlyIndexes(ix, sites, done, lower, wildcard) && id in sites && !sites[id].enabled
    ensures PartlyIndexes(ix, sites, done + {id}, lower, wildcard)
  {
    hide IsWildcard, Claims;
  }

  lemma {:induction false} AllIndexed(ix: Index, sites: Sites, done: set<string>, lower: string -> string,
                                     wildcard: bool, id: string)
    requires PartlyIndexes(ix, sites, done, lower, wildcard) && id in sites
    requires forall i | 0 <= i < |sites[id].domains| ::
               IsWildcard(lower(sites[id].domains[i])) == wildcard ==> lower(sites[id].domains[i]) in ix
    ensures PartlyIndexes(ix, sites, done + {id}, lower, wildcard)
  {
    hide IsWildcard, Claims;
  }

  lemma {:induction false} PartlyToAll(ix: Index, sites: Sites, lower: string -> string, wildcard: bool)
    requires PartlyIndexes(ix, sites, sites.Keys, lower, wildcard)
    ensures Indexes(ix, sites, lower, wildcard)
  {
  }
}
