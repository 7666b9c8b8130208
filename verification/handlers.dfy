/**
 * The record handlers of the data manager, each as the sequence of effects
 * it produces for one record of a resolved query: insertCNAME, insertA,
 * insertAAAA, insertPTR, insertSRV, insertNS, insertMX, insertTXT and
 * insertSPF, the text miner findNamesAndAddresses, and OnASNRequest.
 *
 * Every fact is keyed by the query's own name (q.name), which the service
 * never normalises; only the record's fields are normalised.
 */
module Handlers {
  import opened Text
  import opened Model

  /**
   * publicsuffix.EffectiveTLDPlusOne of target, lower-cased; None when the
   * public-suffix lookup fails or yields the empty string.
   */
  function RegistrableDomain(env: Env, target: string): (d: Option<string>)
    ensures d.Some? ==> d.value != "" && env.etldPlusOne(target).Some?
  {
    match env.etldPlusOne(target)
    case None => None
    case Some(s) =>
      var domain := ToLower(s);
      if domain == "" then None else Some(domain)
  }

  /** The registrable domain is the public-suffix answer in lower case, and is never empty. */
  lemma RegistrableDomainLower(env: Env, target: string)
    ensures var d := RegistrableDomain(env, target);
      d.Some? ==>
        var answer := env.etldPlusOne(target).value;
        |d.value| == |answer| && IsLower(d.value)
        && forall i :: 0 <= i < |answer| ==>
             d.value[i] == answer[i] || (IsUpper(answer[i]) && d.value[i] as int == answer[i] as int + 32)
    ensures env.etldPlusOne(target).Some? && env.etldPlusOne(target).value != "" ==> RegistrableDomain(env, target).Some?
  {
    if env.etldPlusOne(target).Some? {
      ToLowerSpec(env.etldPlusOne(target).value);
    }
  }

  /** insertCNAME: the alias fact, then the target re-queued for resolution. */
  function CNAMEEffects(env: Env, q: Query, r: Record): seq<Effect>
  {
    var target := env.removeLastDot(r.data);
    if target == "" then []
    else
      match RegistrableDomain(env, target)
      case None => []
      case Some(domain) =>
        Emit(env, Link(CNAME, q.name, target, q.source, q.tag, env.cfg.uuid),
             [NewName(NameRequest(target, domain, DNS, "DNS"))])
  }

  /**
   * A CNAME whose target is empty or has no registrable domain does
   * nothing; otherwise every sink receives the alias fact and the target is
   * always re-queued with tag DNS and source "DNS", whatever the sinks did.
   */
  lemma CNAMEOutcome(env: Env, q: Query, r: Record)
    ensures
      var target := env.removeLastDot(r.data);
      var fact := Link(CNAME, q.name, target, q.source, q.tag, env.cfg.uuid);
      var effs := CNAMEEffects(env, q, r);
      if target == "" || RegistrableDomain(env, target).None? then effs == []
      else
        Observed(effs) == AllWrites(env.sinks, fact)
          + [NewName(NameRequest(target, RegistrableDomain(env, target).value, DNS, "DNS")), Heartbeat]
        && |Filter(effs, IsLog)| == Rejections(env.sinks, env.accepts, fact)
    ensures var effs := CNAMEEffects(env, q, r);
      NamesHaveDomains(effs)
      && forall e :: e in effs ==>
           !e.NewAddr? && (e.Write? ==> e.fact.Link? && e.fact.kind == CNAME && e.fact.name == q.name)
  {
    var target := env.removeLastDot(r.data);
    if target != "" && RegistrableDomain(env, target).Some? {
      var fact := Link(CNAME, q.name, target, q.source, q.tag, env.cfg.uuid);
      var events := [NewName(NameRequest(target, RegistrableDomain(env, target).value, DNS, "DNS"))];
      assert CNAMEEffects(env, q, r) == Emit(env, fact, events);
      EmitShape(env, fact, events);
      EmitMembers(env, fact, events);
    }
  }

  /** insertA (kind A) and insertAAAA (kind AAAA): the address fact, then a new-address event. */
  function AddressEffects(env: Env, q: Query, r: Record, kind: LinkKind): seq<Effect>
  {
    var addr := TrimSpace(r.data);
    if addr == "" then []
    else
      Emit(env, Link(kind, q.name, addr, q.source, q.tag, env.cfg.uuid),
           [NewAddr(AddrRequest(addr, q.domain, q.tag, q.source))])
  }

  /**
   * An address record whose data is only white space does nothing;
   * otherwise every sink receives the address fact and one new-address
   * event follows, carrying the query's domain, tag and source.
   */
  lemma AddressOutcome(env: Env, q: Query, r: Record, kind: LinkKind)
    ensures
      var addr := TrimSpace(r.data);
      var fact := Link(kind, q.name, addr, q.source, q.tag, env.cfg.uuid);
      var effs := AddressEffects(env, q, r, kind);
      if addr == "" then effs == []
      else
        Observed(effs) == AllWrites(env.sinks, fact)
          + [NewAddr(AddrRequest(addr, q.domain, q.tag, q.source)), Heartbeat]
        && |Filter(effs, IsLog)| == Rejections(env.sinks, env.accepts, fact)
  {
    var addr := TrimSpace(r.data);
    if addr != "" {
      EmitShape(env, Link(kind, q.name, addr, q.source, q.tag, env.cfg.uuid),
                [NewAddr(AddrRequest(addr, q.domain, q.tag, q.source))]);
    }
  }

  /** An address record never announces a name. */
  lemma AddressAnnouncesNoName(env: Env, q: Query, r: Record, kind: LinkKind)
    ensures forall e :: e in AddressEffects(env, q, r, kind) ==> !e.NewName?
  {
    var addr := TrimSpace(r.data);
    if addr != "" {
      EmitMembers(env, Link(kind, q.name, addr, q.source, q.tag, env.cfg.uuid),
                  [NewAddr(AddrRequest(addr, q.domain, q.tag, q.source))]);
    }
  }

  /** insertPTR: only a target inside the scope is stored and re-queued. */
  function PTREffects(env: Env, q: Query, r: Record): seq<Effect>
  {
    var target := env.removeLastDot(r.data);
    if target == "" then []
    else
      var domain := ToLower(env.cfg.whichDomain(target));
      if domain == "" then []
      else
        Emit(env, Link(PTR, q.name, target, q.source, q.tag, env.cfg.uuid),
             [NewName(NameRequest(target, domain, DNS, q.source))])
  }

  /**
   * A PTR target that is empty or outside the scope produces neither a
   * write nor an event; otherwise every sink receives the PTR fact and one
   * new-name event follows, with the lower-cased scope domain, tag DNS and
   * the query's source.
   */
  lemma PTROutcome(env: Env, q: Query, r: Record)
    ensures
      var target := env.removeLastDot(r.data);
      var domain := ToLower(env.cfg.whichDomain(target));
      var fact := Link(PTR, q.name, target, q.source, q.tag, env.cfg.uuid);
      var effs := PTREffects(env, q, r);
      if target == "" || domain == "" then effs == []
      else
        Observed(effs) == AllWrites(env.sinks, fact)
          + [NewName(NameRequest(target, domain, DNS, q.source)), Heartbeat]
        && |Filter(effs, IsLog)| == Rejections(env.sinks, env.accepts, fact)
    ensures var effs := PTREffects(env, q, r);
      NamesHaveDomains(effs) && forall e :: e in effs ==> !e.NewAddr?
  {
    var target := env.removeLastDot(r.data);
    var domain := ToLower(env.cfg.whichDomain(target));
    if target != "" && domain != "" {
      EmitShape(env, Link(PTR, q.name, target, q.source, q.tag, env.cfg.uuid),
                [NewName(NameRequest(target, domain, DNS, q.source))]);
      EmitMembers(env, Link(PTR, q.name, target, q.source, q.tag, env.cfg.uuid),
                  [NewName(NameRequest(target, domain, DNS, q.source))]);
    }
  }

  /** insertSRV: the service fact always; the target re-queued only when it is in scope. */
  function SRVEffects(env: Env, q: Query, r: Record): seq<Effect>
  {
    var service := env.removeLastDot(r.name);
    var target := env.removeLastDot(r.data);
    if target == "" || service == "" then []
    else
      var domain := env.cfg.whichDomain(target);
      Emit(env, Service(q.name, service, target, q.source, q.tag, env.cfg.uuid),
           if domain != "" then [NewName(NameRequest(target, domain, q.tag, q.source))] else [])
  }

  /**
   * An SRV record with an empty service or target does nothing; otherwise
   * every sink receives the service fact whatever the scope says, and a
   * new-name event with the query's tag follows only when the target has a
   * scope domain.
   */
  lemma SRVOutcome(env: Env, q: Query, r: Record)
    ensures
      var service := env.removeLastDot(r.name);
      var target := env.removeLastDot(r.data);
      var domain := env.cfg.whichDomain(target);
      var fact := Service(q.name, service, target, q.source, q.tag, env.cfg.uuid);
      var effs := SRVEffects(env, q, r);
      if target == "" || service == "" then effs == []
      else
        Observed(effs) == AllWrites(env.sinks, fact)
          + (if domain != "" then [NewName(NameRequest(target, domain, q.tag, q.source))] else [])
          + [Heartbeat]
        && |Filter(effs, IsLog)| == Rejections(env.sinks, env.accepts, fact)
    ensures var effs := SRVEffects(env, q, r);
      NamesHaveDomains(effs) && forall e :: e in effs ==> !e.NewAddr?
  {
    var service := env.removeLastDot(r.name);
    var target := env.removeLastDot(r.data);
    var domain := env.cfg.whichDomain(target);
    if target != "" && service != "" {
      EmitShape(env, Service(q.name, service, target, q.source, q.tag, env.cfg.uuid),
                if domain != "" then [NewName(NameRequest(target, domain, q.tag, q.source))] else []);
      EmitMembers(env, Service(q.name, service, target, q.source, q.tag, env.cfg.uuid),
                  if domain != "" then [NewName(NameRequest(target, domain, q.tag, q.source))] else []);
    }
  }

  /** insertNS: the target is the last comma-separated field of the data. */
  function NSEffects(env: Env, q: Query, r: Record): seq<Effect>
  {
    var target := LastField(r.data);
    if target == "" then []
    else
      match RegistrableDomain(env, target)
      case None => []
      case Some(domain) =>
        Emit(env, Link(NS, q.name, target, q.source, q.tag, env.cfg.uuid),
             if target != domain then [NewName(NameRequest(target, domain, DNS, "DNS"))] else [])
  }

  /**
   * An NS record whose last field is empty or has no registrable domain
   * does nothing; otherwise every sink receives the NS fact and the name
   * server is re-queued unless it is the registrable domain itself.
   */
  lemma NSOutcome(env: Env, q: Query, r: Record)
    ensures
      var target := LastField(r.data);
      var fact := Link(NS, q.name, target, q.source, q.tag, env.cfg.uuid);
      var effs := NSEffects(env, q, r);
      if target == "" || RegistrableDomain(env, target).None? then effs == []
      else
        var domain := RegistrableDomain(env, target).value;
        Observed(effs) == AllWrites(env.sinks, fact)
          + (if target != domain then [NewName(NameRequest(target, domain, DNS, "DNS"))] else [])
          + [Heartbeat]
        && |Filter(effs, IsLog)| == Rejections(env.sinks, env.accepts, fact)
    ensures var effs := NSEffects(env, q, r);
      NamesHaveDomains(effs) && forall e :: e in effs ==> !e.NewAddr?
  {
    var target := LastField(r.data);
    if target != "" && RegistrableDomain(env, target).Some? {
      var domain := RegistrableDomain(env, target).value;
      EmitShape(env, Link(NS, q.name, target, q.source, q.tag, env.cfg.uuid),
                if target != domain then [NewName(NameRequest(target, domain, DNS, "DNS"))] else []);
      EmitMembers(env, Link(NS, q.name, target, q.source, q.tag, env.cfg.uuid),
                  if target != domain then [NewName(NameRequest(target, domain, DNS, "DNS"))] else []);
    }
  }

  /** insertMX. */
  function MXEffects(env: Env, q: Query, r: Record): seq<Effect>
  {
    var target := env.removeLastDot(r.data);
    if target == "" then []
    else
      match RegistrableDomain(env, target)
      case None => []
      case Some(domain) =>
        Emit(env, Link(MX, q.name, target, q.source, q.tag, env.cfg.uuid),
             if target != domain then [NewName(NameRequest(target, domain, DNS, "DNS"))] else [])
  }

  /**
   * An MX record whose target is empty or has no registrable domain does
   * nothing; otherwise every sink receives the MX fact and the mail server
   * is re-queued unless it is the registrable domain itself.
   */
  lemma MXOutcome(env: Env, q: Query, r: Record)
    ensures
      var target := env.removeLastDot(r.data);
      var fact := Link(MX, q.name, target, q.source, q.tag, env.cfg.uuid);
      var effs := MXEffects(env, q, r);
      if target == "" || RegistrableDomain(env, target).None? then effs == []
      else
        var domain := RegistrableDomain(env, target).value;
        Observed(effs) == AllWrites(env.sinks, fact)
          + (if target != domain then [NewName(NameRequest(target, domain, DNS, "DNS"))] else [])
          + [Heartbeat]
        && |Filter(effs, IsLog)| == Rejections(env.sinks, env.accepts, fact)
    ensures var effs := MXEffects(env, q, r);
      NamesHaveDomains(effs) && forall e :: e in effs ==> !e.NewAddr?
  {
    var target := env.removeLastDot(r.data);
    if target != "" && RegistrableDomain(env, target).Some? {
      var domain := RegistrableDomain(env, target).value;
      var fact := Link(MX, q.name, target, q.source, q.tag, env.cfg.uuid);
      var events := if target != domain then [NewName(NameRequest(target, domain, DNS, "DNS"))] else [];
      assert MXEffects(env, q, r) == Emit(env, fact, events);
      EmitShape(env, fact, events);
      EmitMembers(env, fact, events);
    }
  }

  /** The first loop of findNamesAndAddresses: one new-address event per IPv4 match. */
  function AddrEvents(ips: seq<string>, domain: string): (effs: seq<Effect>)
    ensures |effs| == |ips|
  {
    if ips == [] then []
    else AddrEvents(ips[..|ips| - 1], domain) + [NewAddr(AddrRequest(ips[|ips| - 1], domain, DNS, "DNS"))]
  }

  /** The k-th event of the first loop announces the k-th IPv4 match, for the owning domain. */
  lemma {:induction false} AddrEventsSpec(ips: seq<string>, domain: string)
    ensures forall k :: 0 <= k < |ips| ==> AddrEvents(ips, domain)[k] == NewAddr(AddrRequest(ips[k], domain, DNS, "DNS"))
  {
    if ips != [] {
      AddrEventsSpec(ips[..|ips| - 1], domain);
    }
  }

  /** One iteration of the second loop of findNamesAndAddresses. */
  function MinedName(cfg: Config, name: string): seq<Effect>
  {
    if !cfg.inScope(name) then []
    else
      var domain := ToLower(cfg.whichDomain(name));
      if domain == "" then [] else [NewName(NameRequest(name, domain, DNS, "DNS"))]
  }

  /**
   * The second loop of findNamesAndAddresses: a new-name event for exactly
   * the subdomain matches that are in scope and have a scope domain.
   */
  function NameEvents(cfg: Config, names: seq<string>): seq<Effect>
  {
    if names == [] then []
    else NameEvents(cfg, names[..|names| - 1]) + MinedName(cfg, names[|names| - 1])
  }

  /**
   * The second loop publishes a new-name event for exactly the subdomain
   * matches that are in scope and have a scope domain, with that domain
   * lower-cased, tag DNS and source "DNS".
   */
  lemma {:induction false} NameEventsSpec(cfg: Config, names: seq<string>)
    ensures forall e :: e in NameEvents(cfg, names) ==>
      e.NewName? && e.name.name in names && cfg.inScope(e.name.name)
      && e.name.domain == ToLower(cfg.whichDomain(e.name.name)) && e.name.domain != ""
      && e.name.tag == DNS && e.name.source == "DNS"
    ensures forall k :: 0 <= k < |names| && cfg.inScope(names[k]) && ToLower(cfg.whichDomain(names[k])) != "" ==>
      NewName(NameRequest(names[k], ToLower(cfg.whichDomain(names[k])), DNS, "DNS")) in NameEvents(cfg, names)
  {
    if names != [] {
      var init := names[..|names| - 1];
      NameEventsSpec(cfg, init);
      assert forall k :: 0 <= k < |init| ==> init[k] == names[k];
    }
  }

  /** findNamesAndAddresses over data, on behalf of the owning domain. */
  function MinerEffects(env: Env, data: string, domain: string): seq<Effect>
  {
    AddrEvents(env.ipv4Matches(data), domain) + NameEvents(env.cfg, env.subdomainMatches(data)) + [Heartbeat]
  }

  predicate IsNewAddr(e: Effect) { e.NewAddr? }

  /** The text miner writes nothing to the sinks, logs nothing, and announces no name without a domain. */
  lemma MinerMembers(env: Env, data: string, domain: string)
    ensures var effs := MinerEffects(env, data, domain);
      NamesHaveDomains(effs) && forall e :: e in effs ==> !e.Write? && !e.Log?
  {
    var a := AddrEvents(env.ipv4Matches(data), domain);
    var n := NameEvents(env.cfg, env.subdomainMatches(data));
    AddrEventsSpec(env.ipv4Matches(data), domain);
    NameEventsSpec(env.cfg, env.subdomainMatches(data));
    assert forall e :: e in a + n + [Heartbeat] ==> e in a || e in n || e == Heartbeat;
  }

  /**
   * The text miner turns every IPv4 match into exactly one new-address
   * event for the owning domain, in order and without condition, and ends
   * with a heartbeat.
   */
  lemma MinerAddresses(env: Env, data: string, domain: string)
    ensures var ips := env.ipv4Matches(data);
      Filter(MinerEffects(env, data, domain), IsNewAddr)
        == seq(|ips|, k requires 0 <= k < |ips| => NewAddr(AddrRequest(ips[k], domain, DNS, "DNS")))
    ensures var effs := MinerEffects(env, data, domain); effs[|effs| - 1] == Heartbeat
  {
    var ips := env.ipv4Matches(data);
    var a := AddrEvents(ips, domain);
    var n := NameEvents(env.cfg, env.subdomainMatches(data));
    assert MinerEffects(env, data, domain) == a + n + [Heartbeat];
    AddrEventsSpec(ips, domain);
    NameEventsSpec(env.cfg, env.subdomainMatches(data));
    FilterAddressesOnly(a, n);
  }

  /** Of addresses, then non-addresses, then a heartbeat, filtering keeps just the addresses. */
  lemma FilterAddressesOnly(a: seq<Effect>, n: seq<Effect>)
    requires forall e :: e in a ==> e.NewAddr?
    requires forall e :: e in n ==> !e.NewAddr?
    ensures Filter(a + n + [Heartbeat], IsNewAddr) == a
  {
    FilterKeepsAll(a, IsNewAddr);
    FilterDropsAll(n, IsNewAddr);
    FilterDropsAll([Heartbeat], IsNewAddr);
    FilterAppend(a, n, IsNewAddr);
    FilterAppend(a + n, [Heartbeat], IsNewAddr);
  }

  /** insertTXT and insertSPF: mine the record's data when the query name is in scope. */
  function TextEffects(env: Env, q: Query, r: Record): seq<Effect>
  {
    if !env.cfg.inScope(q.name) then [] else MinerEffects(env, r.data, q.domain)
  }

  /**
   * TXT and SPF records of a query whose name is out of scope do nothing;
   * otherwise they are mined, and never write to the sinks.
   */
  lemma TextOutcome(env: Env, q: Query, r: Record)
    ensures var effs := TextEffects(env, q, r);
      (!env.cfg.inScope(q.name) ==> effs == [])
      && (env.cfg.inScope(q.name) ==> effs == MinerEffects(env, r.data, q.domain))
      && NamesHaveDomains(effs) && forall e :: e in effs ==> !e.Write? && !e.Log?
  {
    MinerMembers(env, r.data, q.domain);
  }

  /** OnASNRequest: an infrastructure fact to every sink, then a heartbeat. */
  function ASNEffects(env: Env, a: ASNRequest): seq<Effect>
  {
    if a.address == "" || a.prefix == "" || a.description == "" then []
    else Emit(env, Infrastructure(a.asn, a.description, a.address, a.prefix, a.source, a.tag, env.cfg.uuid), [])
  }

  /**
   * An ASN request missing its address, prefix or description causes no
   * write, no log and no heartbeat; otherwise every sink receives the
   * infrastructure fact and one heartbeat follows.
   */
  lemma ASNOutcome(env: Env, a: ASNRequest)
    ensures
      var fact := Infrastructure(a.asn, a.description, a.address, a.prefix, a.source, a.tag, env.cfg.uuid);
      var effs := ASNEffects(env, a);
      if a.address == "" || a.prefix == "" || a.description == "" then effs == []
      else
        Observed(effs) == AllWrites(env.sinks, fact) + [Heartbeat]
        && |Filter(effs, IsLog)| == Rejections(env.sinks, env.accepts, fact)
    ensures forall e :: e in ASNEffects(env, a) ==> !e.NewName? && !e.NewAddr?
  {
    if a.address != "" && a.prefix != "" && a.description != "" {
      EmitShape(env, Infrastructure(a.asn, a.description, a.address, a.prefix, a.source, a.tag, env.cfg.uuid), []);
      EmitMembers(env, Infrastructure(a.asn, a.description, a.address, a.prefix, a.source, a.tag, env.cfg.uuid), []);
    }
  }
}
