/**
 * DataManagerService: the admission loop of OnDNSRequest, processDNSRequest
 * over the query's records (updated in place), the record handlers,
 * findNamesAndAddresses and OnASNRequest. The service's field `effects`
 * records, in order, every sink write, log publication, event and
 * heartbeat; each method is proved to append exactly what the
 * corresponding specification function of Handlers or Dispatch says.
 */
module Service {
  import opened Text
  import opened Model
  import opened Handlers
  import opened Dispatch

  /** The sleep schedule of OnDNSRequest, in milliseconds, and its largest index. */
  const Delays: seq<nat> := [25, 50, 75, 100, 150, 250, 500]
  const MaxIdx: nat := 6

  /** The sleep after the (k+1)-th failed acquisition. */
  function BackoffDelay(k: nat): (d: nat)
    ensures 25 <= d <= 500
    ensures k >= MaxIdx ==> d == 500
  {
    Delays[if k < MaxIdx then k else MaxIdx]
  }

  /** The schedule starts 25, 50, 75, 100, 150, 250, 500 and stays at 500. */
  lemma BackoffSchedule(k: nat)
    ensures seq(7, i requires 0 <= i => BackoffDelay(i)) == [25, 50, 75, 100, 150, 250, 500]
    ensures BackoffDelay(MaxIdx + k) == 500
  {
  }

  /** Waiting longer never shortens the sleep. */
  lemma BackoffMonotone(j: nat, k: nat)
    requires j <= k
    ensures BackoffDelay(j) <= BackoffDelay(k)
  {
  }

  /**
   * The retry loop of OnDNSRequest. acquired[n] is the outcome of the
   * (n+1)-th TryAcquire; running out of outcomes stands for the quit
   * signal. Returns the sleeps taken and whether a slot was acquired.
   */
  method AcquireSlot(acquired: seq<bool>) returns (sleeps: seq<nat>, admitted: bool)
    ensures admitted <==> true in acquired
    ensures |sleeps| <= |acquired| && forall k :: 0 <= k < |sleeps| ==> !acquired[k]
    ensures admitted ==> acquired[|sleeps|]
    ensures !admitted ==> |sleeps| == |acquired|
    ensures forall k :: 0 <= k < |sleeps| ==> sleeps[k] == BackoffDelay(k) <= 500
  {
    var curIdx := 0;
    sleeps := [];
    var attempt := 0;
    while attempt < |acquired|
      invariant 0 <= attempt <= |acquired| && |sleeps| == attempt
      invariant 0 <= curIdx <= MaxIdx && curIdx == if attempt < MaxIdx then attempt else MaxIdx
      invariant forall k :: 0 <= k < attempt ==> !acquired[k] && sleeps[k] == BackoffDelay(k)
    {
      if acquired[attempt] {
        curIdx := 0;
        return sleeps, true;
      }
      sleeps := sleeps + [Delays[curIdx]];
      if curIdx < MaxIdx {
        curIdx := curIdx + 1;
      }
      attempt := attempt + 1;
    }
    return sleeps, false;
  }

  class DataManagerService {
    /** Everything the service has done so far, oldest first. */
    var effects: seq<Effect>

    constructor ()
      ensures effects == []
    {
      effects := [];
    }

    /** The loop over the graph databases that inserts fact into each. */
    method WriteAll(env: Env, fact: Fact)
      modifies this
      ensures effects == old(effects) + FanOut(env.sinks, env.accepts, fact)
    {
      ghost var done: seq<Effect> := [];
      var i := 0;
      while i < |env.sinks|
        invariant 0 <= i <= |env.sinks|
        invariant done == FanOut(env.sinks[..i], env.accepts, fact)
        invariant effects == old(effects) + done
      {
        var g := env.sinks[i];
        effects := effects + [Write(g, fact)];
        if !env.accepts(g, fact) {
          effects := effects + [Log(g)];
        }
        FanOutSnoc(env.sinks, i, env.accepts, fact);
        ConcatAssoc(old(effects), done, Attempt(g, env.accepts, fact));
        done := done + Attempt(g, env.accepts, fact);
        i := i + 1;
      }
      assert env.sinks[..i] == env.sinks;
    }

    method InsertCNAME(env: Env, q: Query, records: array<Record>, recidx: int)
      requires 0 <= recidx < records.Length
      modifies this
      ensures effects == old(effects) + CNAMEEffects(env, q, records[recidx])
    {
      var target := env.removeLastDot(records[recidx].data);
      if target == "" {
        return;
      }
      var etld := env.etldPlusOne(target);
      if etld.None? {
        return;
      }
      var domain := ToLower(etld.value);
      if domain == "" {
        return;
      }
      WriteAll(env, Link(CNAME, q.name, target, q.source, q.tag, env.cfg.uuid));
      effects := effects + [NewName(NameRequest(target, domain, DNS, "DNS"))];
      effects := effects + [Heartbeat];
    }

    method InsertA(env: Env, q: Query, records: array<Record>, recidx: int)
      requires 0 <= recidx < records.Length
      modifies this
      ensures effects == old(effects) + AddressEffects(env, q, records[recidx], A)
    {
      var addr := TrimSpace(records[recidx].data);
      if addr == "" {
        return;
      }
      WriteAll(env, Link(A, q.name, addr, q.source, q.tag, env.cfg.uuid));
      effects := effects + [NewAddr(AddrRequest(addr, q.domain, q.tag, q.source))];
      effects := effects + [Heartbeat];
    }

    method InsertAAAA(env: Env, q: Query, records: array<Record>, recidx: int)
      requires 0 <= recidx < records.Length
      modifies this
      ensures effects == old(effects) + AddressEffects(env, q, records[recidx], AAAA)
    {
      var addr := TrimSpace(records[recidx].data);
      if addr == "" {
        return;
      }
      WriteAll(env, Link(AAAA, q.name, addr, q.source, q.tag, env.cfg.uuid));
      effects := effects + [NewAddr(AddrRequest(addr, q.domain, q.tag, q.source))];
      effects := effects + [Heartbeat];
    }

    method InsertPTR(env: Env, q: Query, records: array<Record>, recidx: int)
      requires 0 <= recidx < records.Length
      modifies this
      ensures effects == old(effects) + PTREffects(env, q, records[recidx])
    {
      var target := env.removeLastDot(records[recidx].data);
      if target == "" {
        return;
      }
      var domain := ToLower(env.cfg.whichDomain(target));
      if domain == "" {
        return;
      }
      WriteAll(env, Link(PTR, q.name, target, q.source, q.tag, env.cfg.uuid));
      effects := effects + [NewName(NameRequest(target, domain, DNS, q.source))];
      effects := effects + [Heartbeat];
    }

    method InsertSRV(env: Env, q: Query, records: array<Record>, recidx: int)
      requires 0 <= recidx < records.Length
      modifies this
      ensures effects == old(effects) + SRVEffects(env, q, records[recidx])
    {
      var service := env.removeLastDot(records[recidx].name);
      var target := env.removeLastDot(records[recidx].data);
      if target == "" || service == "" {
        return;
      }
      WriteAll(env, Service(q.name, service, target, q.source, q.tag, env.cfg.uuid));
      var domain := env.cfg.whichDomain(target);
      if domain != "" {
        effects := effects + [NewName(NameRequest(target, domain, q.tag, q.source))];
      }
      effects := effects + [Heartbeat];
    }

    method InsertNS(env: Env, q: Query, records: array<Record>, recidx: int)
      requires 0 <= recidx < records.Length
      modifies this
      ensures effects == old(effects) + NSEffects(env, q, records[recidx])
    {
      var target := LastField(records[recidx].data);
      if target == "" {
        return;
      }
      var etld := env.etldPlusOne(target);
      if etld.None? {
        return;
      }
      var domain := ToLower(etld.value);
      if domain == "" {
        return;
      }
      ghost var start := effects;
      var fact := Link(NS, q.name, target, q.source, q.tag, env.cfg.uuid);
      WriteAll(env, fact);
      if target != domain {
        effects := effects + [NewName(NameRequest(target, domain, DNS, "DNS"))];
      }
      effects := effects + [Heartbeat];
      assert RegistrableDomain(env, target) == Some(domain);
      assert effects == start + Emit(env, fact, if target != domain then [NewName(NameRequest(target, domain, DNS, "DNS"))] else []);
    }

    method InsertMX(env: Env, q: Query, records: array<Record>, recidx: int)
      requires 0 <= recidx < records.Length
      modifies this
      ensures effects == old(effects) + MXEffects(env, q, records[recidx])
    {
      var target := env.removeLastDot(records[recidx].data);
      if target == "" {
        return;
      }
      var etld := env.etldPlusOne(target);
      if etld.None? {
        return;
      }
      var domain := ToLower(etld.value);
      if domain == "" {
        return;
      }
      WriteAll(env, Link(MX, q.name, target, q.source, q.tag, env.cfg.uuid));
      if target != domain {
        effects := effects + [NewName(NameRequest(target, domain, DNS, "DNS"))];
      }
      effects := effects + [Heartbeat];
    }

    method InsertTXT(env: Env, q: Query, records: array<Record>, recidx: int)
      requires 0 <= recidx < records.Length
      modifies this
      ensures effects == old(effects) + TextEffects(env, q, records[recidx])
    {
      if !env.cfg.inScope(q.name) {
        return;
      }
      FindNamesAndAddresses(env, records[recidx].data, q.domain);
    }

    method InsertSPF(env: Env, q: Query, records: array<Record>, recidx: int)
      requires 0 <= recidx < records.Length
      modifies this
      ensures effects == old(effects) + TextEffects(env, q, records[recidx])
    {
      if !env.cfg.inScope(q.name) {
        return;
      }
      FindNamesAndAddresses(env, records[recidx].data, q.domain);
    }

    method FindNamesAndAddresses(env: Env, data: string, domain: string)
      modifies this
      ensures effects == old(effects) + MinerEffects(env, data, domain)
    {
      var ips := env.ipv4Matches(data);
      PublishAddresses(ips, domain);
      var names := env.subdomainMatches(data);
      PublishNames(env, names);
      effects := effects + [Heartbeat];
      ConcatAssoc(old(effects), AddrEvents(ips, domain), NameEvents(env.cfg, names));
    }

    /** The first loop of findNamesAndAddresses: one new-address event per IPv4 match. */
    method PublishAddresses(ips: seq<string>, domain: string)
      modifies this
      ensures effects == old(effects) + AddrEvents(ips, domain)
    {
      for i := 0 to |ips|
        invariant effects == old(effects) + AddrEvents(ips[..i], domain)
      {
        effects := effects + [NewAddr(AddrRequest(ips[i], domain, DNS, "DNS"))];
        assert ips[..i + 1][..i] == ips[..i];
      }
      assert ips[..|ips|] == ips;
    }

    /**
     * The second loop of findNamesAndAddresses: a new-name event for each
     * subdomain match in scope whose scope domain is not empty.
     */
    method PublishNames(env: Env, names: seq<string>)
      modifies this
      ensures effects == old(effects) + NameEvents(env.cfg, names)
    {
      for j := 0 to |names|
        invariant effects == old(effects) + NameEvents(env.cfg, names[..j])
      {
        var name := names[j];
        assert names[..j + 1][..j] == names[..j];
        if !env.cfg.inScope(name) {
          continue;
        }
        var nameDomain := ToLower(env.cfg.whichDomain(name));
        if nameDomain == "" {
          continue;
        }
        effects := effects + [NewName(NameRequest(name, nameDomain, DNS, "DNS"))];
      }
      assert names[..|names|] == names;
    }

    /**
     * processDNSRequest: a heartbeat, then the records normalised in place
     * up to and including the first CNAME, which is handled alone; without
     * a CNAME every record is handled in order, each after a heartbeat.
     */
    method ProcessDNSRequest(env: Env, q: Query, records: array<Record>)
      modifies this, records
      ensures effects == old(effects) + ProcessEffects(env, q, old(records[..]))
      ensures records[..] == NormalizePrefix(old(records[..]))
    {
      ghost var rs := records[..];
      effects := effects + [Heartbeat];
      var found := NormalizeUntilCNAME(records);
      if found.Some? {
        // insertCNAME on the first CNAME, then nothing more
        InsertCNAME(env, q, records, found.value);
        DispatchedCNAME(env, q, rs);
        ConcatAssoc(old(effects), [Heartbeat], Dispatched(env, q, rs));
        return;
      }
      DispatchedNoCNAME(env, q, rs);
      HandleRecords(env, q, records);
      ConcatAssoc(old(effects), [Heartbeat], Dispatched(env, q, rs));
    }

    /**
     * The first loop of processDNSRequest: normalise each record in place,
     * stopping after the first CNAME. Returns that CNAME's position, if any.
     */
    static method NormalizeUntilCNAME(records: array<Record>) returns (found: Option<nat>)
      modifies records
      ensures found == FirstCNAME(old(records[..]))
      ensures records[..] == NormalizePrefix(old(records[..]))
    {
      ghost var rs := records[..];
      found := None;
      var i := 0;
      while i < records.Length
        invariant 0 <= i <= records.Length
        invariant forall j :: 0 <= j < i ==> TypeCode(rs[j].rtype) != TypeCNAME
        invariant forall k :: 0 <= k < records.Length ==>
          records[k] == if k < i then NormalizeRecord(rs[k]) else rs[k]
      {
        var r := records[i];
        records[i] := records[i].(name := Normalize(r.name));
        records[i] := records[i].(data := Normalize(r.data));
        if TypeCode(r.rtype) == TypeCNAME {
          found := Some(i);
          break;
        }
        i := i + 1;
      }
      ScanStopped(rs, records[..], i);
    }

    /** The second loop of processDNSRequest: for each record, a heartbeat, then its handler. */
    method HandleRecords(env: Env, q: Query, records: array<Record>)
      modifies this
      ensures effects == old(effects) + HandleAll(env, q, records[..])
    {
      for i := 0 to records.Length
        invariant effects == old(effects) + HandleAll(env, q, records[..i])
      {
        ghost var done := HandleAll(env, q, records[..i]);
        effects := effects + [Heartbeat];
        HandleRecordAt(env, q, records, i);
        HandleAllSnoc(env, q, records[..], i);
        assert records[..][..i] == records[..i] && records[..][..i + 1] == records[..i + 1];
        assert effects == old(effects) + (done + [Heartbeat] + HandleRecord(env, q, records[i])) by {
          ConcatAssoc(old(effects), done + [Heartbeat], HandleRecord(env, q, records[i]));
          ConcatAssoc(old(effects), done, [Heartbeat]);
        }
      }
      assert records[..records.Length] == records[..];
    }

    /** The type switch in the second loop of processDNSRequest. */
    method HandleRecordAt(env: Env, q: Query, records: array<Record>, i: int)
      requires 0 <= i < records.Length
      modifies this
      ensures effects == old(effects) + HandleRecord(env, q, records[i])
    {
      var t := TypeCode(records[i].rtype);
      if t == TypeA {
        InsertA(env, q, records, i);
      } else if t == TypeAAAA {
        InsertAAAA(env, q, records, i);
      } else if t == TypePTR {
        InsertPTR(env, q, records, i);
      } else if t == TypeSRV {
        InsertSRV(env, q, records, i);
      } else if t == TypeNS {
        InsertNS(env, q, records, i);
      } else if t == TypeMX {
        InsertMX(env, q, records, i);
      } else if t == TypeTXT {
        InsertTXT(env, q, records, i);
      } else if t == TypeSPF {
        InsertSPF(env, q, records, i);
      }
    }

    /**
     * OnDNSRequest: wait for a slot with the backoff schedule, then process
     * the request (run to completion here; the source runs it on its own
     * goroutine). Without a slot nothing happens.
     */
    method OnDNSRequest(env: Env, q: Query, records: array<Record>, acquired: seq<bool>)
      returns (sleeps: seq<nat>)
      modifies this, records
      ensures |sleeps| <= |acquired| && forall k :: 0 <= k < |sleeps| ==> !acquired[k]
      ensures (true in acquired) ==> acquired[|sleeps|]
      ensures (true !in acquired) ==> |sleeps| == |acquired|
      ensures forall k :: 0 <= k < |sleeps| ==> sleeps[k] == BackoffDelay(k)
      ensures (true in acquired) ==> effects == old(effects) + ProcessEffects(env, q, old(records[..]))
                                     && records[..] == NormalizePrefix(old(records[..]))
      ensures (true !in acquired) ==> effects == old(effects) && records[..] == old(records[..])
    {
      var admitted;
      sleeps, admitted := AcquireSlot(acquired);
      if admitted {
        ProcessDNSRequest(env, q, records);
      }
    }

    /** OnASNRequest: the infrastructure fact to every sink, then a heartbeat. */
    method OnASNRequest(env: Env, a: ASNRequest)
      modifies this
      ensures effects == old(effects) + ASNEffects(env, a)
    {
      if a.address == "" || a.prefix == "" || a.description == "" {
        return;
      }
      WriteAll(env, Infrastructure(a.asn, a.description, a.address, a.prefix, a.source, a.tag, env.cfg.uuid));
      effects := effects + [Heartbeat];
    }
  }
}
