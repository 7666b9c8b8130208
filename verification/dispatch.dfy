/**
 * processDNSRequest as a specification: the records are normalised, the
 * first CNAME (if any) is handled alone, and otherwise every record is
 * handled in order by the handler its type selects.
 */
module Dispatch {
  import opened Text
  import opened Model
  import opened Handlers

  /** A record with its name and data normalised; its type is kept. */
  function NormalizeRecord(r: Record): (n: Record)
    ensures n.rtype == r.rtype
    ensures Trimmed(n.name, IsDot) && Trimmed(n.data, IsDot)
  {
    Record(Normalize(r.name), r.rtype, Normalize(r.data))
  }

  /**
   * A normalised record's name and data are lower-case, and normalising it
   * again changes nothing.
   */
  lemma NormalizeRecordIdempotent(r: Record)
    ensures IsLower(NormalizeRecord(r).name) && IsLower(NormalizeRecord(r).data)
    ensures NormalizeRecord(NormalizeRecord(r)) == NormalizeRecord(r)
  {
    NormalizeLower(r.name);
    NormalizeLower(r.data);
    NormalizeIdempotent(r.name);
    NormalizeIdempotent(r.data);
  }

  function NormalizeAll(rs: seq<Record>): seq<Record>
  {
    seq(|rs|, k requires 0 <= k < |rs| => NormalizeRecord(rs[k]))
  }

  /** The position of the first CNAME record, if there is one. */
  function FirstCNAME(rs: seq<Record>): (i: Option<nat>)
    ensures i.Some? ==> i.value < |rs| && TypeCode(rs[i.value].rtype) == TypeCNAME
                        && forall j :: 0 <= j < i.value ==> TypeCode(rs[j].rtype) != TypeCNAME
    ensures i.None? ==> forall j :: 0 <= j < |rs| ==> TypeCode(rs[j].rtype) != TypeCNAME
  {
    if rs == [] then None
    else if TypeCode(rs[0].rtype) == TypeCNAME then Some(0)
    else
      match FirstCNAME(rs[1..])
      case None => None
      case Some(k) => Some(k + 1)
  }

  /** The record types the second loop of processDNSRequest has a handler for. */
  predicate Supported(t: RRType)
  {
    t == TypeA || t == TypeAAAA || t == TypePTR || t == TypeSRV
    || t == TypeNS || t == TypeMX || t == TypeTXT || t == TypeSPF
  }

  /** The type switch of processDNSRequest; a type without a case does nothing. */
  function HandleRecord(env: Env, q: Query, r: Record): (effs: seq<Effect>)
    ensures !Supported(TypeCode(r.rtype)) ==> effs == []
  {
    if TypeCode(r.rtype) == TypeA then AddressEffects(env, q, r, A)
    else if TypeCode(r.rtype) == TypeAAAA then AddressEffects(env, q, r, AAAA)
    else if TypeCode(r.rtype) == TypePTR then PTREffects(env, q, r)
    else if TypeCode(r.rtype) == TypeSRV then SRVEffects(env, q, r)
    else if TypeCode(r.rtype) == TypeNS then NSEffects(env, q, r)
    else if TypeCode(r.rtype) == TypeMX then MXEffects(env, q, r)
    else if TypeCode(r.rtype) == TypeTXT then TextEffects(env, q, r)
    else if TypeCode(r.rtype) == TypeSPF then TextEffects(env, q, r)
    else []
  }

  /** The second loop of processDNSRequest: a heartbeat, then the record's handler, for each record in turn. */
  function HandleAll(env: Env, q: Query, rs: seq<Record>): seq<Effect>
  {
    if rs == [] then []
    else HandleAll(env, q, rs[..|rs| - 1]) + [Heartbeat] + HandleRecord(env, q, rs[|rs| - 1])
  }

  /** The CNAME-priority rule: the first CNAME alone, or else every record. */
  function Dispatched(env: Env, q: Query, rs: seq<Record>): seq<Effect>
  {
    match FirstCNAME(rs)
    case Some(i) => CNAMEEffects(env, q, NormalizeRecord(rs[i]))
    case None => HandleAll(env, q, NormalizeAll(rs))
  }

  /** Everything processDNSRequest does for a query whose records are rs (before normalisation). */
  function ProcessEffects(env: Env, q: Query, rs: seq<Record>): (effs: seq<Effect>)
    ensures effs != [] && effs[0] == Heartbeat
  {
    [Heartbeat] + Dispatched(env, q, rs)
  }

  /** How many leading records processDNSRequest normalises: up to the first CNAME, or all. */
  function NormalizedCount(rs: seq<Record>): (n: nat)
    ensures n <= |rs|
    ensures n < |rs| ==> 0 < n && TypeCode(rs[n - 1].rtype) == TypeCNAME
  {
    match FirstCNAME(rs)
    case Some(i) => i + 1
    case None => |rs|
  }

  /** With a CNAME present, the request's effect is insertCNAME on the first one, normalised. */
  lemma DispatchedCNAME(env: Env, q: Query, rs: seq<Record>)
    requires FirstCNAME(rs).Some?
    ensures FirstCNAME(rs).value < |rs|
    ensures Dispatched(env, q, rs) == CNAMEEffects(env, q, NormalizePrefix(rs)[FirstCNAME(rs).value])
  {
  }

  /** Without a CNAME, the request's effect is the second loop over the normalised records. */
  lemma DispatchedNoCNAME(env: Env, q: Query, rs: seq<Record>)
    requires FirstCNAME(rs).None?
    ensures NormalizePrefix(rs) == NormalizeAll(rs)
    ensures Dispatched(env, q, rs) == HandleAll(env, q, NormalizePrefix(rs))
  {
  }

  /**
   * The records as processDNSRequest leaves them: normalised up to and
   * including the first CNAME, untouched after it.
   */
  function NormalizePrefix(rs: seq<Record>): (ns: seq<Record>)
    ensures |ns| == |rs|
  {
    seq(|rs|, k requires 0 <= k < |rs| => if k < NormalizedCount(rs) then NormalizeRecord(rs[k]) else rs[k])
  }

  /**
   * A scan that normalised the records in order and stopped at position i,
   * on a CNAME (normalising it too) or at the end, has found the first
   * CNAME or its absence and left the records as NormalizePrefix says.
   */
  lemma ScanStopped(rs: seq<Record>, cur: seq<Record>, i: nat)
    requires i <= |rs| == |cur| && forall j :: 0 <= j < i ==> TypeCode(rs[j].rtype) != TypeCNAME
    requires i < |rs| ==> TypeCode(rs[i].rtype) == TypeCNAME
    requires forall k :: 0 <= k < |rs| ==> cur[k] == if k < i || k == i < |rs| then NormalizeRecord(rs[k]) else rs[k]
    ensures FirstCNAME(rs) == if i < |rs| then Some(i) else None
    ensures cur == NormalizePrefix(rs)
  {
  }

  /**
   * CNAME priority: when any record is a CNAME, the only handler that runs
   * is insertCNAME on the first one; nothing of another kind is written, no
   * address is announced, and the records after it are not normalised.
   */
  lemma CNAMEPriority(env: Env, q: Query, rs: seq<Record>, j: nat)
    requires j < |rs| && TypeCode(rs[j].rtype) == TypeCNAME
    ensures FirstCNAME(rs).Some? && FirstCNAME(rs).value <= j
    ensures NormalizedCount(rs) == FirstCNAME(rs).value + 1
    ensures forall k :: 0 <= k < |rs| ==>
      NormalizePrefix(rs)[k] == if k <= FirstCNAME(rs).value then NormalizeRecord(rs[k]) else rs[k]
    ensures ProcessEffects(env, q, rs) == [Heartbeat] + CNAMEEffects(env, q, NormalizeRecord(rs[FirstCNAME(rs).value]))
    ensures forall e :: e in ProcessEffects(env, q, rs) ==>
      !e.NewAddr? && (e.Write? ==> e.fact.Link? && e.fact.kind == CNAME && e.fact.name == q.name)
  {
    var i := FirstCNAME(rs).value;
    var effs := CNAMEEffects(env, q, NormalizeRecord(rs[i]));
    assert ProcessEffects(env, q, rs) == [Heartbeat] + effs;
    CNAMEOutcome(env, q, NormalizeRecord(rs[i]));
    assert forall e :: e in [Heartbeat] + effs ==> e == Heartbeat || e in effs;
  }

  /** No handler announces a name without a registrable or scope domain. */
  lemma HandleRecordNamesHaveDomains(env: Env, q: Query, r: Record)
    ensures NamesHaveDomains(HandleRecord(env, q, r))
  {
    if TypeCode(r.rtype) == TypeA {
      assert HandleRecord(env, q, r) == AddressEffects(env, q, r, A);
      AddressAnnouncesNoName(env, q, r, A);
    } else if TypeCode(r.rtype) == TypeAAAA {
      assert HandleRecord(env, q, r) == AddressEffects(env, q, r, AAAA);
      AddressAnnouncesNoName(env, q, r, AAAA);
    } else if TypeCode(r.rtype) == TypePTR {
      assert HandleRecord(env, q, r) == PTREffects(env, q, r);
      PTROutcome(env, q, r);
    } else if TypeCode(r.rtype) == TypeSRV {
      assert HandleRecord(env, q, r) == SRVEffects(env, q, r);
      SRVOutcome(env, q, r);
    } else if TypeCode(r.rtype) == TypeNS {
      assert HandleRecord(env, q, r) == NSEffects(env, q, r);
      NSOutcome(env, q, r);
    } else if TypeCode(r.rtype) == TypeMX {
      assert HandleRecord(env, q, r) == MXEffects(env, q, r);
      MXOutcome(env, q, r);
    } else if TypeCode(r.rtype) == TypeTXT || TypeCode(r.rtype) == TypeSPF {
      assert HandleRecord(env, q, r) == TextEffects(env, q, r);
      TextOutcome(env, q, r);
    }
  }

  lemma {:induction false} HandleAllNamesHaveDomains(env: Env, q: Query, rs: seq<Record>)
    ensures NamesHaveDomains(HandleAll(env, q, rs))
  {
    if rs != [] {
      HandleAllNamesHaveDomains(env, q, rs[..|rs| - 1]);
      HandleRecordNamesHaveDomains(env, q, rs[|rs| - 1]);
    }
  }

  /**
   * Every new-name event processDNSRequest publishes carries a non-empty
   * domain, whatever the records, the scope and the collaborators say.
   */
  lemma ProcessNamesHaveDomains(env: Env, q: Query, rs: seq<Record>)
    ensures NamesHaveDomains(ProcessEffects(env, q, rs))
  {
    match FirstCNAME(rs)
    case Some(i) =>
      CNAMEOutcome(env, q, NormalizeRecord(rs[i]));
    case None =>
      HandleAllNamesHaveDomains(env, q, NormalizeAll(rs));
  }

  /** Handling one more record appends its heartbeat and its handler's effects. */
  lemma HandleAllSnoc(env: Env, q: Query, rs: seq<Record>, i: nat)
    requires i < |rs|
    ensures HandleAll(env, q, rs[..i + 1]) == HandleAll(env, q, rs[..i]) + [Heartbeat] + HandleRecord(env, q, rs[i])
  {
    assert rs[..i + 1][..i] == rs[..i];
  }

  /** Records are handled in input order: handling a + b is handling a, then b. */
  lemma {:induction false} HandleAllAppend(env: Env, q: Query, a: seq<Record>, b: seq<Record>)
    ensures HandleAll(env, q, a + b) == HandleAll(env, q, a) + HandleAll(env, q, b)
  {
    if b == [] {
      assert a + b == a;
    } else {
      var b', last := b[..|b| - 1], b[|b| - 1];
      var h := HandleRecord(env, q, last);
      assert (a + b)[..|a + b| - 1] == a + b' && (a + b)[|a + b| - 1] == last;
      assert HandleAll(env, q, a + b) == HandleAll(env, q, a + b') + [Heartbeat] + h;
      assert HandleAll(env, q, b) == HandleAll(env, q, b') + [Heartbeat] + h;
      HandleAllAppend(env, q, a, b');
      ConcatAssoc(HandleAll(env, q, a), HandleAll(env, q, b'), [Heartbeat]);
      ConcatAssoc(HandleAll(env, q, a), HandleAll(env, q, b') + [Heartbeat], h);
    }
  }

  /** Records whose types have no handler produce only their heartbeats. */
  lemma {:induction false} HandleAllUnsupported(env: Env, q: Query, rs: seq<Record>)
    requires forall k :: 0 <= k < |rs| ==> !Supported(TypeCode(rs[k].rtype))
    ensures HandleAll(env, q, rs) == seq(|rs|, k => Heartbeat)
  {
    if rs != [] {
      HandleAllUnsupported(env, q, rs[..|rs| - 1]);
    }
  }

  /**
   * A query with no CNAME whose records all have unsupported types yields a
   * heartbeat at entry and one per record, and nothing else.
   */
  lemma ProcessUnsupported(env: Env, q: Query, rs: seq<Record>)
    requires forall k :: 0 <= k < |rs| ==> !Supported(TypeCode(rs[k].rtype)) && TypeCode(rs[k].rtype) != TypeCNAME
    ensures ProcessEffects(env, q, rs) == seq(|rs| + 1, k => Heartbeat)
  {
    var ns := NormalizeAll(rs);
    assert forall k :: 0 <= k < |ns| ==> ns[k].rtype == rs[k].rtype;
    DispatchedNoCNAME(env, q, rs);
    HandleAllUnsupported(env, q, ns);
    assert [Heartbeat] + seq(|rs|, k => Heartbeat) == seq(|rs| + 1, k => Heartbeat);
  }

  /** Sink refusals change nothing but the log entries of one handler. */
  lemma HandleRecordIgnoresRefusals(env: Env, q: Query, r: Record, accepts: (Sink, Fact) -> bool)
    ensures Observed(HandleRecord(env, q, r)) == Observed(HandleRecord(env.(accepts := accepts), q, r))
  {
    var env' := env.(accepts := accepts);
    if TypeCode(r.rtype) == TypeA {
      assert HandleRecord(env, q, r) == AddressEffects(env, q, r, A);
      assert HandleRecord(env', q, r) == AddressEffects(env', q, r, A);
      AddressOutcome(env, q, r, A);
      AddressOutcome(env', q, r, A);
    } else if TypeCode(r.rtype) == TypeAAAA {
      assert HandleRecord(env, q, r) == AddressEffects(env, q, r, AAAA);
      assert HandleRecord(env', q, r) == AddressEffects(env', q, r, AAAA);
      AddressOutcome(env, q, r, AAAA);
      AddressOutcome(env', q, r, AAAA);
    } else if TypeCode(r.rtype) == TypePTR {
      assert HandleRecord(env, q, r) == PTREffects(env, q, r);
      assert HandleRecord(env', q, r) == PTREffects(env', q, r);
      PTROutcome(env, q, r);
      PTROutcome(env', q, r);
    } else if TypeCode(r.rtype) == TypeSRV {
      assert HandleRecord(env, q, r) == SRVEffects(env, q, r);
      assert HandleRecord(env', q, r) == SRVEffects(env', q, r);
      SRVOutcome(env, q, r);
      SRVOutcome(env', q, r);
    } else if TypeCode(r.rtype) == TypeNS {
      assert HandleRecord(env, q, r) == NSEffects(env, q, r);
      assert HandleRecord(env', q, r) == NSEffects(env', q, r);
      NSOutcome(env, q, r);
      NSOutcome(env', q, r);
    } else if TypeCode(r.rtype) == TypeMX {
      assert HandleRecord(env, q, r) == MXEffects(env, q, r);
      assert HandleRecord(env', q, r) == MXEffects(env', q, r);
      MXOutcome(env, q, r);
      MXOutcome(env', q, r);
    } else if TypeCode(r.rtype) == TypeTXT || TypeCode(r.rtype) == TypeSPF {
      assert HandleRecord(env, q, r) == TextEffects(env, q, r);
      assert HandleRecord(env', q, r) == TextEffects(env', q, r);
      assert TextEffects(env, q, r) == TextEffects(env', q, r);
    }
  }

  /** The same for the whole second loop. */
  lemma {:induction false} HandleAllIgnoresRefusals(env: Env, q: Query, rs: seq<Record>, accepts: (Sink, Fact) -> bool)
    ensures Observed(HandleAll(env, q, rs)) == Observed(HandleAll(env.(accepts := accepts), q, rs))
  {
    if rs != [] {
      var env' := env.(accepts := accepts);
      var init, r := rs[..|rs| - 1], rs[|rs| - 1];
      HandleAllIgnoresRefusals(env, q, init, accepts);
      HandleRecordIgnoresRefusals(env, q, r, accepts);
      FilterAppend(HandleAll(env, q, init) + [Heartbeat], HandleRecord(env, q, r), NotLog);
      FilterAppend(HandleAll(env, q, init), [Heartbeat], NotLog);
      FilterAppend(HandleAll(env', q, init) + [Heartbeat], HandleRecord(env', q, r), NotLog);
      FilterAppend(HandleAll(env', q, init), [Heartbeat], NotLog);
    }
  }

  /** The same for the CNAME-priority rule. */
  lemma DispatchedIgnoresRefusals(env: Env, q: Query, rs: seq<Record>, accepts: (Sink, Fact) -> bool)
    ensures Observed(Dispatched(env, q, rs)) == Observed(Dispatched(env.(accepts := accepts), q, rs))
  {
    var env' := env.(accepts := accepts);
    match FirstCNAME(rs)
    case Some(i) =>
      CNAMEOutcome(env, q, NormalizeRecord(rs[i]));
      CNAMEOutcome(env', q, NormalizeRecord(rs[i]));
    case None =>
      HandleAllIgnoresRefusals(env, q, NormalizeAll(rs), accepts);
  }

  /**
   * Sink failures never suppress anything: whichever sinks refuse their
   * inserts, processDNSRequest attempts the same writes and publishes the
   * same events and heartbeats, in the same order; only log entries differ.
   */
  lemma ProcessIgnoresRefusals(env: Env, q: Query, rs: seq<Record>, accepts: (Sink, Fact) -> bool)
    ensures Observed(ProcessEffects(env, q, rs)) == Observed(ProcessEffects(env.(accepts := accepts), q, rs))
  {
    DispatchedIgnoresRefusals(env, q, rs, accepts);
    FilterAppend([Heartbeat], Dispatched(env, q, rs), NotLog);
    FilterAppend([Heartbeat], Dispatched(env.(accepts := accepts), q, rs), NotLog);
  }
}
