/**
 * What the data manager consumes and produces: resolved DNS records, the
 * request they belong to, the facts written to the graph databases (the
 * sinks), the events published on the bus, and the collaborators it
 * consults. Everything the service does is recorded as a sequence of
 * Effects; FanOut is the write of one fact to every sink.
 */
module Model {

  datatype Option<T> = None | Some(value: T)

  /** A DNS resource record type, a 16-bit code. */
  type RRType = x: int | 0 <= x < 0x1_0000

  const TypeA: RRType := 1
  const TypeNS: RRType := 2
  const TypeCNAME: RRType := 5
  const TypePTR: RRType := 12
  const TypeMX: RRType := 15
  const TypeTXT: RRType := 16
  const TypeAAAA: RRType := 28
  const TypeSRV: RRType := 33
  const TypeSPF: RRType := 99

  /**
   * The conversion uint16(t) the dispatcher applies to a record's type
   * before comparing it: the low 16 bits, so codes wrap modulo 65536.
   */
  function TypeCode(t: int): (c: RRType)
    ensures 0 <= t < 0x1_0000 ==> c == t
  {
    t % 0x1_0000
  }

  /**
   * Types that differ by a multiple of 65536 are dispatched alike: 65541
   * and -65531 are both handled as CNAME (5).
   */
  lemma TypeCodeWraps(t: int, k: int)
    ensures TypeCode(t + k * 0x1_0000) == TypeCode(t)
    ensures TypeCode(0x1_0000 + 5) == TypeCode(-0x1_0000 + 5) == TypeCNAME
  {
  }

  /** One resource record of a resolved query; rtype is the type as received, before conversion. */
  datatype Record = Record(name: string, rtype: int, data: string)

  /** How a name was discovered; DNS is the tag this service gives to what it derives itself. */
  datatype Tag = DNS | Other(id: string)

  /** A resolved query without its records (the records are kept apart, as an array updated in place). */
  datatype Query = Query(name: string, domain: string, tag: Tag, source: string)

  /** An autonomous-system fact to be stored. */
  datatype ASNRequest = ASNRequest(asn: int, prefix: string, description: string,
                                   address: string, source: string, tag: Tag)

  /** A storage sink (graph database), by name. */
  type Sink = string

  datatype LinkKind = CNAME | A | AAAA | PTR | NS | MX

  /** What is inserted into a sink; uuid is the run identifier. */
  datatype Fact =
    | Link(kind: LinkKind, name: string, target: string, source: string, tag: Tag, uuid: string)
    | Service(name: string, service: string, target: string, source: string, tag: Tag, uuid: string)
    | Infrastructure(asn: int, description: string, address: string, prefix: string,
                     source: string, tag: Tag, uuid: string)

  /** Payload of a new-name event: a name to resolve and its registrable domain. */
  datatype NameRequest = NameRequest(name: string, domain: string, tag: Tag, source: string)

  /** Payload of a new-address event. */
  datatype AddrRequest = AddrRequest(address: string, domain: string, tag: Tag, source: string)

  /**
   * One observable step: an insert attempted on a sink, a log publication
   * reporting that the sink refused it, a new-name or new-address event,
   * or a set-active heartbeat.
   */
  datatype Effect =
    | Write(sink: Sink, fact: Fact)
    | Log(sink: Sink)
    | NewName(name: NameRequest)
    | NewAddr(addr: AddrRequest)
    | Heartbeat

  /** The scope authority: WhichDomain, IsDomainInScope and the run identifier. */
  datatype Config = Config(whichDomain: string -> string, inScope: string -> bool, uuid: string)

  /**
   * The service's collaborators. accepts tells whether a sink's insert of a
   * fact succeeds; etldPlusOne is the public-suffix registrable domain
   * (None for an error); ipv4Matches and subdomainMatches are the matches
   * of the IPv4 and subdomain patterns in a text.
   */
  datatype Env = Env(
    cfg: Config,
    sinks: seq<Sink>,
    accepts: (Sink, Fact) -> bool,
    etldPlusOne: string -> Option<string>,
    removeLastDot: string -> string,
    ipv4Matches: string -> seq<string>,
    subdomainMatches: string -> seq<string>)

  /** How many positions of sinks refuse fact. */
  function Rejections(sinks: seq<Sink>, accepts: (Sink, Fact) -> bool, fact: Fact): nat
  {
    if sinks == [] then 0
    else Rejections(sinks[..|sinks| - 1], accepts, fact) + (if accepts(sinks[|sinks| - 1], fact) then 0 else 1)
  }

  /** One insert: the write, followed by a log publication if the sink refused it. */
  function Attempt(g: Sink, accepts: (Sink, Fact) -> bool, fact: Fact): seq<Effect>
  {
    [Write(g, fact)] + if accepts(g, fact) then [] else [Log(g)]
  }

  /** The loop over all sinks: every sink is attempted, in order, whatever the others did. */
  function FanOut(sinks: seq<Sink>, accepts: (Sink, Fact) -> bool, fact: Fact): (effs: seq<Effect>)
    ensures |effs| == |sinks| + Rejections(sinks, accepts, fact)
  {
    if sinks == [] then []
    else FanOut(sinks[..|sinks| - 1], accepts, fact) + Attempt(sinks[|sinks| - 1], accepts, fact)
  }

  /** FanOut only writes fact to the given sinks and logs the refusals of those that refuse it. */
  lemma {:induction false} FanOutMembers(sinks: seq<Sink>, accepts: (Sink, Fact) -> bool, fact: Fact)
    ensures forall e :: e in FanOut(sinks, accepts, fact) ==>
      (e.Write? && e.sink in sinks && e.fact == fact) || (e.Log? && e.sink in sinks && !accepts(e.sink, fact))
  {
    if sinks != [] {
      FanOutMembers(sinks[..|sinks| - 1], accepts, fact);
    }
  }

  /** FanOut over one more sink is FanOut so far followed by that sink's attempt. */
  lemma FanOutSnoc(sinks: seq<Sink>, i: nat, accepts: (Sink, Fact) -> bool, fact: Fact)
    requires i < |sinks|
    ensures FanOut(sinks[..i + 1], accepts, fact) == FanOut(sinks[..i], accepts, fact) + Attempt(sinks[i], accepts, fact)
  {
    assert sinks[..i + 1][..i] == sinks[..i];
  }

  /** The write of fact to each sink, in order: what FanOut does when no sink refuses. */
  function AllWrites(sinks: seq<Sink>, fact: Fact): (effs: seq<Effect>)
  {
    seq(|sinks|, k requires 0 <= k < |sinks| => Write(sinks[k], fact))
  }

  /** The effects that satisfy keep, in their order. */
  function Filter(effs: seq<Effect>, keep: Effect -> bool): (r: seq<Effect>)
    ensures |r| <= |effs|
  {
    if effs == [] then []
    else Filter(effs[..|effs| - 1], keep) + if keep(effs[|effs| - 1]) then [effs[|effs| - 1]] else []
  }

  /** Filter keeps exactly the effects that satisfy keep. */
  lemma {:induction false} FilterMembers(effs: seq<Effect>, keep: Effect -> bool)
    ensures forall e :: e in Filter(effs, keep) <==> e in effs && keep(e)
  {
    if effs != [] {
      var init := effs[..|effs| - 1];
      FilterMembers(init, keep);
      assert effs == init + [effs[|effs| - 1]];
    }
  }

  lemma ConcatAssoc(a: seq<Effect>, b: seq<Effect>, c: seq<Effect>)
    ensures a + b + c == a + (b + c)
  {
  }

  predicate IsLog(e: Effect) { e.Log? }
  predicate NotLog(e: Effect) { !e.Log? }

  /** What the rest of the system sees of effs apart from failure diagnostics. */
  function Observed(effs: seq<Effect>): seq<Effect>
  {
    Filter(effs, NotLog)
  }

  /** No new-name event carries an empty domain. */
  predicate NamesHaveDomains(effs: seq<Effect>)
  {
    forall e :: e in effs && e.NewName? ==> e.name.domain != ""
  }

  lemma {:induction false} FilterAppend(a: seq<Effect>, b: seq<Effect>, keep: Effect -> bool)
    ensures Filter(a + b, keep) == Filter(a, keep) + Filter(b, keep)
  {
    if b != [] {
      var b' := b[..|b| - 1];
      assert (a + b)[..|a + b| - 1] == a + b';
      FilterAppend(a, b', keep);
    } else {
      assert a + b == a;
    }
  }

  lemma {:induction false} FilterKeepsAll(effs: seq<Effect>, keep: Effect -> bool)
    requires forall e :: e in effs ==> keep(e)
    ensures Filter(effs, keep) == effs
  {
    if effs != [] {
      var init := effs[..|effs| - 1];
      assert forall e :: e in init ==> e in effs;
      FilterKeepsAll(init, keep);
      assert effs[|effs| - 1] in effs;
      assert init + [effs[|effs| - 1]] == effs;
    }
  }

  lemma {:induction false} FilterDropsAll(effs: seq<Effect>, keep: Effect -> bool)
    requires forall e :: e in effs ==> !keep(e)
    ensures Filter(effs, keep) == []
  {
    if effs != [] {
      FilterDropsAll(effs[..|effs| - 1], keep);
    }
  }

  /** With the log entries removed, FanOut is the write of fact to every sink, in order. */
  lemma {:induction false} FanOutObserved(sinks: seq<Sink>, accepts: (Sink, Fact) -> bool, fact: Fact)
    ensures Observed(FanOut(sinks, accepts, fact)) == AllWrites(sinks, fact)
  {
    if sinks != [] {
      var init, g := sinks[..|sinks| - 1], sinks[|sinks| - 1];
      FanOutObserved(init, accepts, fact);
      var at := Attempt(g, accepts, fact);
      FilterAppend(FanOut(init, accepts, fact), at, NotLog);
      assert Filter(at, NotLog) == [Write(g, fact)] by {
        FilterAppend([Write(g, fact)], at[1..], NotLog);
        FilterDropsAll(at[1..], NotLog);
        assert at == [Write(g, fact)] + at[1..];
      }
      AllWritesSnoc(sinks, fact);
    }
  }

  lemma AllWritesSnoc(sinks: seq<Sink>, fact: Fact)
    requires sinks != []
    ensures AllWrites(sinks, fact) == AllWrites(sinks[..|sinks| - 1], fact) + [Write(sinks[|sinks| - 1], fact)]
  {
    var l, r := AllWrites(sinks, fact), AllWrites(sinks[..|sinks| - 1], fact) + [Write(sinks[|sinks| - 1], fact)];
    assert |l| == |r|;
    forall k | 0 <= k < |l| ensures l[k] == r[k] {
    }
  }

  /** FanOut publishes exactly one log entry per refusing sink. */
  lemma {:induction false} FanOutLogs(sinks: seq<Sink>, accepts: (Sink, Fact) -> bool, fact: Fact)
    ensures |Filter(FanOut(sinks, accepts, fact), IsLog)| == Rejections(sinks, accepts, fact)
  {
    if sinks != [] {
      var init, g := sinks[..|sinks| - 1], sinks[|sinks| - 1];
      FanOutLogs(init, accepts, fact);
      var at := Attempt(g, accepts, fact);
      FilterAppend(FanOut(init, accepts, fact), at, IsLog);
      assert |Filter(at, IsLog)| == if accepts(g, fact) then 0 else 1 by {
        FilterAppend([Write(g, fact)], at[1..], IsLog);
        FilterKeepsAll(at[1..], IsLog);
        assert at == [Write(g, fact)] + at[1..];
      }
    }
  }

  /**
   * The common shape of a record handler that passed its checks: the fact
   * to every sink, then the follow-up events, then a heartbeat.
   */
  function Emit(env: Env, fact: Fact, events: seq<Effect>): seq<Effect>
  {
    FanOut(env.sinks, env.accepts, fact) + events + [Heartbeat]
  }

  /** Besides the events, Emit holds only writes of fact, log entries and a heartbeat. */
  lemma EmitMembers(env: Env, fact: Fact, events: seq<Effect>)
    ensures forall e :: e in Emit(env, fact, events) ==>
      e in events || e == Heartbeat || (e.Write? && e.fact == fact) || e.Log?
  {
    FanOutMembers(env.sinks, env.accepts, fact);
  }

  /**
   * Refusing sinks never suppress the follow-up events: apart from the log
   * entries, one per refusing sink, Emit is every write, the events and
   * the heartbeat.
   */
  lemma EmitShape(env: Env, fact: Fact, events: seq<Effect>)
    requires forall e :: e in events ==> e.NewName? || e.NewAddr?
    ensures Observed(Emit(env, fact, events)) == AllWrites(env.sinks, fact) + events + [Heartbeat]
    ensures |Filter(Emit(env, fact, events), IsLog)| == Rejections(env.sinks, env.accepts, fact)
  {
    var f := FanOut(env.sinks, env.accepts, fact);
    FanOutObserved(env.sinks, env.accepts, fact);
    FanOutLogs(env.sinks, env.accepts, fact);
    FilterAppend(f, events, NotLog);
    FilterAppend(f + events, [Heartbeat], NotLog);
    FilterAppend(f, events, IsLog);
    FilterAppend(f + events, [Heartbeat], IsLog);
    FilterKeepsAll(events, NotLog);
    FilterKeepsAll(events + [Heartbeat], NotLog);
    FilterDropsAll(events, IsLog);
  }
}
