# Amass data manager: DNS-result dispatch and handling

A Dafny model of the core of Amass's `DataManagerService`
(`services/datamgmtsrv.go`). The service is given one resolved DNS query: a
name, a domain, a tag, a source and an array of resource records. It
decides which facts go to every graph database (the *sinks*) and which
follow-up events it publishes on the event bus:

- `new-name`: a name to resolve, with its registrable domain;
- `new-address`: an address to investigate;
- `set-active`: the liveness heartbeat;
- a log publication for each sink that refuses an insert.

The model keeps the source's structure:

- **`Text`**: the string operations the service applies.
  - `strings.ToLower`, `strings.TrimFunc`/`TrimSpace`, and the record normalisation `Trim(ToLower(x), ".")`.
  - The last field of `strings.Split(x, ",")`.
- **`Model`**: the values the service works with.
  - Records, queries, facts and events.
  - The collaborators it consults (`Env`).
  - The effect log: a `seq<Effect>` of `Write`, `Log`, `NewName`, `NewAddr` and `Heartbeat` entries, in the order the service performs them.
  - The fan-out of one fact to every sink.
- **`Handlers`**: each record handler (`insertCNAME` … `insertSPF`), the text miner `findNamesAndAddresses` and `OnASNRequest`, as functions from the input to the effects they produce. Each comes with lemmas stating its outcome: the guard cases that do nothing, the facts written and the events published.
- **`Dispatch`**: `processDNSRequest` as a specification function.
  - Normalisation up to the first CNAME.
  - The CNAME-priority rule.
  - The in-order type switch.
  - Lemmas about the whole request: CNAME priority, no new-name event without a domain, unsupported types, and independence from sink refusals.
- **`Service`**: the class `DataManagerService`.
  - Its field `effects` is the log of everything done so far.
  - Its methods follow the Go code statement by statement. There are loops over the sinks, loops over the regex matches, and a loop that rewrites `records` (an `array`) in place.
  - Each method is proved to append exactly what the matching specification function says.
  - The module also holds the admission backoff of `OnDNSRequest`.

The collaborators the source only calls are fields of `Env`:
- the public-suffix effective-TLD-plus-one (`None` for an error);
- `cfg.WhichDomain`, `cfg.IsDomainInScope` and the run UUID;
- `resolvers.RemoveLastDot`;
- the matches of the IPv4 and subdomain regular expressions;
- whether a given sink accepts a given fact.

Details of the code worth noting:

- The heartbeat of the second dispatch loop is published *before* each record's handler (`services/datamgmtsrv.go:98`), not after it. Each handler that gets past its guards publishes a trailing heartbeat of its own.
- A PTR record whose target has no scope domain gets no sink write at all: the handler returns before the fan-out (`services/datamgmtsrv.go:257-260`). It is not a case of writing the fact and only suppressing the event.
- The record array is updated in place, with two field assignments per record as in the source. The query's own name is never normalised; only the records are.
- A record's type is dispatched on its low 16 bits, `uint16(r.Type)` (`services/datamgmtsrv.go:90`, `:100`). Records carry their type as an unbounded integer and `TypeCode` performs the conversion, so out-of-range codes wrap as in Go.

## Model

| member | source | states |
|---|---|---|
| Text.LowerChar | services/datamgmtsrv.go:87-88 | the lower-case form of a character is never an upper-case letter; it is `.` exactly when the input is; non-letters are kept |
| Text.ToLowerSpec | services/datamgmtsrv.go:87-88 | `ToLower` leaves no upper-case letter; every character is kept or is an upper-case letter moved to its lower-case form |
| Text.ToLowerOfLower | services/datamgmtsrv.go:87-88 | lower-casing a string with no upper-case letter changes nothing |
| Text.TrimLeftSpec | services/datamgmtsrv.go:87-88 | TrimLeftFunc keeps a suffix and drops only characters the predicate selects |
| Text.TrimRightSpec | services/datamgmtsrv.go:87-88 | TrimRightFunc keeps a prefix and drops only characters the predicate selects |
| Text.TrimFunc | services/datamgmtsrv.go:87-88 | the trimmed string is no longer than the input and neither of its ends is a character to drop |
| Text.TrimFuncSpec | services/datamgmtsrv.go:87-88 | the trimmed string is a contiguous piece of the input, and everything outside it is a character to drop |
| Text.TrimFuncOfTrimmed | services/datamgmtsrv.go:87-88 | trimming an already trimmed string changes nothing |
| Text.TrimSpace | services/datamgmtsrv.go:193 | the address neither starts nor ends with a Unicode white-space character |
| Text.Normalize | services/datamgmtsrv.go:87-88 | a normalised name or data field has no leading or trailing dot |
| Text.NormalizeLower | services/datamgmtsrv.go:87-88 | a normalised field has no upper-case letter |
| Text.NormalizeIdempotent | services/datamgmtsrv.go:87-88 | normalising a normalised field leaves it unchanged |
| Text.LastFieldSpec | services/datamgmtsrv.go:318-319 | the NS target is a suffix of the data holding no comma, and is preceded by a comma unless it is the whole data |
| Model.TypeCode | services/datamgmtsrv.go:90 | the `uint16` conversion of a record type: a code already within 16 bits is unchanged |
| Model.TypeCodeWraps | services/datamgmtsrv.go:100 | types that differ by a multiple of 65536 are dispatched alike; 65541 and -65531 are both CNAME |
| Model.FanOut | services/datamgmtsrv.go:168-173 | the fan-out holds one write per sink plus one log entry per refusing sink |
| Model.FanOutMembers | services/datamgmtsrv.go:168-173 | the fan-out writes only the given fact to the given sinks, and logs only for sinks that refuse it |
| Model.FanOutObserved | services/datamgmtsrv.go:168-173 | with log entries removed, the fan-out is a write to every sink in order: no refusal stops the loop |
| Model.FanOutLogs | services/datamgmtsrv.go:168-173 | exactly one log entry is published per refusing sink |
| Model.EmitMembers | services/datamgmtsrv.go:168-183 | a handler past its guards produces only writes of its fact, log entries, its follow-up events and a heartbeat |
| Model.EmitShape | services/datamgmtsrv.go:168-183 | sink refusals never suppress the follow-up events: apart from one log entry per refusal, a handler's output is every write, the events, then a heartbeat |
| Handlers.RegistrableDomain | services/datamgmtsrv.go:158-166 | a registrable domain is only produced when the public-suffix lookup succeeds, and is never empty |
| Handlers.RegistrableDomainLower | services/datamgmtsrv.go:158-166 | the registrable domain is the lookup's answer lower-cased: same length, no upper-case letter, each character kept or an upper-case letter moved to lower case; a non-empty answer always yields a domain |
| Handlers.CNAMEOutcome | services/datamgmtsrv.go:153-183 | empty target or no registrable domain: nothing happens. Otherwise every sink receives the CNAME fact keyed by the query name, and the target is always re-queued with tag DNS and source "DNS" |
| Handlers.AddressOutcome | services/datamgmtsrv.go:193-212 | data that is only white space does nothing; otherwise every sink receives the A/AAAA fact and one new-address event follows, with the query's domain, tag and source |
| Handlers.AddressAnnouncesNoName | services/datamgmtsrv.go:205-210 | A and AAAA records never publish a new-name event |
| Handlers.PTROutcome | services/datamgmtsrv.go:251-276 | empty target or no scope domain: no write and no event. Otherwise every sink receives the PTR fact and one new-name event follows, with the lower-cased scope domain, tag DNS and the query's source |
| Handlers.SRVOutcome | services/datamgmtsrv.go:286-308 | empty service or target: nothing happens. Otherwise the SRV fact goes to every sink whatever the scope says; a new-name event with the query's tag follows only when the target has a scope domain |
| Handlers.NSOutcome | services/datamgmtsrv.go:318-350 | empty last field or no registrable domain: nothing happens. Otherwise every sink receives the NS fact, and the server is re-queued unless it is its own registrable domain |
| Handlers.MXOutcome | services/datamgmtsrv.go:360-391 | empty target or no registrable domain: nothing happens. Otherwise every sink receives the MX fact, and the server is re-queued unless it is its own registrable domain |
| Handlers.AddrEvents | services/datamgmtsrv.go:428-435 | the first miner loop publishes as many events as there are IPv4 matches |
| Handlers.AddrEventsSpec | services/datamgmtsrv.go:428-435 | the k-th address event carries the k-th IPv4 match, the owning domain, tag DNS and source "DNS" |
| Handlers.NameEventsSpec | services/datamgmtsrv.go:438-454 | a new-name event is published for exactly those subdomain matches that are in scope and have a scope domain, and carries that domain lower-cased |
| Handlers.MinerMembers | services/datamgmtsrv.go:427-456 | the text miner writes nothing to the sinks, logs nothing, and never announces a name without a domain |
| Handlers.MinerAddresses | services/datamgmtsrv.go:427-456 | every IPv4 match yields exactly one new-address event, in order and without condition; the miner ends with a heartbeat |
| Handlers.TextOutcome | services/datamgmtsrv.go:400-404 | a TXT or SPF record of an out-of-scope query does nothing; otherwise its data is mined |
| Handlers.ASNOutcome | services/datamgmtsrv.go:123-143 | missing address, prefix or description: no write, no log, no heartbeat. Otherwise every sink receives the infrastructure fact and one heartbeat follows, with no name or address event |
| Dispatch.NormalizeRecord | services/datamgmtsrv.go:87-88 | normalisation keeps the record type and leaves name and data without edge dots |
| Dispatch.NormalizeRecordIdempotent | services/datamgmtsrv.go:87-88 | a normalised record is lower-case and normalising it again changes nothing |
| Dispatch.FirstCNAME | services/datamgmtsrv.go:86-95 | the position found is a CNAME with no CNAME before it; with no position, the records hold no CNAME |
| Dispatch.HandleRecord | services/datamgmtsrv.go:100-117 | a record type without a case in the switch produces nothing |
| Dispatch.ProcessEffects | services/datamgmtsrv.go:83 | request processing always starts with a heartbeat |
| Dispatch.NormalizedCount | services/datamgmtsrv.go:86-95 | the first loop normalises a prefix of the records that, when it stops early, ends with a CNAME |
| Dispatch.NormalizePrefix | services/datamgmtsrv.go:86-88 | normalisation changes no record count |
| Dispatch.DispatchedCNAME | services/datamgmtsrv.go:86-95 | with a CNAME present, the request's effect is the CNAME handler on the first CNAME as the records stand after the first loop |
| Dispatch.DispatchedNoCNAME | services/datamgmtsrv.go:97-118 | without a CNAME, every record is normalised and the second loop runs over all of them |
| Dispatch.ScanStopped | services/datamgmtsrv.go:86-95 | a scan that normalised records in order and stopped on a CNAME, or at the end, found the first CNAME and left the records as the first loop does |
| Dispatch.CNAMEPriority | services/datamgmtsrv.go:86-95 | if any record is a CNAME, only the CNAME handler runs, on the lowest-index CNAME. Nothing but CNAME facts for the query name is written, no address is announced, and records after the CNAME are not normalised |
| Dispatch.HandleRecordNamesHaveDomains | services/datamgmtsrv.go:100-117 | no handler publishes a new-name event with an empty domain |
| Dispatch.HandleAllNamesHaveDomains | services/datamgmtsrv.go:97-118 | the second loop publishes no new-name event with an empty domain |
| Dispatch.ProcessNamesHaveDomains | services/datamgmtsrv.go:76-119 | whatever the records, the scope and the collaborators, no new-name event of a request has an empty domain |
| Dispatch.HandleAllAppend | services/datamgmtsrv.go:97-118 | records are handled in input order: the second loop over a + b does a, then b |
| Dispatch.HandleAllUnsupported | services/datamgmtsrv.go:97-118 | records with unsupported types produce only their heartbeats |
| Dispatch.ProcessUnsupported | services/datamgmtsrv.go:76-119 | a request whose records all have unsupported types yields one heartbeat at entry and one per record, nothing else |
| Dispatch.HandleRecordIgnoresRefusals | services/datamgmtsrv.go:100-117 | sink refusals change only the log entries of a handler |
| Dispatch.HandleAllIgnoresRefusals | services/datamgmtsrv.go:97-118 | sink refusals change only the log entries of the second loop |
| Dispatch.DispatchedIgnoresRefusals | services/datamgmtsrv.go:86-118 | sink refusals change only the log entries of either dispatch branch |
| Dispatch.ProcessIgnoresRefusals | services/datamgmtsrv.go:76-119 | whichever sinks refuse, a request makes the same writes and publishes the same events and heartbeats in the same order; only log entries differ |
| Service.BackoffDelay | services/datamgmtsrv.go:47-49 | every sleep lies between 25 and 500 ms, and is 500 from the seventh failure on |
| Service.BackoffSchedule | services/datamgmtsrv.go:47-66 | successive failed acquisitions sleep 25, 50, 75, 100, 150, 250, 500, 500, … ms |
| Service.BackoffMonotone | services/datamgmtsrv.go:61-66 | later sleeps are never shorter |
| Service.AcquireSlot | services/datamgmtsrv.go:53-71 | admission happens exactly when some attempt acquires a slot. It happens at the first such attempt, after one sleep per earlier failure following the schedule, none longer than 500 ms |
| Service.DataManagerService.WriteAll | services/datamgmtsrv.go:168-173 | the loop over the sinks appends exactly the fan-out of the fact |
| Service.DataManagerService.InsertCNAME | services/datamgmtsrv.go:146-184 | appends exactly the CNAME handler's effects |
| Service.DataManagerService.InsertA | services/datamgmtsrv.go:186-213 | appends exactly the A handler's effects |
| Service.DataManagerService.InsertAAAA | services/datamgmtsrv.go:215-242 | appends exactly the AAAA handler's effects |
| Service.DataManagerService.InsertPTR | services/datamgmtsrv.go:244-277 | appends exactly the PTR handler's effects |
| Service.DataManagerService.InsertSRV | services/datamgmtsrv.go:279-309 | appends exactly the SRV handler's effects |
| Service.DataManagerService.InsertNS | services/datamgmtsrv.go:311-351 | appends exactly the NS handler's effects |
| Service.DataManagerService.InsertMX | services/datamgmtsrv.go:353-392 | appends exactly the MX handler's effects |
| Service.DataManagerService.InsertTXT | services/datamgmtsrv.go:394-405 | appends exactly the TXT handler's effects |
| Service.DataManagerService.InsertSPF | services/datamgmtsrv.go:407-418 | appends exactly the SPF handler's effects, the same as TXT's |
| Service.DataManagerService.FindNamesAndAddresses | services/datamgmtsrv.go:420-457 | appends exactly the miner's effects: address events, then name events, then a heartbeat |
| Service.DataManagerService.PublishAddresses | services/datamgmtsrv.go:427-435 | the first miner loop appends one address event per IPv4 match |
| Service.DataManagerService.PublishNames | services/datamgmtsrv.go:437-454 | the second miner loop appends the name events of the in-scope matches |
| Service.DataManagerService.ProcessDNSRequest | services/datamgmtsrv.go:76-119 | appends exactly the request's effects and leaves the records normalised up to and including the first CNAME, untouched after it |
| Service.DataManagerService.NormalizeUntilCNAME | services/datamgmtsrv.go:86-95 | the first loop returns the position of the first CNAME, or none, and normalises the records in place up to it |
| Service.DataManagerService.HandleRecords | services/datamgmtsrv.go:97-118 | the second loop appends a heartbeat and the handler's effects for each record, in order |
| Service.DataManagerService.HandleRecordAt | services/datamgmtsrv.go:100-117 | the type switch appends exactly the selected handler's effects |
| Service.DataManagerService.OnDNSRequest | services/datamgmtsrv.go:41-74 | one sleep per failed acquisition before the first success (or per attempt when none succeeds), following the backoff schedule. Once a slot is acquired the request is processed in full; without a slot neither the log nor the records change |
| Service.DataManagerService.OnASNRequest | services/datamgmtsrv.go:122-144 | appends exactly the ASN path's effects |

## Left out

- Concurrency is not modelled:
  - the semaphore (`TryAcquire`/`Release`);
  - the goroutine that runs `processDNSRequest`, which here runs to completion inside `OnDNSRequest`;
  - the `Quit()` channel, which is modelled as running out of acquisition outcomes;
  - the one-second ticker heartbeat while waiting.
- `time.Sleep` is not modelled: the sleeps are returned as a sequence of durations.
- The nil checks on the context's config and event bus are not modelled; both are taken as present.
- Log publications are recorded only as "this sink refused"; their text (`fmt.Sprintf`) and the error value are not modelled.
- Event priorities and bus delivery are not modelled; events are entries of the effect log.
- Whether a sink accepts an insert is a function of the sink and the fact (`Env.accepts`), not a stateful database.
- These collaborators are uninterpreted parameters; their code is not part of this model:
  - the public-suffix algorithm;
  - `net.IPv4RE` and `amassdns.AnySubdomainRegex`;
  - `resolvers.RemoveLastDot`;
  - `cfg.WhichDomain`, `cfg.IsDomainInScope` and `cfg.UUID`.
- Text.ToLower: lower-cases the ASCII letters only. Go's Unicode case mapping is not modelled.
- Tag: the string value of the DNS tag is not known here, so tags are a datatype with a distinguished `DNS` case.
- Service.DataManagerService.ProcessDNSRequest: in the source, `insertCNAME` is called from inside the first loop, on the record just normalised, followed by `return`. The model's loop stops at that record and `insertCNAME` is called just after it; the records and effects are the same.
