/**
  The agent's start gate, the logic of the kns-pod `main` lifted into a pure
  function of its injected identity, the outcome of reading the discovery
  service, and the clock reading `now` in nanoseconds.
*/
module StartGate {
  import opened Wrappers
  import opened Decimal
  import opened Clock
  import opened KubeApi

  /** `now.Add(2 * time.Minute)`: the furthest a start time may lie ahead. */
  const MaxLead: int := 2 * Minute

  /** The identity the downward API injects: `KNS_POD_NAME`, `KNS_POD_NAMESPACE`, `KNS_POD_ADDRESS`. */
  datatype AgentEnv = AgentEnv(name: string, namespace: string, address: string)

  /** The outcome of getting the `network-scan` service in the agent's namespace. */
  datatype ServiceLookup = Fetched(labels: map<string, string>) | FetchFailed(reason: string)

  datatype GateError =
    | MissingName
    | MissingNamespace
    | MissingAddress
    | ServiceUnavailable(reason: string)
    | MissingStartTime
    | MalformedStartTime(text: string)
    | StartInPast
    | StartTooFarAhead

  /** The start instant `v` seconds lies in the closed window from `now` to two minutes later. */
  predicate InWindow(v: int, now: int) {
    now <= v * NanosPerSecond <= now + MaxLead
  }

  /** The skew check on the start time `v` (whole seconds) against `now`. */
  function Admit(v: int, now: int): (r: Result<int, GateError>)
    ensures r.Ok? ==> r.value == v
    ensures r.Err? ==> r.error in {StartInPast, StartTooFarAhead}
  {
    var ts := v * NanosPerSecond;
    if ts < now then Err(StartInPast)
    else if ts > now + MaxLead then Err(StartTooFarAhead)
    else Ok(v)
  }

  /**
    The skew check as written: `time.Unix(v, 0)` stores `v` as seconds since
    year 1 in an int64, and the comparisons are made on that representation.
  */
  function AdmitAsWritten(v: int, now: int): (r: Result<int, GateError>)
    requires IsInt64(v)
    ensures r.Ok? ==> r.value == v
    ensures r.Err? ==> r.error in {StartInPast, StartTooFarAhead}
  {
    var ts := InternalSeconds(v) * NanosPerSecond;
    var nowInternal := now + UnixToInternal * NanosPerSecond;
    if ts < nowInternal then Err(StartInPast)
    else if ts > nowInternal + MaxLead then Err(StartTooFarAhead)
    else Ok(v)
  }

  /** The agent's checks before the clock is read: its identity, the service lookup and the label parse. */
  function ReadStartTime(env: AgentEnv, service: ServiceLookup): (r: Result<int, GateError>)
    ensures r.Ok? ==> IsInt64(r.value)
    ensures r.Ok? ==> service.Fetched? && StartTimeLabel in service.labels && ParseInt64(service.labels[StartTimeLabel]) == Some(r.value)
    ensures r.Ok? ==> env.name != "" && env.namespace != "" && env.address != ""
  {
    if env.name == "" then Err(MissingName)
    else if env.namespace == "" then Err(MissingNamespace)
    else if env.address == "" then Err(MissingAddress)
    else match service
      case FetchFailed(reason) => Err(ServiceUnavailable(reason))
      case Fetched(labels) =>
        if StartTimeLabel !in labels then Err(MissingStartTime)
        else match ParseInt64(labels[StartTimeLabel])
          case None => Err(MalformedStartTime(labels[StartTimeLabel]))
          case Some(v) => Ok(v)
  }

  /**
    The agent's checks, in order, up to the acceptance of the start time, with
    the corrected window check `Admit`.
  */
  function Gate(env: AgentEnv, service: ServiceLookup, now: int): (r: Result<int, GateError>)
    ensures r.Ok? ==> IsInt64(r.value) && InWindow(r.value, now)
    ensures r.Ok? ==> service.Fetched? && StartTimeLabel in service.labels && ParseInt64(service.labels[StartTimeLabel]) == Some(r.value)
    ensures r.Ok? ==> env.name != "" && env.namespace != "" && env.address != ""
  {
    match ReadStartTime(env, service)
      case Err(e) => Err(e)
      case Ok(v) => Admit(v, now)
  }

  /** The same checks with the window check as written, on `time.Unix`'s wrapped seconds. */
  function GateAsWritten(env: AgentEnv, service: ServiceLookup, now: int): (r: Result<int, GateError>)
    ensures r.Ok? ==> IsInt64(r.value)
    ensures r.Ok? ==> service.Fetched? && StartTimeLabel in service.labels && ParseInt64(service.labels[StartTimeLabel]) == Some(r.value)
    ensures r.Ok? ==> env.name != "" && env.namespace != "" && env.address != ""
  {
    match ReadStartTime(env, service)
      case Err(e) => Err(e)
      case Ok(v) => AdmitAsWritten(v, now)
  }

  /** The gate accepts exactly when every check passes, and then yields the parsed start time. */
  lemma GateAcceptsIff(env: AgentEnv, service: ServiceLookup, now: int, v: int)
    ensures Gate(env, service, now) == Ok(v) <==>
      && env.name != "" && env.namespace != "" && env.address != ""
      && service.Fetched? && StartTimeLabel in service.labels
      && ParseInt64(service.labels[StartTimeLabel]) == Some(v)
      && InWindow(v, now)
  {
  }

  /** Identity is checked first, in the order name, namespace, address; the service is then never consulted. */
  lemma IdentityCheckedFirst(env: AgentEnv, s1: ServiceLookup, s2: ServiceLookup, now1: int, now2: int)
    ensures env.name == "" ==> Gate(env, s1, now1) == Err(MissingName)
    ensures env.name != "" && env.namespace == "" ==> Gate(env, s1, now1) == Err(MissingNamespace)
    ensures env.name != "" && env.namespace != "" && env.address == "" ==> Gate(env, s1, now1) == Err(MissingAddress)
    ensures (env.name == "" || env.namespace == "" || env.address == "") ==> Gate(env, s1, now1) == Gate(env, s2, now2)
  {
  }

  /** With a full identity, a failed lookup, a missing label and an unparsable label are each fatal. */
  lemma LabelErrors(env: AgentEnv, service: ServiceLookup, now: int)
    requires env.name != "" && env.namespace != "" && env.address != ""
    ensures service.FetchFailed? ==> Gate(env, service, now) == Err(ServiceUnavailable(service.reason))
    ensures service.Fetched? && StartTimeLabel !in service.labels ==> Gate(env, service, now) == Err(MissingStartTime)
    ensures service.Fetched? && StartTimeLabel in service.labels && ParseInt64(service.labels[StartTimeLabel]).None?
      ==> Gate(env, service, now) == Err(MalformedStartTime(service.labels[StartTimeLabel]))
  {
  }

  /** Both ends of the window are closed, and one nanosecond beyond either end is refused. */
  lemma WindowBoundaries(v: int)
    ensures Admit(v, v * NanosPerSecond) == Ok(v)
    ensures Admit(v, v * NanosPerSecond + 1) == Err(StartInPast)
    ensures Admit(v, v * NanosPerSecond - MaxLead) == Ok(v)
    ensures Admit(v, v * NanosPerSecond - MaxLead - 1) == Err(StartTooFarAhead)
  {
  }

  /** `Admit` refuses a start before `now` as in the past and one beyond the window as too far ahead. */
  lemma AdmitIff(v: int, now: int)
    ensures Admit(v, now).Ok? <==> InWindow(v, now)
    ensures Admit(v, now) == Err(StartInPast) <==> v * NanosPerSecond < now
    ensures Admit(v, now) == Err(StartTooFarAhead) <==> now + MaxLead < v * NanosPerSecond
  {
  }

  /** The clock reading and the window's far end fit Go's year-1 based int64 seconds. */
  predicate RepresentableNow(now: int) {
    MinInt64 <= UnixSeconds(now) && UnixSeconds(now) + UnixToInternal + 120 <= MaxInt64
  }

  /** Below the wrap-around the check as written and the corrected one agree exactly. */
  lemma AdmitAsWrittenAgreesBelowWrap(v: int, now: int)
    requires IsInt64(v) && v <= MaxInt64 - UnixToInternal
    ensures AdmitAsWritten(v, now) == Admit(v, now)
  {
  }

  /**
    Above the wrap-around, at any representable clock reading, the check as
    written reports the start as in the past while it lies too far ahead.
  */
  lemma AdmitAsWrittenInWrapRange(v: int, now: int)
    requires IsInt64(v) && v > MaxInt64 - UnixToInternal && RepresentableNow(now)
    ensures AdmitAsWritten(v, now) == Err(StartInPast)
    ensures Admit(v, now) == Err(StartTooFarAhead)
  {
    var s := UnixSeconds(now);
    assert InternalSeconds(v) == v + UnixToInternal - TwoToThe64;
    assert InternalSeconds(v) <= MinInt64 + UnixToInternal - 1;
    assert (s + 1) * NanosPerSecond <= (MaxInt64 - UnixToInternal - 119) * NanosPerSecond;
    assert v * NanosPerSecond >= (MaxInt64 - UnixToInternal + 1) * NanosPerSecond;
    assert MinInt64 * NanosPerSecond <= s * NanosPerSecond;
  }

  /** For any representable clock reading, both versions accept the same start times. */
  lemma AdmitAsWrittenAcceptsTheSame(v: int, now: int)
    requires IsInt64(v) && RepresentableNow(now)
    ensures AdmitAsWritten(v, now).Ok? <==> Admit(v, now).Ok?
  {
    if v > MaxInt64 - UnixToInternal {
      AdmitAsWrittenInWrapRange(v, now);
    }
  }

  /**
    The gate as written differs from the corrected gate only on a label above
    the wrap-around: there, at any representable clock reading, the program
    reports the start as in the past and the corrected gate as too far ahead.
    Everywhere else, at any clock reading, the two give the same outcome.
  */
  lemma GateAsWrittenDiffersOnlyInWrapRange(env: AgentEnv, service: ServiceLookup, now: int)
    ensures var read := ReadStartTime(env, service);
      read.Ok? && read.value > MaxInt64 - UnixToInternal && RepresentableNow(now) ==>
        GateAsWritten(env, service, now) == Err(StartInPast) && Gate(env, service, now) == Err(StartTooFarAhead)
    ensures var read := ReadStartTime(env, service);
      !(read.Ok? && read.value > MaxInt64 - UnixToInternal) ==> GateAsWritten(env, service, now) == Gate(env, service, now)
  {
    var read := ReadStartTime(env, service);
    if read.Ok? {
      if read.value > MaxInt64 - UnixToInternal {
        if RepresentableNow(now) {
          AdmitAsWrittenInWrapRange(read.value, now);
        }
      } else {
        AdmitAsWrittenAgreesBelowWrap(read.value, now);
      }
    }
  }

  /**
    The largest int64 label, read at the Unix epoch: the check as written calls
    it a start time in the past, although it lies far in the future.
  */
  lemma AdmitAsWrittenMisjudgesFarFuture()
    ensures AdmitAsWritten(MaxInt64, 0) == Err(StartInPast)
    ensures Admit(MaxInt64, 0) == Err(StartTooFarAhead)
  {
    assert InternalSeconds(MaxInt64) < 0;
  }

}
