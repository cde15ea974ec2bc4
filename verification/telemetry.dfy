/** The telemetry side of `ModelClient`: the attributed user, the "invoke" and
    "usage" events, and the metadata maps they carry. The telemetry server's
    `LogEvent` is modelled as appending to a trace of events; clock readings
    (Unix milliseconds) are parameters. */
module Telemetry {
  import opened Wrappers
  import opened Errors
  import opened Int32Text

  const SdkTypeKey: string := "sdk_type"
  const SdkType: string := "azureai-dotnet"
  const LatencyKey: string := "latency_ms"

  /** The part of a telemetry user this adapter touches: its id and its custom ids. */
  datatype User = User(userId: Option<string>, customIds: map<string, string>)

  const Anonymous: User := User(None, map[])

  /** One `LogEvent(user, eventName, value, metadata)` call. */
  datatype Event = Event(user: User, eventName: string, value: string, metadata: map<string, string>)

  /** The start time of one call, carried from its invoke event to its usage event. */
  datatype InvokeContext = InvokeContext(invokeTime: int)

  /** `user ?? new StatsigUser()` followed by `AddCustomID("sdk_type", "azureai-dotnet")`. */
  function Attributed(user: Option<User>): (u: User)
    ensures SdkTypeKey in u.customIds && u.customIds[SdkTypeKey] == SdkType
    ensures u.userId == (if user.Some? then user.value.userId else None)
    ensures forall k :: k != SdkTypeKey ==>
              (k in u.customIds <==> user.Some? && k in user.value.customIds)
    ensures forall k :: k != SdkTypeKey && k in u.customIds ==> u.customIds[k] == user.value.customIds[k]
  {
    var base := user.GetOr(Anonymous);
    base.(customIds := base.customIds[SdkTypeKey := SdkType])
  }

  /** The metadata every invoke event carries. */
  const InvokeMetadata: map<string, string> := map[SdkTypeKey := SdkType]

  function InvokeEvent(user: Option<User>, operation: string): Event {
    Event(Attributed(user), "invoke", operation, InvokeMetadata)
  }

  /** `LogInvoke`: logs the invoke event, then reads the clock for the call's
      context. The earlier events are kept and exactly one is appended: an
      "invoke" event for `operation`, attributed to the tagged user, whose only
      metadata entry is `sdk_type`. */
  function LogInvoke(trace: seq<Event>, user: Option<User>, operation: string, now: int): (r: (seq<Event>, InvokeContext))
    ensures |r.0| == |trace| + 1 && r.0[..|trace|] == trace
    ensures var e := r.0[|trace|];
      && e.user == Attributed(user) && e.eventName == "invoke" && e.value == operation
      && e.metadata.Keys == {SdkTypeKey} && e.metadata[SdkTypeKey] == SdkType
    ensures r.1.invokeTime == now
  {
    (trace + [InvokeEvent(user, operation)], InvokeContext(now))
  }

  /** The event `LogInvoke` appends is `InvokeEvent(user, operation)`. */
  lemma InvokeLogged(trace: seq<Event>, user: Option<User>, operation: string, now: int)
    ensures LogInvoke(trace, user, operation, now).0 == trace + [InvokeEvent(user, operation)]
  {
  }

  /** The metadata of a usage event: the supplied usage entries (an empty map for
      null), then `sdk_type`, then `latency_ms` when a context was passed. Each
      addition is a `Dictionary.Add`, which fails on a key already present. */
  function UsageMetadata(usage: Option<map<string, string>>, context: Option<InvokeContext>, now: int)
    : (r: Result<map<string, string>, Error>)
    ensures r.Success? <==>
              SdkTypeKey !in usage.GetOr(map[]) && (context.Some? ==> LatencyKey !in usage.GetOr(map[]))
    ensures r.Success? ==>
              r.value.Keys == usage.GetOr(map[]).Keys + {SdkTypeKey} + (if context.Some? then {LatencyKey} else {})
    ensures r.Success? ==> forall k :: k in usage.GetOr(map[]) ==> r.value[k] == usage.GetOr(map[])[k]
    ensures r.Success? ==> r.value[SdkTypeKey] == SdkType
    ensures r.Success? && context.Some? ==> r.value[LatencyKey] == FormatInt(now - context.value.invokeTime)
    ensures r.Failure? ==> r.error == DuplicateKey(if SdkTypeKey in usage.GetOr(map[]) then SdkTypeKey else LatencyKey)
  {
    var metadata := usage.GetOr(map[]);
    if SdkTypeKey in metadata then Failure(DuplicateKey(SdkTypeKey))
    else
      var tagged := metadata[SdkTypeKey := SdkType];
      match context
      case None => Success(tagged)
      case Some(ic) =>
        if LatencyKey in tagged then Failure(DuplicateKey(LatencyKey))
        else Success(tagged[LatencyKey := FormatInt(now - ic.invokeTime)])
  }

  /** `LogUsage`: fails, logging nothing, when a `Dictionary.Add` meets a key
      already present; otherwise keeps the earlier events and appends exactly
      one "usage" event for `operation`, attributed to the tagged user. */
  function LogUsage(trace: seq<Event>, user: Option<User>, operation: string,
                    usage: Option<map<string, string>>, context: Option<InvokeContext>, now: int)
    : (r: Result<seq<Event>, Error>)
    ensures r.Failure? <==>
              SdkTypeKey in usage.GetOr(map[]) || (context.Some? && LatencyKey in usage.GetOr(map[]))
    ensures r.Failure? ==> r.error == DuplicateKey(if SdkTypeKey in usage.GetOr(map[]) then SdkTypeKey else LatencyKey)
    ensures r.Success? ==> |r.value| == |trace| + 1 && r.value[..|trace|] == trace
    ensures r.Success? ==>
              var e := r.value[|trace|];
              && e.user == Attributed(user) && e.eventName == "usage" && e.value == operation
              && e.metadata == UsageMetadata(usage, context, now).value
  {
    var metadata :- UsageMetadata(usage, context, now);
    Success(trace + [Event(Attributed(user), "usage", operation, metadata)])
  }

  /** The usage event a call with an invoke context logs for usage entries that
      hold neither `sdk_type` nor `latency_ms`. */
  function UsageEvent(user: Option<User>, operation: string, usage: map<string, string>,
                      context: InvokeContext, now: int): Event
  {
    Event(Attributed(user), "usage", operation,
          usage[SdkTypeKey := SdkType][LatencyKey := FormatInt(now - context.invokeTime)])
  }

  /** With a context and fresh usage keys, `LogUsage` appends exactly `UsageEvent`. */
  lemma LogUsageWithContext(trace: seq<Event>, user: Option<User>, operation: string,
                            usage: Option<map<string, string>>, context: InvokeContext, now: int)
    requires SdkTypeKey !in usage.GetOr(map[]) && LatencyKey !in usage.GetOr(map[])
    ensures LogUsage(trace, user, operation, usage, Some(context), now) ==
            Success(trace + [UsageEvent(user, operation, usage.GetOr(map[]), context, now)])
  {
    var m := UsageMetadata(usage, Some(context), now).value;
    var n := usage.GetOr(map[])[SdkTypeKey := SdkType][LatencyKey := FormatInt(now - context.invokeTime)];
    assert m.Keys == n.Keys;
    assert forall k :: k in m ==> m[k] == n[k];
    var logged := LogUsage(trace, user, operation, usage, Some(context), now).value;
    assert logged == logged[..|trace|] + [logged[|trace|]];
  }

  /** A latency measured on a clock that did not run backwards is written as plain
      digits whose value is the elapsed time. */
  lemma LatencyIsNonNegative(invokeTime: int, now: int)
    requires invokeTime <= now
    ensures AllDigits(FormatInt(now - invokeTime))
    ensures DigitsValue(FormatInt(now - invokeTime)) == now - invokeTime
  {
    var elapsed: nat := now - invokeTime;
    assert FormatInt(elapsed) == Digits(elapsed);
    DigitsValueOfDigits(elapsed);
  }
}
