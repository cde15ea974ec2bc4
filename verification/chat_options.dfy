/** `ModelClient.GetDefaultOptions`: the client's string-to-string map of
    default sampling parameters, read into chat-completion request options.
    Float parsing (`float.TryParse`) is the parameter `parseFloat`. */
module ChatOptions {
  import opened Wrappers
  import opened Int32Text

  /** The sampling fields of a chat-completions request; `None` is "not set". */
  datatype Options = Options(
    temperature: Option<real>,
    maxTokens: Option<int>,
    nucleusSamplingFactor: Option<real>,
    frequencyPenalty: Option<real>,
    presencePenalty: Option<real>,
    seed: Option<int>)

  const Unset: Options := Options(None, None, None, None, None, None)

  /** One sampling field, so that rules about "every other field" can be stated once. */
  datatype Field = Temperature | MaxTokens | TopP | FrequencyPenalty | PresencePenalty | Seed

  /** A field's value, whichever its numeric type. */
  datatype Setting = Real(r: real) | Int(i: int)

  /** The defaults key that feeds a field. */
  function KeyOf(f: Field): string {
    match f
    case Temperature => "temperature"
    case MaxTokens => "max_tokens"
    case TopP => "top_p"
    case FrequencyPenalty => "frequency_penalty"
    case PresencePenalty => "presence_penalty"
    case Seed => "seed"
  }

  function RealSetting(v: Option<real>): Option<Setting> {
    match v
    case Some(x) => Some(Real(x))
    case None => None
  }

  function IntSetting(v: Option<int>): Option<Setting> {
    match v
    case Some(n) => Some(Int(n))
    case None => None
  }

  /** Reads one field of the options. */
  function Get(o: Options, f: Field): Option<Setting> {
    match f
    case Temperature => RealSetting(o.temperature)
    case MaxTokens => IntSetting(o.maxTokens)
    case TopP => RealSetting(o.nucleusSamplingFactor)
    case FrequencyPenalty => RealSetting(o.frequencyPenalty)
    case PresencePenalty => RealSetting(o.presencePenalty)
    case Seed => IntSetting(o.seed)
  }

  /** The setting a defaults value gives a field, or `None` when the value is
      rejected: floats as `parseFloat` reads them, `max_tokens` only as a strictly
      positive Int32, `seed` as any Int32. */
  function Accepted(f: Field, value: string, parseFloat: string -> Option<real>): Option<Setting> {
    match f
    case MaxTokens =>
      var n := ParseInt32(value);
      if n.Some? && n.value > 0 then Some(Int(n.value)) else None
    case Seed => IntSetting(ParseInt32(value))
    case _ => RealSetting(parseFloat(value))
  }

  /** The value a field ends up with after all of `defaults` is applied: the
      accepted setting of its key's value, if the key is present, else unset. */
  function Expected(defaults: Option<map<string, string>>, f: Field, parseFloat: string -> Option<real>): Option<Setting> {
    match defaults
    case None => None
    case Some(m) => if KeyOf(f) in m then Accepted(f, m[KeyOf(f)], parseFloat) else None
  }

  /** The `switch` on a defaults key: the field the key feeds, if any. The
      source lists "stop" with an empty case; like every unknown key it feeds no field. */
  function FieldOf(key: string): Option<Field> {
    match key
    case "temperature" => Some(Temperature)
    case "max_tokens" => Some(MaxTokens)
    case "top_p" => Some(TopP)
    case "frequency_penalty" => Some(FrequencyPenalty)
    case "presence_penalty" => Some(PresencePenalty)
    case "stop" => None
    case "seed" => Some(Seed)
    case _ => None
  }

  /** `FieldOf` and `KeyOf` are inverse: a key feeds a field exactly when it is that field's key. */
  lemma FieldOfKey(key: string, f: Field)
    ensures FieldOf(key) == Some(f) <==> key == KeyOf(f)
  {
    match f
    case Temperature =>
    case MaxTokens =>
    case TopP =>
    case FrequencyPenalty =>
    case PresencePenalty =>
    case Seed =>
  }

  /** One `case` of the `switch`: parse the value with the field's parser and,
      when that succeeds (and, for `max_tokens`, the number is positive), store it. */
  function Assign(o: Options, f: Field, value: string, parseFloat: string -> Option<real>): (r: Options)
    ensures Get(r, f) == (if Accepted(f, value, parseFloat).Some? then Accepted(f, value, parseFloat) else Get(o, f))
    ensures forall g :: g != f ==> Get(r, g) == Get(o, g)
  {
    match f
    case Temperature =>
      var t := parseFloat(value);
      if t.Some? then o.(temperature := t) else o
    case MaxTokens =>
      var n := ParseInt32(value);
      if n.Some? && n.value > 0 then o.(maxTokens := n) else o
    case TopP =>
      var p := parseFloat(value);
      if p.Some? then o.(nucleusSamplingFactor := p) else o
    case FrequencyPenalty =>
      var p := parseFloat(value);
      if p.Some? then o.(frequencyPenalty := p) else o
    case PresencePenalty =>
      var p := parseFloat(value);
      if p.Some? then o.(presencePenalty := p) else o
    case Seed =>
      var n := ParseInt32(value);
      if n.Some? then o.(seed := n) else o
  }

  /** The loop body for one dictionary entry. */
  function ApplyEntry(o: Options, key: string, value: string, parseFloat: string -> Option<real>): (r: Options)
    ensures FieldOf(key).None? ==> r == o
    ensures forall g :: KeyOf(g) != key ==> Get(r, g) == Get(o, g)
    ensures forall g :: KeyOf(g) == key ==>
              Get(r, g) == (if Accepted(g, value, parseFloat).Some? then Accepted(g, value, parseFloat) else Get(o, g))
  {
    match FieldOf(key)
    case None =>
      o
    case Some(f) =>
      FieldOfKey(key, f);
      assert forall g :: KeyOf(g) == key <==> g == f by {
        forall g ensures KeyOf(g) == key <==> g == f {
          FieldOfKey(key, g);
        }
      }
      Assign(o, f, value, parseFloat)
  }

  /** Assigning one field leaves every other field as it was. */
  lemma AssignEffect(o: Options, f: Field, value: string, parseFloat: string -> Option<real>, g: Field)
    ensures Get(Assign(o, f, value, parseFloat), g) ==
            (if f == g && Accepted(f, value, parseFloat).Some? then Accepted(f, value, parseFloat) else Get(o, g))
  {
    match f
    case Temperature =>
    case MaxTokens =>
    case TopP =>
    case FrequencyPenalty =>
    case PresencePenalty =>
    case Seed =>
  }

  /** The effect of one entry on one field: the field takes the accepted setting
      when the entry's key is the field's own key and the value is accepted;
      otherwise the field keeps its value. */
  lemma ApplyEntryEffect(o: Options, key: string, value: string, parseFloat: string -> Option<real>, g: Field)
    ensures Get(ApplyEntry(o, key, value, parseFloat), g) ==
            (if key == KeyOf(g) && Accepted(g, value, parseFloat).Some? then Accepted(g, value, parseFloat) else Get(o, g))
  {
    FieldOfKey(key, g);
    match FieldOf(key)
    case None =>
    case Some(f) =>
      FieldOfKey(key, f);
      AssignEffect(o, f, value, parseFloat, g);
  }

  function AsReal(s: Option<Setting>): Option<real> {
    if s.Some? && s.value.Real? then Some(s.value.r) else None
  }

  function AsInt(s: Option<Setting>): Option<int> {
    if s.Some? && s.value.Int? then Some(s.value.i) else None
  }

  /** Options are determined by their fields. */
  lemma FieldsDetermineOptions(a: Options, b: Options)
    requires forall f :: Get(a, f) == Get(b, f)
    ensures a == b
  {
    assert Get(a, Temperature) == Get(b, Temperature);
    assert Get(a, MaxTokens) == Get(b, MaxTokens);
    assert Get(a, TopP) == Get(b, TopP);
    assert Get(a, FrequencyPenalty) == Get(b, FrequencyPenalty);
    assert Get(a, PresencePenalty) == Get(b, PresencePenalty);
    assert Get(a, Seed) == Get(b, Seed);
  }

  /** The options a defaults map stands for, field by field; the reference that
      the dictionary loop of `GetDefaultOptions` is proved against. */
  function DefaultOptions(defaults: Option<map<string, string>>, parseFloat: string -> Option<real>): Options
  {
    Options(
      AsReal(Expected(defaults, Temperature, parseFloat)),
      AsInt(Expected(defaults, MaxTokens, parseFloat)),
      AsReal(Expected(defaults, TopP, parseFloat)),
      AsReal(Expected(defaults, FrequencyPenalty, parseFloat)),
      AsReal(Expected(defaults, PresencePenalty, parseFloat)),
      AsInt(Expected(defaults, Seed, parseFloat)))
  }

  /** Each field of the reference options is the expected value for that field. */
  lemma DefaultOptionsField(defaults: Option<map<string, string>>, parseFloat: string -> Option<real>, f: Field)
    ensures Get(DefaultOptions(defaults, parseFloat), f) == Expected(defaults, f, parseFloat)
  {
    match f
    case Temperature =>
    case MaxTokens =>
    case TopP =>
    case FrequencyPenalty =>
    case PresencePenalty =>
    case Seed =>
  }

  /** `GetDefaultOptions`: a null map gives unset options; otherwise every entry is
      applied, in whatever order the dictionary enumerates them. Since keys are
      unique and each key writes only its own field, the order does not matter. */
  method GetDefaultOptions(defaults: Option<map<string, string>>, parseFloat: string -> Option<real>)
    returns (o: Options)
    ensures defaults.None? ==> o == Unset
    ensures o == DefaultOptions(defaults, parseFloat)
  {
    o := Unset;
    if defaults.None? {
      return;
    }
    var m := defaults.value;
    var pending := m.Keys;
    while pending != {}
      invariant pending <= m.Keys
      invariant forall f :: Get(o, f) == (if KeyOf(f) in m && KeyOf(f) !in pending then Accepted(f, m[KeyOf(f)], parseFloat) else None)
      decreases pending
    {
      var key :| key in pending;
      forall f {
        ApplyEntryEffect(o, key, m[key], parseFloat, f);
      }
      o := ApplyEntry(o, key, m[key], parseFloat);
      pending := pending - {key};
    }
    forall f {
      DefaultOptionsField(defaults, parseFloat, f);
    }
    FieldsDetermineOptions(o, DefaultOptions(defaults, parseFloat));
  }

  /** No defaults map at all: every field is unset. */
  lemma NoDefaultsNoOptions(parseFloat: string -> Option<real>)
    ensures DefaultOptions(None, parseFloat) == Unset
  {
    forall f {
      DefaultOptionsField(None, parseFloat, f);
    }
    FieldsDetermineOptions(DefaultOptions(None, parseFloat), Unset);
  }

  /** `max_tokens` is set exactly when its value parses as an Int32 above zero. */
  lemma MaxTokensRule(m: map<string, string>, parseFloat: string -> Option<real>, n: int)
    requires "max_tokens" in m
    ensures DefaultOptions(Some(m), parseFloat).maxTokens == Some(n) <==> ParseInt32(m["max_tokens"]) == Some(n) && n > 0
    ensures DefaultOptions(Some(m), parseFloat).maxTokens.None? <==>
            (ParseInt32(m["max_tokens"]).None? || ParseInt32(m["max_tokens"]).value <= 0)
  {
    DefaultOptionsField(Some(m), parseFloat, MaxTokens);
  }

  /** "0", "-5" and "abc" leave `max_tokens` unset. */
  lemma MaxTokensRejects(m: map<string, string>, parseFloat: string -> Option<real>)
    requires "max_tokens" in m && m["max_tokens"] in {"0", "-5", "abc"}
    ensures DefaultOptions(Some(m), parseFloat).maxTokens == None
  {
    ParseExamples();
    MaxTokensRule(m, parseFloat, 0);
  }

  /** `seed` takes any Int32 the value parses as, zero and negatives included. */
  lemma SeedRule(m: map<string, string>, parseFloat: string -> Option<real>)
    requires "seed" in m
    ensures DefaultOptions(Some(m), parseFloat).seed == ParseInt32(m["seed"])
  {
    DefaultOptionsField(Some(m), parseFloat, Seed);
  }

  /** A float field takes what `parseFloat` reads, and stays unset when it reads nothing. */
  lemma TemperatureRule(m: map<string, string>, parseFloat: string -> Option<real>)
    requires "temperature" in m
    ensures DefaultOptions(Some(m), parseFloat).temperature == parseFloat(m["temperature"])
  {
    DefaultOptionsField(Some(m), parseFloat, Temperature);
  }

  /** Adding "stop", or any key that names no field, changes no option. */
  lemma IgnoredKeyChangesNothing(m: map<string, string>, key: string, value: string, parseFloat: string -> Option<real>)
    requires FieldOf(key).None?
    ensures DefaultOptions(Some(m[key := value]), parseFloat) == DefaultOptions(Some(m), parseFloat)
  {
    forall f
      ensures Get(DefaultOptions(Some(m[key := value]), parseFloat), f) == Get(DefaultOptions(Some(m), parseFloat), f)
    {
      DefaultOptionsField(Some(m[key := value]), parseFloat, f);
      DefaultOptionsField(Some(m), parseFloat, f);
      FieldOfKey(key, f);
    }
    FieldsDetermineOptions(DefaultOptions(Some(m[key := value]), parseFloat), DefaultOptions(Some(m), parseFloat));
  }

  /** The "stop" key is acknowledged but feeds no field. */
  lemma StopChangesNothing(m: map<string, string>, value: string, parseFloat: string -> Option<real>)
    ensures DefaultOptions(Some(m["stop" := value]), parseFloat) == DefaultOptions(Some(m), parseFloat)
  {
    IgnoredKeyChangesNothing(m, "stop", value, parseFloat);
  }
}
