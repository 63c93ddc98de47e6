/** The plugin options: validation, defaults and the well-formedness the proofs rely on. */
module Config {
  import opened Outcomes
  import opened Json

  const Ctr := "aes-256-ctr"
  const Cbc := "aes-256-cbc"
  const DefaultHashField := "hashField"
  const DefaultIvField := "ivField"
  const MinSaltLength := 32

  const FieldsMessage := "Fields is Array and not empty"
  const SaltMessage := "Salt length greater than 32 character"
  const AlgorithmMessage := "Algorithm accept 'aes-256-ctr' and 'aes-256-cbc'"

  /** Options as the caller passes them; `None` is a key that was not given. */
  datatype RawOptions = RawOptions(
    fields: Option<seq<string>>,
    salt: Option<string>,
    algorithm: Option<string>,
    hashField: Option<string>,
    ivField: Option<string>,
    hideIV: Option<bool>)

  /** Options after defaulting. */
  datatype Options = Options(
    fields: seq<string>,
    salt: string,
    algorithm: string,
    hashField: string,
    ivField: string,
    hideIV: bool)

  /** The algorithm check `options.algorithm && ![ctr, cbc].includes(...)` lets this through. */
  predicate AcceptedAlgorithm(a: Option<string>) {
    a.None? || a.value == "" || a.value == Ctr || a.value == Cbc
  }

  /** One key of `{ key: fallback, ...options }`: the caller's value wins when given. */
  function Spread<T>(given: Option<T>, fallback: T): (r: T)
    ensures given.Some? ==> r == given.value
    ensures given.None? ==> r == fallback
  {
    if given.Some? then given.value else fallback
  }

  /** `defaultOptions`: three fail-fast checks, then the caller's keys spread over the defaults. */
  function DefaultOptions(raw: RawOptions): (r: Result<Options>)
    ensures r.Ok? <==>
              && raw.fields.Some? && |raw.fields.value| > 0
              && raw.salt.Some? && JsLength(raw.salt.value) >= MinSaltLength
              && AcceptedAlgorithm(raw.algorithm)
    ensures raw.fields.None? || |raw.fields.value| == 0 ==> r == Err(ConfigError(FieldsMessage))
    ensures raw.fields.Some? && |raw.fields.value| > 0 && raw.salt.None? ==> r == Err(TypeError)
    ensures (raw.fields.Some? && |raw.fields.value| > 0 && raw.salt.Some? &&
             JsLength(raw.salt.value) < MinSaltLength) ==>
              r == Err(ConfigError(SaltMessage))
    ensures (raw.fields.Some? && |raw.fields.value| > 0 && raw.salt.Some? &&
             JsLength(raw.salt.value) >= MinSaltLength && !AcceptedAlgorithm(raw.algorithm)) ==>
              r == Err(ConfigError(AlgorithmMessage))
    ensures r.Err? && r.error.ConfigError? && r.error.message == SaltMessage ==>
              raw.salt.Some? && JsLength(raw.salt.value) < MinSaltLength
    ensures r.Err? && r.error.ConfigError? && r.error.message == AlgorithmMessage ==>
              !AcceptedAlgorithm(raw.algorithm)
    ensures r.Ok? ==>
              && r.value.fields == raw.fields.value
              && r.value.salt == raw.salt.value
              && r.value.algorithm == Spread(raw.algorithm, Ctr)
              && r.value.hashField == Spread(raw.hashField, DefaultHashField)
              && r.value.ivField == Spread(raw.ivField, DefaultIvField)
              && r.value.hideIV == Spread(raw.hideIV, true)
  {
    if raw.fields.None? || |raw.fields.value| == 0 then Err(ConfigError(FieldsMessage))
    // `options.salt.length` on a missing salt is a property read on undefined
    else if raw.salt.None? then Err(TypeError)
    else if JsLength(raw.salt.value) < MinSaltLength then Err(ConfigError(SaltMessage))
    else if !AcceptedAlgorithm(raw.algorithm) then Err(ConfigError(AlgorithmMessage))
    else
      Ok(Options(
           raw.fields.value,
           raw.salt.value,
           Spread(raw.algorithm, Ctr),
           Spread(raw.hashField, DefaultHashField),
           Spread(raw.ivField, DefaultIvField),
           Spread(raw.hideIV, true)))
  }

  /** The algorithm the cipher helper actually uses: it falls back to CTR on a falsy name. */
  function EffectiveAlgorithm(o: Options): string {
    if o.algorithm == "" then Ctr else o.algorithm
  }

  /** The options as a caller would pass them back in. */
  function AsRaw(o: Options): RawOptions {
    RawOptions(Some(o.fields), Some(o.salt), Some(o.algorithm),
               Some(o.hashField), Some(o.ivField), Some(o.hideIV))
  }

  /** What every accepted configuration satisfies. */
  ghost predicate Valid(o: Options) {
    && |o.fields| > 0
    && JsLength(o.salt) >= MinSaltLength
    && AcceptedAlgorithm(Some(o.algorithm))
  }

  /** Accepted options are valid, the cipher runs one of the two supported modes, and
      validating them again changes nothing. */
  lemma DefaultOptionsSound(raw: RawOptions)
    requires DefaultOptions(raw).Ok?
    ensures Valid(DefaultOptions(raw).value)
    ensures EffectiveAlgorithm(DefaultOptions(raw).value) in {Ctr, Cbc}
    ensures DefaultOptions(AsRaw(DefaultOptions(raw).value)) == DefaultOptions(raw)
  {
  }

  /** No field is declared twice. */
  ghost predicate DistinctFields(o: Options) {
    forall i, j :: 0 <= i < j < |o.fields| ==> o.fields[i] != o.fields[j]
  }

  /** Distinct field names and sidecar names that are neither each other nor declared fields:
      the configurations under which the write and read paths are each other's inverse.
      The plugin itself does not check any of this. */
  ghost predicate WellFormed(o: Options) {
    && DistinctFields(o)
    && o.hashField != o.ivField
    && o.hashField !in o.fields
    && o.ivField !in o.fields
  }

  /** No name contains a dot and no field is the `$set` operator: the update payload's
      dotted sidecar keys then never collide with a field. */
  ghost predicate DotFree(o: Options) {
    && (forall f :: f in o.fields ==> '.' !in f)
    && '.' !in o.hashField
    && '.' !in o.ivField
    && "$set" !in o.fields
  }
}
