/**
 * The document hooks: `pre('save')` and `pre('insertMany')` encrypt the declared fields
 * and fill the two sidecars; `post('save')`, `post('init')` and `post('insertMany')`
 * decrypt the declared fields again.
 */
module DocCodec {
  import opened Outcomes
  import opened Json
  import opened Config
  import opened Cipher

  /** The IV the cipher helper draws for each field of one document. */
  type IvSource = string -> Iv

  /** The save hooks stringify the stored value and read the IV sidecar through optional
      chaining; the bulk-insert hooks hand the raw value to the cipher and index the IV
      sidecar directly. */
  datatype Path = SavePath | BatchPath

  const EmptyListMessage := "List should not be empty"
  const SomethingMessage := "Something error"

  /** Field `f` of `d` passes the write-side guard. */
  predicate Encodes(d: Doc, f: string) {
    f in d && ShouldEncode(d[f])
  }

  /** The text given to the cipher and the digest; `None` where Node's crypto throws
      because the value is not a string. */
  function PlainText(v: Value, path: Path): (r: Option<string>)
    ensures r.Some? ==> r.value == ToText(v)
    ensures r.None? <==> path.BatchPath? && !v.Str?
  {
    if path.SavePath? || v.Str? then Some(ToText(v)) else None
  }

  /** `doc[side][key] = v`; the write is lost when the sidecar is not an object. */
  function PutIn(d: Doc, side: string, key: string, v: Value): (r: Doc)
    ensures r.Keys == d.Keys
    ensures forall k :: k in d && k != side ==> r[k] == d[k]
    ensures side in d && d[side].Obj? ==> r[side] == Obj(d[side].fields[key := v])
  {
    if side in d && d[side].Obj? then d[side := Obj(d[side].fields[key := v])] else d
  }

  /** `dataInit[hashField] = {}; dataInit[ivField] = {};` */
  function ResetSidecars(o: Options, d: Doc): (r: Doc)
    ensures r.Keys == d.Keys + {o.hashField, o.ivField}
  {
    d[o.hashField := Obj(map[])][o.ivField := Obj(map[])]
  }

  /** One iteration of the encoders' `fields.forEach`. */
  function EncodeField(c: Crypto, o: Options, ivs: IvSource, f: string, d: Doc, path: Path)
    : (r: Result<Doc>)
    ensures r.Ok? ==> r.value.Keys == d.Keys
    ensures r.Err? <==> Encodes(d, f) && PlainText(d[f], path).None?
  {
    if Encodes(d, f) then
      match PlainText(d[f], path)
      case None => Err(TypeError)
      case Some(text) =>
        var withHash := PutIn(d, o.hashField, f, Str(c.digest(text)));
        var withIv := PutIn(withHash, o.ivField, f, Str(ivs(f)));
        Ok(withIv[f := Str(Seal(c, o, ivs(f), text))])
    else Ok(d)
  }

  /** The first `n` iterations of the encoders' loop, stopping at the first throw. */
  function EncodePrefix(c: Crypto, o: Options, ivs: IvSource, d: Doc, n: nat, path: Path)
    : (r: Result<Doc>)
    requires n <= |o.fields|
    ensures r.Ok? ==> r.value.Keys == d.Keys
    ensures path.SavePath? ==> r.Ok?
  {
    if n == 0 then Ok(d)
    else
      match EncodePrefix(c, o, ivs, d, n - 1, path)
      case Err(e) => Err(e)
      case Ok(prev) => EncodeField(c, o, ivs, o.fields[n - 1], prev, path)
  }

  /** One document through an encoder: sidecars reset, then every declared field. */
  function EncodeDoc(c: Crypto, o: Options, ivs: IvSource, d: Doc, path: Path): (r: Result<Doc>)
    ensures r.Ok? ==> r.value.Keys == d.Keys + {o.hashField, o.ivField}
    ensures path.SavePath? ==> r.Ok?
  {
    EncodePrefix(c, o, ivs, ResetSidecars(o, d), |o.fields|, path)
  }

  /** `pre('save')`: stringified values never make the cipher throw. */
  function PreSave(c: Crypto, o: Options, ivs: IvSource, d: Doc): (r: Doc)
    ensures r.Keys == d.Keys + {o.hashField, o.ivField}
  {
    EncodeDoc(c, o, ivs, d, SavePath).value
  }

  /** One element of the bulk-insert batch. Setting a sidecar on `null` throws; on other
      primitives and arrays the writes are not observable and no field is encoded. */
  function EncodeItem(c: Crypto, o: Options, ivs: IvSource, item: Value): (r: Result<Value>)
    ensures r.Err? ==> r.error == BatchError(SomethingMessage)
    ensures item.Null? ==> r.Err?
    ensures !item.Obj? && !item.Null? ==> r == Ok(item)
    ensures r.Ok? ==> (r.value.Obj? <==> item.Obj?)
  {
    match item
    case Obj(m) =>
      (match EncodeDoc(c, o, ivs, m, BatchPath)
       case Ok(e) => Ok(Obj(e))
       case Err(_) => Err(BatchError(SomethingMessage)))
    case Null => Err(BatchError(SomethingMessage))
    case _ => Ok(item)
  }

  /** The first `n` elements of a batch; any failure fails the whole batch. */
  function EncodeItems(c: Crypto, o: Options, batchIvs: nat -> IvSource, items: seq<Value>, n: nat)
    : (r: Result<seq<Value>>)
    requires n <= |items|
    ensures r.Err? <==> exists i :: 0 <= i < n && EncodeItem(c, o, batchIvs(i), items[i]).Err?
    ensures r.Err? ==> r.error == BatchError(SomethingMessage)
    ensures r.Ok? ==> |r.value| == n
    ensures r.Ok? ==> forall i :: 0 <= i < n ==> EncodeItem(c, o, batchIvs(i), items[i]) == Ok(r.value[i])
  {
    if n == 0 then Ok([])
    else
      match EncodeItems(c, o, batchIvs, items, n - 1)
      case Err(e) => Err(e)
      case Ok(prev) =>
        match EncodeItem(c, o, batchIvs(n - 1), items[n - 1])
        case Err(e) => Err(e)
        case Ok(v) => Ok(prev + [v])
  }

  /** `pre('insertMany')`: an empty or non-array batch is refused before anything is
      encoded; otherwise every element is encoded as on save, without stringifying. */
  function PreInsertMany(c: Crypto, o: Options, batchIvs: nat -> IvSource, docs: Value)
    : (r: Result<seq<Value>>)
    ensures !(docs.Arr? && |docs.items| > 0) <==> r == Err(BatchError(EmptyListMessage))
    ensures r.Err? ==> r.error.BatchError?
    ensures docs.Arr? && |docs.items| > 0 && r.Err? ==> r.error == BatchError(SomethingMessage)
    ensures r.Ok? ==> docs.Arr? && |r.value| == |docs.items|
    ensures r.Ok? ==> forall i :: 0 <= i < |docs.items| ==>
                        EncodeItem(c, o, batchIvs(i), docs.items[i]) == Ok(r.value[i])
  {
    if docs.Arr? && |docs.items| > 0 then EncodeItems(c, o, batchIvs, docs.items, |docs.items|)
    else Err(BatchError(EmptyListMessage))
  }

  /** `doc?.[ivField]?.[field] || ''`: the recorded IV, or the empty string. */
  function IvAt(d: Doc, side: string, f: string): string {
    if side in d && d[side].Obj? && f in d[side].fields && d[side].fields[f].Str?
    then d[side].fields[f].s
    else ""
  }

  /** `post('insertMany')` reads `doc[ivField][field]` without optional chaining. */
  predicate IvSidecarMissing(o: Options, d: Doc) {
    o.ivField !in d || d[o.ivField].Null?
  }

  /** One iteration of the decoders' `fields.forEach`: truthy values only. */
  function DecodeField(c: Crypto, o: Options, f: string, d: Doc, path: Path): (r: Result<Doc>)
    ensures r.Ok? ==> r.value.Keys == d.Keys
    ensures r.Err? <==> path.BatchPath? && f in d && Truthy(d[f]) && IvSidecarMissing(o, d)
  {
    if f in d && Truthy(d[f]) then
      if path.BatchPath? && IvSidecarMissing(o, d) then Err(TypeError)
      else
        var stored := if path.SavePath? then Str(ToText(d[f])) else d[f];
        Ok(d[f := DecryptField(c, o, IvAt(d, o.ivField, f), stored)])
    else Ok(d)
  }

  function DecodePrefix(c: Crypto, o: Options, d: Doc, n: nat, path: Path): (r: Result<Doc>)
    requires n <= |o.fields|
    ensures r.Ok? ==> r.value.Keys == d.Keys
    ensures path.SavePath? ==> r.Ok?
  {
    if n == 0 then Ok(d)
    else
      match DecodePrefix(c, o, d, n - 1, path)
      case Err(e) => Err(e)
      case Ok(prev) => DecodeField(c, o, o.fields[n - 1], prev, path)
  }

  /** `post('save')` and `post('init')`, whose bodies are the same. */
  function DecodeStored(c: Crypto, o: Options, d: Doc): (r: Doc)
    ensures r.Keys == d.Keys
  {
    DecodePrefix(c, o, d, |o.fields|, SavePath).value
  }

  function DecodeItem(c: Crypto, o: Options, item: Value): (r: Result<Value>)
    ensures item.Null? ==> r == Err(TypeError)
    ensures !item.Obj? && !item.Null? ==> r == Ok(item)
    ensures r.Ok? ==> (r.value.Obj? <==> item.Obj?)
  {
    match item
    case Obj(m) =>
      (match DecodePrefix(c, o, m, |o.fields|, BatchPath)
       case Ok(e) => Ok(Obj(e))
       case Err(e) => Err(e))
    // `doc[field]` on null
    case Null => Err(TypeError)
    case _ => Ok(item)
  }

  function DecodeItems(c: Crypto, o: Options, items: seq<Value>, n: nat): (r: Result<seq<Value>>)
    requires n <= |items|
    ensures r.Err? <==> exists i :: 0 <= i < n && DecodeItem(c, o, items[i]).Err?
    ensures r.Ok? ==> |r.value| == n
    ensures r.Ok? ==> forall i :: 0 <= i < n ==> DecodeItem(c, o, items[i]) == Ok(r.value[i])
  {
    if n == 0 then Ok([])
    else
      match DecodeItems(c, o, items, n - 1)
      case Err(e) => Err(e)
      case Ok(prev) =>
        match DecodeItem(c, o, items[n - 1])
        case Err(e) => Err(e)
        case Ok(v) => Ok(prev + [v])
  }

  /** `post('insertMany')`. */
  function PostInsertMany(c: Crypto, o: Options, docs: seq<Value>): (r: Result<seq<Value>>)
    ensures r.Ok? ==> |r.value| == |docs|
    ensures r.Ok? ==> forall i :: 0 <= i < |docs| ==> DecodeItem(c, o, docs[i]) == Ok(r.value[i])
    ensures r.Err? <==> exists i :: 0 <= i < |docs| && DecodeItem(c, o, docs[i]).Err?
  {
    if |docs| == 0 then Ok(docs) else DecodeItems(c, o, docs, |docs|)
  }
}
