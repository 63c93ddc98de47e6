/**
 * The read-side views that strip the sidecars: `customDataAggregate`, run by
 * `post('aggregate')` on every result row, and the `toJSON` method.
 *
 * Both test `typeof x == 'object' && !Array.isArray(x)` before calling
 * `x.hasOwnProperty(hashField)`, which lets `null` through and throws. The members
 * suffixed `AsWritten` model that; the plain members are the evidently intended views,
 * which skip `null` children.
 */
module SidecarView {
  import opened Outcomes
  import opened Json
  import opened Config
  import opened Cipher
  import opened DocCodec
  import opened CodecProofs

  /** The keys `for (const field in v)` visits: an object's own keys, none otherwise. */
  function Enumerated(v: Value): set<string> {
    if v.Obj? then v.fields.Keys else {}
  }

  /** A record that carries a digest sidecar: every field named in the digest sidecar is
      decrypted with the IV recorded for it, and both sidecars are deleted. */
  function DecodeAndStrip(c: Crypto, o: Options, m: map<string, Value>): (r: map<string, Value>)
    requires o.hashField in m
    ensures r.Keys == m.Keys - {o.hashField, o.ivField}
    ensures forall k :: k in r && k !in Enumerated(m[o.hashField]) ==> r[k] == m[k]
  {
    map k | k in m && k != o.hashField && k != o.ivField ::
      if k in Enumerated(m[o.hashField]) then DecryptField(c, o, IvAt(m, o.ivField, k), m[k]) else m[k]
  }

  /** A field the digest sidecar names, holding the ciphertext of `p` under the IV recorded
      for it, reads back as `p`. */
  lemma DecodeAndStripRecorded(c: Crypto, o: Options, m: map<string, Value>, k: string, iv: Iv, p: string)
    requires Lawful(c)
    requires o.hashField in m && m[o.hashField].Obj? && k in m[o.hashField].fields
    requires k in m && k != o.hashField && k != o.ivField
    requires IvAt(m, o.ivField, k) == iv && m[k] == Str(Seal(c, o, iv, p))
    ensures k in DecodeAndStrip(c, o, m) && DecodeAndStrip(c, o, m)[k] == Str(p)
  {
    DecryptFieldRoundTrip(c, o, iv, p);
  }

  /** A non-array object child that carries a digest sidecar is decoded and stripped; any
      other value is left alone. */
  function DecodeChild(c: Crypto, o: Options, v: Value): (r: Value)
    ensures r.Obj? <==> v.Obj?
    ensures r.Obj? ==> o.hashField !in r.fields && (o.hashField in v.fields ==> o.ivField !in r.fields)
    ensures r != v ==> v.Obj? && o.hashField in v.fields
  {
    if v.Obj? && o.hashField in v.fields then Obj(DecodeAndStrip(c, o, v.fields)) else v
  }

  /** `customDataAggregate` as evidently intended: a row with a top-level digest sidecar
      is decoded in place; otherwise each object-valued column carrying one is. */
  function CustomDataAggregate(c: Crypto, o: Options, data: Doc): (r: Doc)
    ensures o.hashField in data ==> r.Keys == data.Keys - {o.hashField, o.ivField}
    ensures o.hashField !in data ==> r.Keys == data.Keys
    ensures o.hashField !in r
    ensures o.hashField in data ==> o.ivField !in r
    ensures o.hashField !in data ==> forall k :: k in r && r[k].Obj? ==> o.hashField !in r[k].fields
    ensures o.hashField !in data ==>
              forall k :: k in data && !(data[k].Obj? && o.hashField in data[k].fields) ==> r[k] == data[k]
    ensures o.hashField !in data ==>
              forall k :: k in data && data[k].Obj? && o.hashField in data[k].fields ==>
                r[k].Obj? && r[k].fields.Keys == data[k].fields.Keys - {o.hashField, o.ivField}
    ensures o.hashField in data ==> r == DecodeAndStrip(c, o, data)
    ensures o.hashField !in data ==>
              forall k :: k in data && data[k].Obj? && o.hashField in data[k].fields ==>
                r[k] == Obj(DecodeAndStrip(c, o, data[k].fields))
  {
    if o.hashField in data then DecodeAndStrip(c, o, data)
    else map k | k in data :: DecodeChild(c, o, data[k])
  }

  /** A row on which the `else` branch meets `null.hasOwnProperty(...)`. */
  predicate NullColumn(o: Options, data: Doc) {
    o.hashField !in data && exists k :: k in data && data[k].Null?
  }

  /** `customDataAggregate` as written: it throws exactly on rows with a `null` column and
      no top-level digest sidecar, and otherwise agrees with the intended view. */
  function CustomDataAggregateAsWritten(c: Crypto, o: Options, data: Doc): (r: Result<Doc>)
    ensures r.Err? <==> NullColumn(o, data)
    ensures r.Err? ==> r.error == TypeError
    ensures r.Ok? ==> r.value == CustomDataAggregate(c, o, data)
  {
    if NullColumn(o, data) then Err(TypeError) else Ok(CustomDataAggregate(c, o, data))
  }

  /** `post('aggregate')` as evidently intended: every row is decoded. */
  function PostAggregate(c: Crypto, o: Options, rows: seq<Doc>): (r: seq<Doc>)
    ensures |r| == |rows|
    ensures forall i :: 0 <= i < |rows| ==> r[i] == CustomDataAggregate(c, o, rows[i])
  {
    seq(|rows|, i requires 0 <= i < |rows| => CustomDataAggregate(c, o, rows[i]))
  }

  /** `post('aggregate')` as written: the `try` encloses the whole loop, so the first row
      that throws ends it and that row and every later one stay encrypted. */
  function PostAggregateAsWritten(c: Crypto, o: Options, rows: seq<Doc>): (r: seq<Doc>)
    ensures |r| == |rows|
    ensures rows != [] && NullColumn(o, rows[0]) ==> r == rows
    ensures rows != [] && !NullColumn(o, rows[0]) ==> r[0] == CustomDataAggregate(c, o, rows[0])
    ensures forall i :: 0 <= i < |rows| ==> r[i] == rows[i] || r[i] == CustomDataAggregate(c, o, rows[i])
    decreases |rows|
  {
    if rows == [] then []
    else
      match CustomDataAggregateAsWritten(c, o, rows[0])
      case Err(_) => rows
      case Ok(row) => [row] + PostAggregateAsWritten(c, o, rows[1..])
  }

  /** Rows up to the first one with a `null` column are decoded; from it on, rows are
      returned untouched. */
  lemma {:induction false} PostAggregateAsWrittenStops(c: Crypto, o: Options, rows: seq<Doc>, n: nat)
    requires n <= |rows|
    requires forall i :: 0 <= i < n ==> !NullColumn(o, rows[i])
    requires n < |rows| ==> NullColumn(o, rows[n])
    ensures forall i :: 0 <= i < n ==> PostAggregateAsWritten(c, o, rows)[i] == CustomDataAggregate(c, o, rows[i])
    ensures forall i :: n <= i < |rows| ==> PostAggregateAsWritten(c, o, rows)[i] == rows[i]
    decreases n
  {
    if rows == [] {
    } else if n == 0 {
    } else {
      PostAggregateAsWrittenStops(c, o, rows[1..], n - 1);
      var tail := PostAggregateAsWritten(c, o, rows[1..]);
      assert PostAggregateAsWritten(c, o, rows) == [CustomDataAggregate(c, o, rows[0])] + tail;
      forall i | 0 < i < |rows|
        ensures PostAggregateAsWritten(c, o, rows)[i] == tail[i - 1]
      {
      }
    }
  }

  /** Without `null` columns the hook as written decodes every row. */
  lemma PostAggregateAsWrittenAgrees(c: Crypto, o: Options, rows: seq<Doc>)
    requires forall i :: 0 <= i < |rows| ==> !NullColumn(o, rows[i])
    ensures PostAggregateAsWritten(c, o, rows) == PostAggregate(c, o, rows)
  {
    PostAggregateAsWrittenStops(c, o, rows, |rows|);
  }

  /** `toJSON`'s stripping of one column: a non-array object child carrying a digest
      sidecar loses both sidecars. */
  function StripChild(o: Options, v: Value): (r: Value)
    ensures r.Obj? <==> v.Obj?
    ensures r.Obj? ==> o.hashField !in r.fields
    ensures r != v ==> v.Obj? && o.hashField in v.fields && r.fields == v.fields - {o.hashField, o.ivField}
  {
    if v.Obj? && o.hashField in v.fields then Obj(v.fields - {o.hashField, o.ivField}) else v
  }

  /** `toJSON` as evidently intended: with `hideIV` the top-level sidecars go and so do
      those of every object column that has a digest sidecar; without it, nothing
      changes. */
  function ToJson(o: Options, obj: Doc): (r: Doc)
    ensures !o.hideIV ==> r == obj
    ensures o.hideIV ==> r.Keys == obj.Keys - {o.hashField, o.ivField}
    ensures o.hideIV ==> forall k :: k in r && r[k].Obj? ==> o.hashField !in r[k].fields
    ensures o.hideIV ==> forall k :: k in r && !(obj[k].Obj? && o.hashField in obj[k].fields) ==> r[k] == obj[k]
    ensures o.hideIV ==> forall k :: k in r && obj[k].Obj? && o.hashField in obj[k].fields ==>
                           r[k] == Obj(obj[k].fields - {o.hashField, o.ivField})
  {
    if !o.hideIV then obj
    else
      var top := obj - {o.hashField, o.ivField};
      map k | k in top :: StripChild(o, top[k])
  }

  /** The column `toJSON` meets as `null.hasOwnProperty(...)`: any top-level `null` other
      than the deleted sidecars. */
  predicate NullAfterDelete(o: Options, obj: Doc) {
    exists k :: k in obj && k != o.hashField && k != o.ivField && obj[k].Null?
  }

  /** `toJSON` as written: with `hideIV` it throws on a document with a `null` column. */
  function ToJsonAsWritten(o: Options, obj: Doc): (r: Result<Doc>)
    ensures r.Err? <==> o.hideIV && NullAfterDelete(o, obj)
    ensures r.Err? ==> r.error == TypeError
    ensures r.Ok? ==> r.value == ToJson(o, obj)
  {
    if o.hideIV && NullAfterDelete(o, obj) then Err(TypeError) else Ok(ToJson(o, obj))
  }

  /** Stripping twice strips nothing more. */
  lemma ToJsonIdempotent(o: Options, obj: Doc)
    ensures ToJson(o, ToJson(o, obj)) == ToJson(o, obj)
  {
    if o.hideIV {
      var once := ToJson(o, obj);
      forall k | k in once
        ensures StripChild(o, once[k]) == once[k]
      {
      }
    }
  }

  /** The user's view of a document: no key is a sidecar name, no object column carries
      a digest sidecar, and every declared field that gets encrypted is a string. */
  ghost predicate PlainDoc(o: Options, d: Doc) {
    && o.hashField !in d
    && o.ivField !in d
    && (forall k :: k in d && d[k].Obj? ==> o.hashField !in d[k].fields)
    && (forall f :: f in o.fields && f in d && Truthy(d[f]) ==> d[f].Str?)
  }

  /** One column of a saved document after decoding and stripping. */
  lemma DecodeAndStripSavedAt(c: Crypto, o: Options, ivs: IvSource, d: Doc, k: string)
    requires Lawful(c)
    requires WellFormed(o)
    requires PlainDoc(o, d)
    requires k in d
    ensures o.hashField in PreSave(c, o, ivs, d)
    ensures k in DecodeAndStrip(c, o, PreSave(c, o, ivs, d))
    ensures DecodeAndStrip(c, o, PreSave(c, o, ivs, d))[k] == d[k]
  {
    var s := PreSave(c, o, ivs, d);
    PreSaveEncodes(c, o, ivs, d);
    if k in o.fields && Encodes(d, k) {
      assert k in s[o.hashField].fields;
      assert IvAt(s, o.ivField, k) == ivs(k);
      assert d[k] == Str(ToText(d[k]));
      DecodeAndStripRecorded(c, o, s, k, ivs(k), ToText(d[k]));
    } else {
      assert k !in HashEntries(c, d, o.fields);
    }
  }

  /** Decrypting the stored form of a saved document and deleting its sidecars gives the
      document back, whatever IVs the save drew. */
  lemma DecodeAndStripSaved(c: Crypto, o: Options, ivs: IvSource, d: Doc)
    requires Lawful(c)
    requires WellFormed(o)
    requires PlainDoc(o, d)
    ensures o.hashField in PreSave(c, o, ivs, d)
    ensures DecodeAndStrip(c, o, PreSave(c, o, ivs, d)) == d
  {
    var s := PreSave(c, o, ivs, d);
    assert s.Keys == d.Keys + {o.hashField, o.ivField};
    var r := DecodeAndStrip(c, o, s);
    forall k | k in d
      ensures k in r && r[k] == d[k]
    {
      DecodeAndStripSavedAt(c, o, ivs, d, k);
    }
    assert r.Keys == d.Keys;
  }

  /** `post('aggregate')` on a row that is a saved document returns the document. */
  lemma AggregateAfterSave(c: Crypto, o: Options, ivs: IvSource, d: Doc)
    requires Lawful(c)
    requires WellFormed(o)
    requires PlainDoc(o, d)
    ensures CustomDataAggregate(c, o, PreSave(c, o, ivs, d)) == d
  {
    DecodeAndStripSaved(c, o, ivs, d);
  }

  /** A row without a digest sidecar (a `$lookup` result, say) whose column `k` holds a
      saved document gets that document back in column `k`. */
  lemma AggregateJoinedColumn(c: Crypto, o: Options, ivs: IvSource, d: Doc, row: Doc, k: string)
    requires Lawful(c)
    requires WellFormed(o)
    requires PlainDoc(o, d)
    requires o.hashField !in row
    requires k in row && row[k] == Obj(PreSave(c, o, ivs, d))
    ensures k in CustomDataAggregate(c, o, row)
    ensures CustomDataAggregate(c, o, row)[k] == Obj(d)
  {
    DecodeAndStripSaved(c, o, ivs, d);
  }

  /** Saving, loading (`post('init')`) and serialising with `hideIV` gives back the
      document the user saved. */
  lemma SaveLoadViewRestores(c: Crypto, o: Options, ivs: IvSource, d: Doc)
    requires Lawful(c)
    requires WellFormed(o)
    requires o.hideIV
    requires PlainDoc(o, d)
    ensures ToJson(o, DecodeStored(c, o, PreSave(c, o, ivs, d))) == d
  {
    SaveThenLoadRestores(c, o, ivs, d);
    var loaded := DecodeStored(c, o, PreSave(c, o, ivs, d));
    var r := ToJson(o, loaded);
    forall k | k in d
      ensures r[k] == d[k]
    {
      assert loaded[k] == d[k];
    }
  }

  /** A single `null` column makes `toJSON` as written throw where the intended view
      returns the document unchanged. */
  lemma ToJsonNullColumn(o: Options, k: string)
    requires o.hideIV
    requires k != o.hashField && k != o.ivField
    ensures ToJsonAsWritten(o, map[k := Null]) == Err(TypeError)
    ensures ToJson(o, map[k := Null]) == map[k := Null]
  {
    assert map[k := Null][k].Null?;
  }

  /** A `null` column in the first aggregate row leaves a saved document in the second row
      encrypted, sidecars included, where the intended hook decodes it. */
  lemma AggregateNullRowHidesNext(c: Crypto, o: Options, ivs: IvSource, d: Doc, k: string)
    requires Lawful(c)
    requires WellFormed(o)
    requires PlainDoc(o, d)
    requires k != o.hashField
    ensures PostAggregateAsWritten(c, o, [map[k := Null], PreSave(c, o, ivs, d)])[1] == PreSave(c, o, ivs, d)
    ensures PostAggregate(c, o, [map[k := Null], PreSave(c, o, ivs, d)])[1] == d
    ensures PreSave(c, o, ivs, d) != d
  {
    var rows := [map[k := Null], PreSave(c, o, ivs, d)];
    assert map[k := Null][k].Null?;
    PostAggregateAsWrittenStops(c, o, rows, 0);
    AggregateAfterSave(c, o, ivs, d);
    PreSaveEncodes(c, o, ivs, d);
  }
}
