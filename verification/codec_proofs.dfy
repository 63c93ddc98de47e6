/**
 * What the document hooks promise: the sidecars the write side records, the keys it
 * leaves alone, and that the read side undoes it.
 */
module CodecProofs {
  import opened Outcomes
  import opened Json
  import opened Config
  import opened Cipher
  import opened DocCodec

  /** The hash sidecar the write side records for the fields `fs` of `d`. */
  function HashEntries(c: Crypto, d: Doc, fs: seq<string>): map<string, Value> {
    map f | f in fs && Encodes(d, f) :: Str(c.digest(ToText(d[f])))
  }

  /** The IV sidecar the write side records for the fields `fs` of `d`. */
  function IvEntries(ivs: IvSource, d: Doc, fs: seq<string>): map<string, Value> {
    map f | f in fs && Encodes(d, f) :: Str(ivs(f))
  }

  /** `s` is `d` after the encoder has handled exactly the fields `fs`. */
  ghost predicate EncodedUpTo(c: Crypto, o: Options, ivs: IvSource, d: Doc, fs: seq<string>, s: Doc) {
    && s.Keys == d.Keys + {o.hashField, o.ivField}
    && s[o.hashField] == Obj(HashEntries(c, d, fs))
    && s[o.ivField] == Obj(IvEntries(ivs, d, fs))
    && forall k :: k in d && k != o.hashField && k != o.ivField ==>
         s[k] == (if k in fs && Encodes(d, k) then Str(Seal(c, o, ivs(k), ToText(d[k]))) else d[k])
  }

  /** Every declared field among the first `n` that the encoder takes has a text the
      cipher accepts. */
  ghost predicate Encodable(o: Options, d: Doc, n: nat, path: Path)
    requires n <= |o.fields|
  {
    forall i :: 0 <= i < n && Encodes(d, o.fields[i]) ==> PlainText(d[o.fields[i]], path).Some?
  }

  lemma EncodableStep(o: Options, d: Doc, n: nat, path: Path)
    requires 0 < n <= |o.fields|
    ensures Encodable(o, d, n, path) <==>
              Encodable(o, d, n - 1, path) &&
              (Encodes(d, o.fields[n - 1]) ==> PlainText(d[o.fields[n - 1]], path).Some?)
  {
    if Encodable(o, d, n - 1, path) && (Encodes(d, o.fields[n - 1]) ==> PlainText(d[o.fields[n - 1]], path).Some?) {
      forall i | 0 <= i < n && Encodes(d, o.fields[i])
        ensures PlainText(d[o.fields[i]], path).Some?
      {
      }
    }
  }

  lemma HashEntriesExtend(c: Crypto, d: Doc, before: seq<string>, f: string)
    ensures HashEntries(c, d, before + [f]) ==
              if Encodes(d, f) then HashEntries(c, d, before)[f := Str(c.digest(ToText(d[f])))]
              else HashEntries(c, d, before)
  {
    var after := before + [f];
    assert forall k :: k in after <==> k in before || k == f;
  }

  lemma IvEntriesExtend(ivs: IvSource, d: Doc, before: seq<string>, f: string)
    ensures IvEntries(ivs, d, before + [f]) ==
              if Encodes(d, f) then IvEntries(ivs, d, before)[f := Str(ivs(f))]
              else IvEntries(ivs, d, before)
  {
    var after := before + [f];
    assert forall k :: k in after <==> k in before || k == f;
  }

  /** One loop iteration extends the handled fields by `f`. */
  lemma EncodeFieldStep(c: Crypto, o: Options, ivs: IvSource, d: Doc, before: seq<string>, f: string, s: Doc, path: Path)
    requires o.hashField != o.ivField && f != o.hashField && f != o.ivField && f !in before
    requires EncodedUpTo(c, o, ivs, d, before, s)
    ensures EncodeField(c, o, ivs, f, s, path).Ok? <==> !(Encodes(d, f) && PlainText(d[f], path).None?)
    ensures EncodeField(c, o, ivs, f, s, path).Ok? ==>
              EncodedUpTo(c, o, ivs, d, before + [f], EncodeField(c, o, ivs, f, s, path).value)
  {
    var after := before + [f];
    HashEntriesExtend(c, d, before, f);
    IvEntriesExtend(ivs, d, before, f);
    assert Encodes(s, f) <==> Encodes(d, f);
    if Encodes(d, f) {
      assert s[f] == d[f];
      if PlainText(d[f], path).Some? {
        var text := ToText(d[f]);
        var withHash := PutIn(s, o.hashField, f, Str(c.digest(text)));
        var withIv := PutIn(withHash, o.ivField, f, Str(ivs(f)));
        var r := withIv[f := Str(Seal(c, o, ivs(f), text))];
        assert EncodeField(c, o, ivs, f, s, path) == Ok(r);
        assert r[o.hashField] == Obj(HashEntries(c, d, after));
        assert r[o.ivField] == Obj(IvEntries(ivs, d, after));
        forall k | k in d && k != o.hashField && k != o.ivField
          ensures r[k] == (if k in after && Encodes(d, k) then Str(Seal(c, o, ivs(k), ToText(d[k]))) else d[k])
        {
          if k != f {
            assert r[k] == s[k];
          }
        }
      }
    }
  }

  /** The loop over the first `n` declared fields, described key by key. */
  lemma {:induction false} EncodePrefixSpec(c: Crypto, o: Options, ivs: IvSource, d: Doc, n: nat, path: Path)
    requires WellFormed(o)
    requires n <= |o.fields|
    ensures EncodePrefix(c, o, ivs, ResetSidecars(o, d), n, path).Ok? <==> Encodable(o, d, n, path)
    ensures EncodePrefix(c, o, ivs, ResetSidecars(o, d), n, path).Ok? ==>
              EncodedUpTo(c, o, ivs, d, o.fields[..n], EncodePrefix(c, o, ivs, ResetSidecars(o, d), n, path).value)
  {
    var d0 := ResetSidecars(o, d);
    if n == 0 {
      assert o.fields[..0] == [];
      assert HashEntries(c, d, []) == map[];
      assert IvEntries(ivs, d, []) == map[];
    } else {
      EncodePrefixSpec(c, o, ivs, d, n - 1, path);
      EncodableStep(o, d, n, path);
      var f := o.fields[n - 1];
      var before := o.fields[..n - 1];
      assert o.fields[..n] == before + [f];
      assert f !in before;
      match EncodePrefix(c, o, ivs, d0, n - 1, path)
      case Err(_) => {
      }
      case Ok(s) => {
        EncodeFieldStep(c, o, ivs, d, before, f, s, path);
      }
    }
  }

  /** `pre('save')`: both sidecars are rebuilt from scratch; each declared field that passes
      the guard gets the digest of its text and its IV recorded and is replaced by the
      ciphertext; empty or absent fields get no entry; every other key is untouched. */
  lemma PreSaveEncodes(c: Crypto, o: Options, ivs: IvSource, d: Doc)
    requires WellFormed(o)
    ensures PreSave(c, o, ivs, d)[o.hashField] == Obj(HashEntries(c, d, o.fields))
    ensures PreSave(c, o, ivs, d)[o.ivField] == Obj(IvEntries(ivs, d, o.fields))
    ensures forall f :: f in o.fields && !Encodes(d, f) ==>
              f !in PreSave(c, o, ivs, d)[o.hashField].fields && f !in PreSave(c, o, ivs, d)[o.ivField].fields
    ensures forall k :: k in d && k != o.hashField && k != o.ivField ==>
              PreSave(c, o, ivs, d)[k] ==
                (if k in o.fields && Encodes(d, k) then Str(Seal(c, o, ivs(k), ToText(d[k]))) else d[k])
  {
    EncodePrefixSpec(c, o, ivs, d, |o.fields|, SavePath);
    assert o.fields[..|o.fields|] == o.fields;
  }

  /** The hash sidecar depends on the plaintexts only: two documents that agree on the
      declared fields get the same hashes whatever IVs are drawn. */
  lemma PreSaveHashIgnoresIv(c: Crypto, o: Options, ivs1: IvSource, ivs2: IvSource, d1: Doc, d2: Doc)
    requires WellFormed(o)
    requires forall f :: f in o.fields ==> (f in d1 <==> f in d2) && (f in d1 ==> d1[f] == d2[f])
    ensures PreSave(c, o, ivs1, d1)[o.hashField] == PreSave(c, o, ivs2, d2)[o.hashField]
  {
    PreSaveEncodes(c, o, ivs1, d1);
    PreSaveEncodes(c, o, ivs2, d2);
    HashEntriesAgree(c, d1, d2, o.fields);
  }

  lemma HashEntriesAgree(c: Crypto, d1: Doc, d2: Doc, fs: seq<string>)
    requires forall f :: f in fs ==> (f in d1 <==> f in d2) && (f in d1 ==> d1[f] == d2[f])
    ensures HashEntries(c, d1, fs) == HashEntries(c, d2, fs)
  {
    assert forall f :: f in fs ==> (Encodes(d1, f) <==> Encodes(d2, f));
  }

  /** What a decoder leaves under the declared field `f` of the stored document `s`. */
  function ReadBack(c: Crypto, o: Options, s: Doc, f: string, path: Path): Value
    requires f in s
  {
    if Truthy(s[f]) then
      DecryptField(c, o, IvAt(s, o.ivField, f), if path.SavePath? then Str(ToText(s[f])) else s[f])
    else s[f]
  }

  ghost predicate DecodedUpTo(c: Crypto, o: Options, s: Doc, fs: seq<string>, t: Doc, path: Path) {
    && t.Keys == s.Keys
    && forall k :: k in s ==> t[k] == (if k in fs then ReadBack(c, o, s, k, path) else s[k])
  }

  /** A decoder over the first `n` declared fields, described key by key. */
  lemma {:induction false} DecodePrefixSpec(c: Crypto, o: Options, s: Doc, n: nat, path: Path)
    requires DistinctFields(o) && o.ivField !in o.fields
    requires n <= |o.fields|
    ensures DecodePrefix(c, o, s, n, path).Err? <==>
              path.BatchPath? && IvSidecarMissing(o, s) &&
              exists i :: 0 <= i < n && o.fields[i] in s && Truthy(s[o.fields[i]])
    ensures DecodePrefix(c, o, s, n, path).Ok? ==>
              DecodedUpTo(c, o, s, o.fields[..n], DecodePrefix(c, o, s, n, path).value, path)
  {
    if n == 0 {
      assert o.fields[..0] == [];
    } else {
      DecodePrefixSpec(c, o, s, n - 1, path);
      var f := o.fields[n - 1];
      var before := o.fields[..n - 1];
      assert o.fields[..n] == before + [f];
      assert f !in before;
      assert forall k :: k in o.fields[..n] <==> k in before || k == f;
      match DecodePrefix(c, o, s, n - 1, path)
      case Err(_) => {
      }
      case Ok(t) => {
        assert f != o.ivField;
        assert f in t <==> f in s;
        if f in s {
          assert t[f] == s[f];
          if o.ivField in s {
            assert t[o.ivField] == s[o.ivField];
          }
          assert IvAt(t, o.ivField, f) == IvAt(s, o.ivField, f);
          assert IvSidecarMissing(o, t) == IvSidecarMissing(o, s);
        }
      }
    }
  }

  /** `post('save')` and `post('init')`: only declared fields with a truthy value are
      touched, each becoming `decryptField` of its text under its recorded IV. */
  lemma DecodeStoredSpec(c: Crypto, o: Options, s: Doc)
    requires WellFormed(o)
    ensures DecodeStored(c, o, s).Keys == s.Keys
    ensures forall k :: k in s ==>
              DecodeStored(c, o, s)[k] == (if k in o.fields then ReadBack(c, o, s, k, SavePath) else s[k])
  {
    DecodePrefixSpec(c, o, s, |o.fields|, SavePath);
    assert o.fields[..|o.fields|] == o.fields;
  }

  /** Where the write side recorded an IV, the read side finds it. */
  lemma IvAtRecorded(c: Crypto, o: Options, ivs: IvSource, d: Doc, s: Doc, k: string)
    requires WellFormed(o)
    requires EncodedUpTo(c, o, ivs, d, o.fields, s)
    ensures IvAt(s, o.ivField, k) == (if k in o.fields && Encodes(d, k) then ivs(k) else "")
  {
  }

  /** Round trip through the database: what `post('save')` or `post('init')` makes of what
      `pre('save')` stored is the original document, every truthy declared value turned
      into its string form, plus the two sidecars. */
  lemma SaveThenLoadRestores(c: Crypto, o: Options, ivs: IvSource, d: Doc)
    requires Lawful(c)
    requires WellFormed(o)
    ensures DecodeStored(c, o, PreSave(c, o, ivs, d)).Keys == d.Keys + {o.hashField, o.ivField}
    ensures forall k :: k in d && k != o.hashField && k != o.ivField ==>
              DecodeStored(c, o, PreSave(c, o, ivs, d))[k] ==
                (if k in o.fields && Truthy(d[k]) then Str(ToText(d[k])) else d[k])
    ensures forall f :: f in o.fields && f in d && d[f].Str? ==>
              DecodeStored(c, o, PreSave(c, o, ivs, d))[f] == d[f]
  {
    var s := PreSave(c, o, ivs, d);
    EncodePrefixSpec(c, o, ivs, d, |o.fields|, SavePath);
    assert o.fields[..|o.fields|] == o.fields;
    DecodeStoredSpec(c, o, s);
    var back := DecodeStored(c, o, s);
    forall k | k in d && k != o.hashField && k != o.ivField
      ensures back[k] == (if k in o.fields && Truthy(d[k]) then Str(ToText(d[k])) else d[k])
    {
      if k in o.fields {
        IvAtRecorded(c, o, ivs, d, s, k);
        if Encodes(d, k) {
          var text := ToText(d[k]);
          ShouldEncodeHasText(d[k]);
          SealTruthy(c, o, ivs(k), text);
          DecryptFieldRoundTrip(c, o, ivs(k), text);
        }
      }
    }
  }

  /** The write side of a bulk insert accepts a document only if every declared field it
      encrypts holds a string. */
  ghost predicate BatchAcceptable(o: Options, item: Value) {
    && !item.Null?
    && (item.Obj? ==> forall f :: f in o.fields && Encodes(item.fields, f) ==> item.fields[f].Str?)
  }

  lemma EncodeItemSpec(c: Crypto, o: Options, ivs: IvSource, item: Value)
    requires WellFormed(o)
    ensures EncodeItem(c, o, ivs, item).Ok? <==> BatchAcceptable(o, item)
  {
    if item.Obj? {
      var m := item.fields;
      EncodePrefixSpec(c, o, ivs, m, |o.fields|, BatchPath);
      if Encodable(o, m, |o.fields|, BatchPath) {
        forall f | f in o.fields && Encodes(m, f)
          ensures m[f].Str?
        {
          var i :| 0 <= i < |o.fields| && o.fields[i] == f;
        }
      }
    }
  }

  /** `pre('insertMany')` succeeds exactly on a non-empty array whose every element the
      per-document encoder accepts. */
  lemma PreInsertManyAccepts(c: Crypto, o: Options, batchIvs: nat -> IvSource, docs: Value)
    requires WellFormed(o)
    ensures PreInsertMany(c, o, batchIvs, docs).Ok? <==>
              docs.Arr? && |docs.items| > 0 &&
              forall i :: 0 <= i < |docs.items| ==> BatchAcceptable(o, docs.items[i])
  {
    if docs.Arr? {
      forall i | 0 <= i < |docs.items| {
        EncodeItemSpec(c, o, batchIvs(i), docs.items[i]);
      }
    }
  }

  /** `pre('insertMany')` writes each object of an accepted batch exactly as `pre('save')`
      would, with that element's own IVs. */
  lemma PreInsertManyEncodes(c: Crypto, o: Options, batchIvs: nat -> IvSource, docs: Value, i: nat)
    requires WellFormed(o)
    requires PreInsertMany(c, o, batchIvs, docs).Ok?
    requires docs.Arr? && i < |docs.items| && docs.items[i].Obj?
    ensures PreInsertMany(c, o, batchIvs, docs).value[i] == Obj(PreSave(c, o, batchIvs(i), docs.items[i].fields))
  {
    var d := docs.items[i].fields;
    var ivs := batchIvs(i);
    EncodePrefixSpec(c, o, ivs, d, |o.fields|, BatchPath);
    EncodePrefixSpec(c, o, ivs, d, |o.fields|, SavePath);
    var b := EncodeDoc(c, o, ivs, d, BatchPath);
    assert b.Ok?;
    EncodedUnique(c, o, ivs, d, o.fields[..|o.fields|], b.value, PreSave(c, o, ivs, d));
  }

  /** The encoder's state after a given set of fields is determined by them. */
  lemma EncodedUnique(c: Crypto, o: Options, ivs: IvSource, d: Doc, fs: seq<string>, s: Doc, t: Doc)
    requires EncodedUpTo(c, o, ivs, d, fs, s) && EncodedUpTo(c, o, ivs, d, fs, t)
    ensures s == t
  {
    assert forall k :: k in s ==> s[k] == t[k];
  }

  /** `b` is what the bulk-insert round trip should give back for the element `a`. */
  ghost predicate Restored(o: Options, a: Value, b: Value) {
    if a.Obj? then
      && b.Obj?
      && b.fields.Keys == a.fields.Keys + {o.hashField, o.ivField}
      && forall k :: k in a.fields && k != o.hashField && k != o.ivField ==> b.fields[k] == a.fields[k]
    else b == a
  }

  lemma BatchDocRoundTrip(c: Crypto, o: Options, ivs: IvSource, m: Doc)
    requires Lawful(c)
    requires WellFormed(o)
    requires EncodeDoc(c, o, ivs, m, BatchPath).Ok?
    ensures DecodePrefix(c, o, EncodeDoc(c, o, ivs, m, BatchPath).value, |o.fields|, BatchPath).Ok?
    ensures Restored(o, Obj(m),
                     Obj(DecodePrefix(c, o, EncodeDoc(c, o, ivs, m, BatchPath).value, |o.fields|, BatchPath).value))
  {
    var e := EncodeDoc(c, o, ivs, m, BatchPath).value;
    EncodePrefixSpec(c, o, ivs, m, |o.fields|, BatchPath);
    assert o.fields[..|o.fields|] == o.fields;
    DecodePrefixSpec(c, o, e, |o.fields|, BatchPath);
    var t := DecodePrefix(c, o, e, |o.fields|, BatchPath).value;
    forall k | k in m && k != o.hashField && k != o.ivField
      ensures t[k] == m[k]
    {
      if k in o.fields {
        IvAtRecorded(c, o, ivs, m, e, k);
        if Encodes(m, k) {
          var i :| 0 <= i < |o.fields| && o.fields[i] == k;
          assert m[k].Str?;
          var text := ToText(m[k]);
          SealTruthy(c, o, ivs(k), text);
          DecryptFieldRoundTrip(c, o, ivs(k), text);
        }
      }
    }
  }

  /** Round trip of a bulk insert: `post('insertMany')` never fails on what
      `pre('insertMany')` produced, and gives every document back with its original values
      plus the two sidecars. */
  lemma InsertManyRoundTrip(c: Crypto, o: Options, batchIvs: nat -> IvSource, items: seq<Value>)
    requires Lawful(c)
    requires WellFormed(o)
    requires PreInsertMany(c, o, batchIvs, Arr(items)).Ok?
    ensures PostInsertMany(c, o, PreInsertMany(c, o, batchIvs, Arr(items)).value).Ok?
    ensures |PostInsertMany(c, o, PreInsertMany(c, o, batchIvs, Arr(items)).value).value| == |items|
    ensures forall i :: 0 <= i < |items| ==>
              Restored(o, items[i], PostInsertMany(c, o, PreInsertMany(c, o, batchIvs, Arr(items)).value).value[i])
  {
    var enc := PreInsertMany(c, o, batchIvs, Arr(items)).value;
    forall i | 0 <= i < |items|
      ensures DecodeItem(c, o, enc[i]).Ok? && Restored(o, items[i], DecodeItem(c, o, enc[i]).value)
    {
      assert EncodeItem(c, o, batchIvs(i), items[i]) == Ok(enc[i]);
      if items[i].Obj? {
        BatchDocRoundTrip(c, o, batchIvs(i), items[i].fields);
      }
    }
  }
}
