/**
 * `updateRecord`, the `pre` hook of `updateOne`, `updateMany` and `findOneAndUpdate`:
 * a declared field set in the payload, directly or under `$set`, is replaced by its
 * ciphertext and its digest and IV are written under dotted sidecar keys.
 */
module UpdateRewrite {
  import opened Outcomes
  import opened Json
  import opened Config
  import opened Cipher
  import opened Paths
  import opened DocCodec
  import opened CodecProofs

  const SetOperator := "$set"

  /** The value the hook encrypts for `f`: the top-level entry if it passes the guard,
      else the `$set` entry if that one does. */
  function UpdateSource(m: Doc, f: string): Option<Value> {
    if f in m && ShouldEncode(m[f]) then Some(m[f])
    else if SetOperator in m && m[SetOperator].Obj? && f in m[SetOperator].fields
            && ShouldEncode(m[SetOperator].fields[f])
    then Some(m[SetOperator].fields[f])
    else None
  }

  /** One iteration of `fields.forEach` over the payload. */
  function UpdateField(c: Crypto, o: Options, ivs: IvSource, f: string, m: Doc): (r: Result<Doc>)
    ensures r.Err? <==> UpdateSource(m, f).Some? && !UpdateSource(m, f).value.Str?
    ensures r.Ok? ==> m.Keys <= r.value.Keys
  {
    match UpdateSource(m, f)
    case None => Ok(m)
    case Some(v) =>
      if !v.Str? then Err(TypeError)
      else
        Ok(m[HashKey(o, f) := Str(c.digest(v.s))]
            [IvKey(o, f) := Str(ivs(f))]
            [f := Str(Seal(c, o, ivs(f), v.s))])
  }

  function UpdatePrefix(c: Crypto, o: Options, ivs: IvSource, m: Doc, n: nat): (r: Result<Doc>)
    requires n <= |o.fields|
    ensures r.Ok? ==> m.Keys <= r.value.Keys
  {
    if n == 0 then Ok(m)
    else
      match UpdatePrefix(c, o, ivs, m, n - 1)
      case Err(e) => Err(e)
      case Ok(prev) => UpdateField(c, o, ivs, o.fields[n - 1], prev)
  }

  /** The hook: an object payload is rewritten; an array (pipeline) payload or a missing one
      is left as it is. */
  function PreUpdate(c: Crypto, o: Options, ivs: IvSource, update: Value): (r: Result<Value>)
    ensures !update.Obj? ==> r == Ok(update)
    ensures r.Ok? ==> (r.value.Obj? <==> update.Obj?)
    ensures r.Err? ==> r.error == TypeError
  {
    match update
    case Obj(m) =>
      (match UpdatePrefix(c, o, ivs, m, |o.fields|)
       case Ok(r) => Ok(Obj(r))
       case Err(_) => Err(TypeError))
    case _ => Ok(update)
  }

  /** The dotted sidecar keys of the fields `fs`. */
  function SidecarKeys(o: Options, fs: seq<string>): set<string> {
    (set f | f in fs :: HashKey(o, f)) + (set f | f in fs :: IvKey(o, f))
  }

  /** The source of `f` exists and is a string: the cipher accepts it. */
  predicate StringSource(m: Doc, f: string) {
    UpdateSource(m, f).Some? && UpdateSource(m, f).value.Str?
  }

  /** The keys the hook writes for the fields `fs`: each encrypted field and its two
      dotted sidecar keys. */
  function WrittenKeys(o: Options, m: Doc, fs: seq<string>): set<string> {
    (set f | f in fs && StringSource(m, f) :: f)
    + (set f | f in fs && StringSource(m, f) :: HashKey(o, f))
    + (set f | f in fs && StringSource(m, f) :: IvKey(o, f))
  }

  /** `t` is the payload `m` after the hook has handled exactly the fields `fs`. */
  ghost predicate UpdatedUpTo(c: Crypto, o: Options, ivs: IvSource, m: Doc, fs: seq<string>, t: Doc) {
    && t.Keys == m.Keys + WrittenKeys(o, m, fs)
    && (forall k :: k in m && k !in WrittenKeys(o, m, fs) ==> t[k] == m[k])
    && (forall f :: f in fs && UpdateSource(m, f).Some? ==>
          && UpdateSource(m, f).value.Str?
          && HashKey(o, f) in t && IvKey(o, f) in t && f in t
          && t[HashKey(o, f)] == Str(c.digest(UpdateSource(m, f).value.s))
          && t[IvKey(o, f)] == Str(ivs(f))
          && t[f] == Str(Seal(c, o, ivs(f), UpdateSource(m, f).value.s)))
  }

  /** The keys the hook writes for a new field collide with nothing written before. */
  lemma KeysFresh(o: Options, f: string, fs: seq<string>)
    requires WellFormed(o) && DotFree(o)
    requires f in o.fields && f !in fs
    requires forall g :: g in fs ==> g in o.fields
    ensures HashKey(o, f) !in SidecarKeys(o, fs) && IvKey(o, f) !in SidecarKeys(o, fs)
    ensures HashKey(o, f) != IvKey(o, f)
    ensures HashKey(o, f) !in o.fields && IvKey(o, f) !in o.fields
    ensures HashKey(o, f) != SetOperator && IvKey(o, f) != SetOperator
    ensures f !in SidecarKeys(o, fs) && SetOperator !in SidecarKeys(o, fs)
  {
    DotJoinHasDot(o.hashField, f);
    DotJoinHasDot(o.ivField, f);
    forall g | g in fs
      ensures HashKey(o, f) != HashKey(o, g) && HashKey(o, f) != IvKey(o, g)
      ensures IvKey(o, f) != HashKey(o, g) && IvKey(o, f) != IvKey(o, g)
      ensures f != HashKey(o, g) && f != IvKey(o, g)
      ensures SetOperator != HashKey(o, g) && SetOperator != IvKey(o, g)
    {
      if HashKey(o, f) == HashKey(o, g) { DotJoinInjective(o.hashField, f, o.hashField, g); }
      if HashKey(o, f) == IvKey(o, g) { DotJoinInjective(o.hashField, f, o.ivField, g); }
      if IvKey(o, f) == HashKey(o, g) { DotJoinInjective(o.ivField, f, o.hashField, g); }
      if IvKey(o, f) == IvKey(o, g) { DotJoinInjective(o.ivField, f, o.ivField, g); }
      DotJoinHasDot(o.hashField, g);
      DotJoinHasDot(o.ivField, g);
      assert '.' !in SetOperator;
    }
    if HashKey(o, f) == IvKey(o, f) { DotJoinInjective(o.hashField, f, o.ivField, f); }
  }

  lemma WrittenKeysExtend(o: Options, m: Doc, before: seq<string>, f: string)
    ensures WrittenKeys(o, m, before + [f]) ==
              WrittenKeys(o, m, before) + (if StringSource(m, f) then {f, HashKey(o, f), IvKey(o, f)} else {})
  {
    assert forall k :: k in before + [f] <==> k in before || k == f;
  }

  lemma WrittenKeysWithin(o: Options, m: Doc, fs: seq<string>)
    ensures forall k :: k in WrittenKeys(o, m, fs) ==> k in fs || k in SidecarKeys(o, fs)
  {
  }

  lemma SetOperatorNotSidecar(o: Options, fs: seq<string>)
    ensures SetOperator !in SidecarKeys(o, fs)
  {
    forall g | g in fs
      ensures SetOperator != HashKey(o, g) && SetOperator != IvKey(o, g)
    {
      DotJoinHasDot(o.hashField, g);
      DotJoinHasDot(o.ivField, g);
      assert '.' !in SetOperator;
    }
  }

  /** The source of the next field is read from an unchanged part of the payload. */
  lemma UpdateSourceKept(c: Crypto, o: Options, ivs: IvSource, m: Doc, before: seq<string>, f: string, t: Doc)
    requires WellFormed(o) && DotFree(o)
    requires f in o.fields && f !in before
    requires forall g :: g in before ==> g in o.fields
    requires UpdatedUpTo(c, o, ivs, m, before, t)
    ensures UpdateSource(t, f) == UpdateSource(m, f)
  {
    KeysFresh(o, f, before);
    SetOperatorNotSidecar(o, before);
    WrittenKeysWithin(o, m, before);
    assert f in t <==> f in m;
    assert SetOperator in t <==> SetOperator in m;
    if SetOperator in m {
      assert t[SetOperator] == m[SetOperator];
    }
  }

  lemma UpdateFieldStepSome(c: Crypto, o: Options, ivs: IvSource, m: Doc, before: seq<string>, f: string, t: Doc)
    requires WellFormed(o) && DotFree(o)
    requires f in o.fields && f !in before
    requires forall g :: g in before ==> g in o.fields
    requires UpdatedUpTo(c, o, ivs, m, before, t)
    requires StringSource(m, f)
    ensures UpdateField(c, o, ivs, f, t).Ok?
    ensures UpdatedUpTo(c, o, ivs, m, before + [f], UpdateField(c, o, ivs, f, t).value)
  {
    UpdateSourceKept(c, o, ivs, m, before, f, t);
    KeysFresh(o, f, before);
    WrittenKeysExtend(o, m, before, f);
    var after := before + [f];
    var text := UpdateSource(m, f).value.s;
    var r := t[HashKey(o, f) := Str(c.digest(text))][IvKey(o, f) := Str(ivs(f))][f := Str(Seal(c, o, ivs(f), text))];
    assert UpdateField(c, o, ivs, f, t) == Ok(r);
    forall k | k in m && k !in WrittenKeys(o, m, after)
      ensures r[k] == m[k]
    {
    }
    forall g | g in after && UpdateSource(m, g).Some?
      ensures UpdateSource(m, g).value.Str?
      ensures HashKey(o, g) in r && IvKey(o, g) in r && g in r
      ensures r[HashKey(o, g)] == Str(c.digest(UpdateSource(m, g).value.s))
      ensures r[IvKey(o, g)] == Str(ivs(g))
      ensures r[g] == Str(Seal(c, o, ivs(g), UpdateSource(m, g).value.s))
    {
      if g != f {
        KeysFresh(o, g, [f]);
        assert g in before;
      }
    }
  }

  lemma UpdateFieldStep(c: Crypto, o: Options, ivs: IvSource, m: Doc, before: seq<string>, f: string, t: Doc)
    requires WellFormed(o) && DotFree(o)
    requires f in o.fields && f !in before
    requires forall g :: g in before ==> g in o.fields
    requires UpdatedUpTo(c, o, ivs, m, before, t)
    ensures UpdateField(c, o, ivs, f, t).Ok? <==> !(UpdateSource(m, f).Some? && !StringSource(m, f))
    ensures UpdateField(c, o, ivs, f, t).Ok? ==>
              UpdatedUpTo(c, o, ivs, m, before + [f], UpdateField(c, o, ivs, f, t).value)
  {
    UpdateSourceKept(c, o, ivs, m, before, f, t);
    if StringSource(m, f) {
      UpdateFieldStepSome(c, o, ivs, m, before, f, t);
    } else if UpdateSource(m, f).None? {
      WrittenKeysExtend(o, m, before, f);
      var after := before + [f];
      assert forall k :: k in after <==> k in before || k == f;
    }
  }

  lemma {:induction false} UpdatePrefixSpec(c: Crypto, o: Options, ivs: IvSource, m: Doc, n: nat)
    requires WellFormed(o) && DotFree(o)
    requires n <= |o.fields|
    ensures UpdatePrefix(c, o, ivs, m, n).Err? <==>
              exists i :: 0 <= i < n && UpdateSource(m, o.fields[i]).Some? && !StringSource(m, o.fields[i])
    ensures UpdatePrefix(c, o, ivs, m, n).Ok? ==>
              UpdatedUpTo(c, o, ivs, m, o.fields[..n], UpdatePrefix(c, o, ivs, m, n).value)
  {
    if n == 0 {
      assert o.fields[..0] == [];
      assert WrittenKeys(o, m, []) == {};
    } else {
      UpdatePrefixSpec(c, o, ivs, m, n - 1);
      var f := o.fields[n - 1];
      var before := o.fields[..n - 1];
      assert o.fields[..n] == before + [f];
      assert f !in before;
      match UpdatePrefix(c, o, ivs, m, n - 1)
      case Err(_) => {
      }
      case Ok(t) => {
        UpdateFieldStep(c, o, ivs, m, before, f, t);
      }
    }
  }

  /** `updateRecord` on an object payload: it fails exactly when a declared field it would
      encrypt is not a string; otherwise every declared field set non-empty at the top
      level, or else under `$set`, gets `<hashField>.<f>` = digest, `<ivField>.<f>` = IV
      and `f` = ciphertext at the top level, and every other key, `$set` included, keeps
      its value. */
  lemma PreUpdateSpec(c: Crypto, o: Options, ivs: IvSource, m: Doc)
    requires WellFormed(o) && DotFree(o)
    ensures PreUpdate(c, o, ivs, Obj(m)).Err? <==>
              exists f :: f in o.fields && UpdateSource(m, f).Some? && !StringSource(m, f)
    ensures PreUpdate(c, o, ivs, Obj(m)).Ok? ==>
              UpdatedUpTo(c, o, ivs, m, o.fields, PreUpdate(c, o, ivs, Obj(m)).value.fields)
    ensures PreUpdate(c, o, ivs, Obj(m)).Ok? && SetOperator in m ==>
              PreUpdate(c, o, ivs, Obj(m)).value.fields[SetOperator] == m[SetOperator]
  {
    UpdatePrefixSpec(c, o, ivs, m, |o.fields|);
    assert o.fields[..|o.fields|] == o.fields;
    SetOperatorNotSidecar(o, o.fields);
    WrittenKeysWithin(o, m, o.fields);
  }

  lemma NotWritten(o: Options, m: Doc, fs: seq<string>, g: string)
    requires WellFormed(o) && DotFree(o)
    requires g in o.fields && UpdateSource(m, g).None?
    requires forall f :: f in fs ==> f in o.fields
    ensures g !in WrittenKeys(o, m, fs)
    ensures HashKey(o, g) !in WrittenKeys(o, m, fs)
    ensures IvKey(o, g) !in WrittenKeys(o, m, fs)
  {
    forall f | f in fs && StringSource(m, f)
      ensures g != f && HashKey(o, g) != f && IvKey(o, g) != f
      ensures g !in SidecarKeys(o, [f]) && HashKey(o, g) !in SidecarKeys(o, [f]) && IvKey(o, g) !in SidecarKeys(o, [f])
    {
      KeysFresh(o, g, [f]);
    }
  }

  /** A declared field the payload does not set keeps its stored ciphertext, digest and IV:
      neither it nor its dotted sidecar keys are touched. */
  lemma PreUpdateLeavesOtherFields(c: Crypto, o: Options, ivs: IvSource, m: Doc, g: string)
    requires WellFormed(o) && DotFree(o)
    requires g in o.fields && UpdateSource(m, g).None?
    requires PreUpdate(c, o, ivs, Obj(m)).Ok?
    ensures var r := PreUpdate(c, o, ivs, Obj(m)).value.fields;
      && (g in r <==> g in m) && (g in m ==> r[g] == m[g])
      && (HashKey(o, g) in r <==> HashKey(o, g) in m) && (HashKey(o, g) in m ==> r[HashKey(o, g)] == m[HashKey(o, g)])
      && (IvKey(o, g) in r <==> IvKey(o, g) in m) && (IvKey(o, g) in m ==> r[IvKey(o, g)] == m[IvKey(o, g)])
  {
    PreUpdateSpec(c, o, ivs, m);
    NotWritten(o, m, o.fields, g);
  }

  /** MongoDB applying the dotted key `side.f` of an update to a stored document whose
      `side` is absent or an object (elsewhere the server refuses the update). */
  function SetDotted(d: Doc, side: string, f: string, v: Value): (r: Doc)
    requires side !in d || d[side].Obj?
    ensures r.Keys == d.Keys + {side}
    ensures forall k :: k in d && k != side ==> r[k] == d[k]
  {
    var inner := if side in d then d[side].fields else map[];
    d[side := Obj(inner[f := v])]
  }

  /** The stored document `s` after MongoDB applies the three keys the hook wrote for `f`. */
  function ApplyEncrypted(o: Options, t: Doc, f: string, s: Doc): Doc
    requires HashKey(o, f) in t && IvKey(o, f) in t && f in t
    requires o.hashField != o.ivField
    requires o.hashField !in s || s[o.hashField].Obj?
    requires o.ivField !in s || s[o.ivField].Obj?
  {
    var withHash := SetDotted(s, o.hashField, f, t[HashKey(o, f)]);
    SetDotted(withHash, o.ivField, f, t[IvKey(o, f)])[f := t[f]]
  }

  /** An update of a declared field, once applied to a stored document, is read back by
      `post('init')` as the plaintext the update carried, and its digest is where the
      query rewrite looks for it. */
  lemma UpdateThenLoadRestores(c: Crypto, o: Options, ivs: IvSource, m: Doc, s: Doc, f: string)
    requires Lawful(c)
    requires WellFormed(o) && DotFree(o)
    requires f in o.fields && StringSource(m, f)
    requires PreUpdate(c, o, ivs, Obj(m)).Ok?
    requires o.hashField !in s || s[o.hashField].Obj?
    requires o.ivField !in s || s[o.ivField].Obj?
    ensures HashKey(o, f) in PreUpdate(c, o, ivs, Obj(m)).value.fields
    ensures IvKey(o, f) in PreUpdate(c, o, ivs, Obj(m)).value.fields
    ensures f in PreUpdate(c, o, ivs, Obj(m)).value.fields
    ensures DecodeStored(c, o, ApplyEncrypted(o, PreUpdate(c, o, ivs, Obj(m)).value.fields, f, s))[f] ==
              UpdateSource(m, f).value
    ensures Lookup(ApplyEncrypted(o, PreUpdate(c, o, ivs, Obj(m)).value.fields, f, s), HashKey(o, f)) ==
              Some(Str(c.digest(UpdateSource(m, f).value.s)))
  {
    PreUpdateSpec(c, o, ivs, m);
    var t := PreUpdate(c, o, ivs, Obj(m)).value.fields;
    var p := UpdateSource(m, f).value.s;
    var s1 := ApplyEncrypted(o, t, f, s);
    assert p != "";
    SealTruthy(c, o, ivs(f), p);
    assert s1[f] == Str(Seal(c, o, ivs(f), p));
    assert IvAt(s1, o.ivField, f) == ivs(f);
    DecodeStoredSpec(c, o, s1);
    DecryptFieldRoundTrip(c, o, ivs(f), p);
    LookupDotted(s1, o.hashField, f);
  }
}
