/**
 * `processFindQuery`, the `pre` hook of `find` and `findOne`: it force-includes the
 * sidecars in an explicit projection and rewrites equality tests on declared fields
 * into tests on their digests.
 */
module QueryRewrite {
  import opened Outcomes
  import opened Json
  import opened Config
  import opened Cipher
  import opened Paths
  import opened DocCodec
  import opened CodecProofs

  const OrOperator := "$or"
  const AndOperator := "$and"
  const EqOperator := "$eq"
  const Included := Num(1)

  /** `Object.keys(x)[0]`: JavaScript's key order is not part of a map, so the caller
      supplies it. A result that is not a key of the map stands for `undefined`. */
  type KeyOrder = map<string, Value> -> string

  /** `if (selectField && !selectField.hasOwnProperty(name)) selectField[name] = 1`, for
      both sidecars. */
  function ProjectSidecars(o: Options, projection: Option<Doc>): (r: Option<Doc>)
    ensures r.None? <==> projection.None?
    ensures r.Some? ==> o.hashField in r.value && o.ivField in r.value
    ensures r.Some? ==> forall k :: k in projection.value ==> k in r.value && r.value[k] == projection.value[k]
    ensures r.Some? ==> forall k :: k in r.value && k !in projection.value ==>
                          (k == o.hashField || k == o.ivField) && r.value[k] == Included
  {
    match projection
    case None => None
    case Some(p) =>
      var withHash := if o.hashField in p then p else p[o.hashField := Included];
      Some(if o.ivField in withHash then withHash else withHash[o.ivField := Included])
  }

  /** The first key of a clause object is a declared field. */
  predicate DeclaredFirstKey(o: Options, firstKey: KeyOrder, m: map<string, Value>) {
    firstKey(m) in m && firstKey(m) in o.fields
  }

  /** A clause the hook rewrites: an object whose first key is declared and whose value
      has an own `$eq`. */
  predicate EqualityClause(o: Options, firstKey: KeyOrder, clause: Value) {
    && clause.Obj?
    && DeclaredFirstKey(o, firstKey, clause.fields)
    && clause.fields[firstKey(clause.fields)].Obj?
    && EqOperator in clause.fields[firstKey(clause.fields)].fields
  }

  /** The operand of `$eq` in an equality clause. */
  function EqOperand(o: Options, firstKey: KeyOrder, clause: Value): Value
    requires EqualityClause(o, firstKey, clause)
  {
    clause.fields[firstKey(clause.fields)].fields[EqOperator]
  }

  /** `{ "<hashField>.<f>": { $eq: digest } }` */
  function HashedClause(o: Options, f: string, digest: string): Value {
    Obj(map[HashKey(o, f) := Obj(map[EqOperator := Str(digest)])])
  }

  /** One iteration of the `$or` / `$and` loop. */
  function RewriteClause(c: Crypto, o: Options, firstKey: KeyOrder, clause: Value): (r: Result<Value>)
    ensures EqualityClause(o, firstKey, clause) && EqOperand(o, firstKey, clause).Str? ==>
              r == Ok(HashedClause(o, firstKey(clause.fields), c.digest(EqOperand(o, firstKey, clause).s)))
    ensures r.Ok? && !EqualityClause(o, firstKey, clause) ==> r.value == clause
    ensures r.Err? <==>
              || clause.Null?
              || (clause.Obj? && DeclaredFirstKey(o, firstKey, clause.fields)
                  && clause.fields[firstKey(clause.fields)].Null?)
              || (EqualityClause(o, firstKey, clause) && !EqOperand(o, firstKey, clause).Str?)
    ensures r.Err? ==> r.error == TypeError
  {
    match clause
    case Obj(m) =>
      var key := firstKey(m);
      if key in m && key in o.fields then
        var inner := m[key];
        // `null.hasOwnProperty('$eq')`
        if inner.Null? then Err(TypeError)
        else if inner.Obj? && EqOperator in inner.fields then
          var operand := inner.fields[EqOperator];
          if operand.Str? then Ok(HashedClause(o, key, c.digest(operand.s)))
          // the digest only accepts strings
          else Err(TypeError)
        else Ok(clause)
      else Ok(clause)
    // `Object.keys(null)`
    case Null => Err(TypeError)
    case _ => Ok(clause)
  }

  /** The loop over the first `n` clauses: the list keeps its length and order. */
  function RewriteClauses(c: Crypto, o: Options, firstKey: KeyOrder, clauses: seq<Value>, n: nat)
    : (r: Result<seq<Value>>)
    requires n <= |clauses|
    ensures r.Err? ==> r.error == TypeError
    ensures r.Err? <==> exists i :: 0 <= i < n && RewriteClause(c, o, firstKey, clauses[i]).Err?
    ensures r.Ok? ==> |r.value| == n
    ensures r.Ok? ==> forall i :: 0 <= i < n ==> RewriteClause(c, o, firstKey, clauses[i]) == Ok(r.value[i])
  {
    if n == 0 then Ok([])
    else
      match RewriteClauses(c, o, firstKey, clauses, n - 1)
      case Err(e) => Err(e)
      case Ok(prev) =>
        match RewriteClause(c, o, firstKey, clauses[n - 1])
        case Err(e) => Err(e)
        case Ok(v) => Ok(prev + [v])
  }

  /** The clauses the loop walks: `fieldOr.length` is undefined on anything but an array. */
  function ClauseList(v: Value): seq<Value> {
    if v.Arr? then v.items else []
  }

  /** Where the flat rewrite puts the digest of a declared field. */
  datatype FlatTarget =
    | BareField     // the code as written: `customQuery[field] = digest`
    | HashSidecar   // the sidecar the stored documents carry: `<hashField>.<field>`

  function TargetKey(o: Options, f: string, target: FlatTarget): string {
    if target.BareField? then f else HashKey(o, f)
  }

  /** One iteration of the flat loop: a truthy declared value is replaced by its digest. */
  function FlatHashField(c: Crypto, o: Options, f: string, q: Doc, target: FlatTarget): (r: Result<Doc>)
    ensures r.Err? <==> f in q && Truthy(q[f]) && !q[f].Str?
    ensures r.Err? ==> r.error == TypeError
    ensures r.Ok? ==> forall k :: k in q && k != f ==> k in r.value
  {
    if f in q && Truthy(q[f]) then
      if q[f].Str? then Ok((q - {f})[TargetKey(o, f, target) := Str(c.digest(q[f].s))])
      else Err(TypeError)
    else Ok(q)
  }

  function FlatHash(c: Crypto, o: Options, q: Doc, n: nat, target: FlatTarget): (r: Result<Doc>)
    requires n <= |o.fields|
    ensures r.Err? ==> r.error == TypeError
    ensures r.Ok? ==> forall k :: k in q && k !in o.fields[..n] ==> k in r.value
  {
    if n == 0 then Ok(q)
    else
      match FlatHash(c, o, q, n - 1, target)
      case Err(e) => Err(e)
      case Ok(prev) => FlatHashField(c, o, o.fields[n - 1], prev, target)
  }

  /** The filter rewrite: `$or` wins over `$and`, both are dropped from the rest of the
      filter, and only without either are flat equalities hashed. */
  function RewriteFilter(c: Crypto, o: Options, firstKey: KeyOrder, q: Doc, target: FlatTarget)
    : (r: Result<Doc>)
    ensures r.Err? ==> r.error == TypeError
    ensures r.Ok? && OrOperator in q && Truthy(q[OrOperator]) ==>
              && AndOperator !in r.value
              && r.value.Keys == q.Keys - {AndOperator}
              && r.value[OrOperator].Arr?
              && |r.value[OrOperator].items| == |ClauseList(q[OrOperator])|
              && (forall i :: 0 <= i < |ClauseList(q[OrOperator])| ==>
                    RewriteClause(c, o, firstKey, ClauseList(q[OrOperator])[i]) == Ok(r.value[OrOperator].items[i]))
              && (forall k :: k in q && k != OrOperator && k != AndOperator ==> r.value[k] == q[k])
    ensures r.Ok? && !(OrOperator in q && Truthy(q[OrOperator])) && AndOperator in q && Truthy(q[AndOperator]) ==>
              && OrOperator !in r.value
              && r.value.Keys == q.Keys - {OrOperator}
              && r.value[AndOperator].Arr?
              && |r.value[AndOperator].items| == |ClauseList(q[AndOperator])|
              && (forall i :: 0 <= i < |ClauseList(q[AndOperator])| ==>
                    RewriteClause(c, o, firstKey, ClauseList(q[AndOperator])[i]) == Ok(r.value[AndOperator].items[i]))
              && (forall k :: k in q && k != OrOperator && k != AndOperator ==> r.value[k] == q[k])
    ensures OrOperator in q && Truthy(q[OrOperator]) ==>
              (r.Err? <==> exists i :: 0 <= i < |ClauseList(q[OrOperator])| &&
                             RewriteClause(c, o, firstKey, ClauseList(q[OrOperator])[i]).Err?)
    ensures !(OrOperator in q && Truthy(q[OrOperator])) && AndOperator in q && Truthy(q[AndOperator]) ==>
              (r.Err? <==> exists i :: 0 <= i < |ClauseList(q[AndOperator])| &&
                             RewriteClause(c, o, firstKey, ClauseList(q[AndOperator])[i]).Err?)
    ensures !(OrOperator in q && Truthy(q[OrOperator])) && !(AndOperator in q && Truthy(q[AndOperator])) ==>
              r == FlatHash(c, o, q - {OrOperator, AndOperator}, |o.fields|, target)
  {
    var rest := q - {OrOperator, AndOperator};
    if OrOperator in q && Truthy(q[OrOperator]) then
      var clauses := ClauseList(q[OrOperator]);
      match RewriteClauses(c, o, firstKey, clauses, |clauses|)
      case Err(e) => Err(e)
      case Ok(rewritten) => Ok(rest[OrOperator := Arr(rewritten)])
    else if AndOperator in q && Truthy(q[AndOperator]) then
      var clauses := ClauseList(q[AndOperator]);
      match RewriteClauses(c, o, firstKey, clauses, |clauses|)
      case Err(e) => Err(e)
      case Ok(rewritten) => Ok(rest[AndOperator := Arr(rewritten)])
    else FlatHash(c, o, rest, |o.fields|, target)
  }

  datatype FindQuery = FindQuery(projection: Option<Doc>, filter: Doc)

  /** `processFindQuery`. `BareField` is the flat rewrite as written; `HashSidecar` aims it
      where `pre('save')` stores the digest and where the `$or` / `$and` rewrites look. */
  function ProcessFindQuery(c: Crypto, o: Options, firstKey: KeyOrder, projection: Option<Doc>, q: Doc,
                            target: FlatTarget)
    : (r: Result<FindQuery>)
    ensures r.Ok? ==> r.value.projection == ProjectSidecars(o, projection)
    ensures r.Ok? <==> RewriteFilter(c, o, firstKey, q, target).Ok?
    ensures r.Ok? ==> r.value.filter == RewriteFilter(c, o, firstKey, q, target).value
    ensures r.Err? ==> r.error == TypeError
    ensures OrOperator in q && Truthy(q[OrOperator]) ==>
              (r.Err? <==> exists i :: 0 <= i < |ClauseList(q[OrOperator])| &&
                             RewriteClause(c, o, firstKey, ClauseList(q[OrOperator])[i]).Err?)
    ensures !(OrOperator in q && Truthy(q[OrOperator])) && AndOperator in q && Truthy(q[AndOperator]) ==>
              (r.Err? <==> exists i :: 0 <= i < |ClauseList(q[AndOperator])| &&
                             RewriteClause(c, o, firstKey, ClauseList(q[AndOperator])[i]).Err?)
  {
    match RewriteFilter(c, o, firstKey, q, target)
    case Err(e) => Err(e)
    case Ok(filter) => Ok(FindQuery(ProjectSidecars(o, projection), filter))
  }

  /** The flat loop hashes the declared field `f` of the filter `q`. */
  predicate Hashed(q: Doc, f: string) {
    f in q && Truthy(q[f])
  }

  function Targets(o: Options, q: Doc, fs: seq<string>, target: FlatTarget): set<string> {
    set f | f in fs && Hashed(q, f) :: TargetKey(o, f, target)
  }

  /** `t` is the filter `q` after the flat loop has handled exactly the fields `fs`. */
  ghost predicate FlatUpTo(c: Crypto, o: Options, q: Doc, fs: seq<string>, t: Doc, target: FlatTarget) {
    && (forall f :: f in fs && Hashed(q, f) ==>
          q[f].Str? && TargetKey(o, f, target) in t && t[TargetKey(o, f, target)] == Str(c.digest(q[f].s)))
    && (target.HashSidecar? ==> forall f :: f in fs && Hashed(q, f) ==> f !in t)
    && (forall k :: k in q && !(k in fs && Hashed(q, k)) && k !in Targets(o, q, fs, target) ==>
          k in t && t[k] == q[k])
    && (forall k :: k in t ==> k in q || k in Targets(o, q, fs, target))
  }

  lemma TargetsExtend(o: Options, q: Doc, before: seq<string>, f: string, target: FlatTarget)
    ensures Targets(o, q, before + [f], target) ==
              Targets(o, q, before, target) + (if Hashed(q, f) then {TargetKey(o, f, target)} else {})
  {
    assert forall k :: k in before + [f] <==> k in before || k == f;
  }

  /** Target keys of distinct declared fields differ, and none of them is a declared field
      unless the target is the field itself. */
  lemma TargetKeyFresh(o: Options, f: string, g: string, target: FlatTarget)
    requires WellFormed(o) && DotFree(o)
    requires f in o.fields && g in o.fields && f != g
    ensures TargetKey(o, f, target) != TargetKey(o, g, target)
    ensures TargetKey(o, g, target) != f
    ensures target.HashSidecar? ==> TargetKey(o, f, target) != f
  {
    if target.HashSidecar? {
      DotJoinHasDot(o.hashField, g);
      DotJoinHasDot(o.hashField, f);
      if HashKey(o, f) == HashKey(o, g) {
        DotJoinInjective(o.hashField, f, o.hashField, g);
      }
    }
  }

  lemma FlatHashFieldStep(c: Crypto, o: Options, q: Doc, before: seq<string>, f: string, t: Doc, target: FlatTarget)
    requires WellFormed(o) && DotFree(o)
    requires f in o.fields && f !in before
    requires forall g :: g in before ==> g in o.fields
    requires FlatUpTo(c, o, q, before, t, target)
    ensures (f in t <==> f in q) && (f in q ==> t[f] == q[f])
    ensures FlatHashField(c, o, f, t, target).Ok? ==>
              FlatUpTo(c, o, q, before + [f], FlatHashField(c, o, f, t, target).value, target)
  {
    var after := before + [f];
    TargetsExtend(o, q, before, f, target);
    assert forall k :: k in after <==> k in before || k == f;
    forall g | g in before
      ensures TargetKey(o, f, target) != TargetKey(o, g, target) && TargetKey(o, g, target) != f
    {
      TargetKeyFresh(o, f, g, target);
    }
    if target.HashSidecar? {
      DotJoinHasDot(o.hashField, f);
    }
  }

  /** The flat loop, key by key: it fails exactly when a truthy declared value is not a
      string; otherwise each such value's digest sits under its target key and every
      other key keeps its value. */
  lemma {:induction false} FlatHashSpec(c: Crypto, o: Options, q: Doc, n: nat, target: FlatTarget)
    requires WellFormed(o) && DotFree(o)
    requires n <= |o.fields|
    ensures FlatHash(c, o, q, n, target).Err? <==>
              exists i :: 0 <= i < n && Hashed(q, o.fields[i]) && !q[o.fields[i]].Str?
    ensures FlatHash(c, o, q, n, target).Ok? ==>
              FlatUpTo(c, o, q, o.fields[..n], FlatHash(c, o, q, n, target).value, target)
  {
    if n == 0 {
      assert o.fields[..0] == [];
      assert Targets(o, q, [], target) == {};
    } else {
      FlatHashSpec(c, o, q, n - 1, target);
      var f := o.fields[n - 1];
      var before := o.fields[..n - 1];
      assert o.fields[..n] == before + [f];
      assert f !in before;
      match FlatHash(c, o, q, n - 1, target)
      case Err(_) => {
      }
      case Ok(t) => {
        FlatHashFieldStep(c, o, q, before, f, t, target);
      }
    }
  }

  /** A single-key filter `{ f: p }` on a declared field becomes `{ key: digest(p) }`. */
  lemma FlatSingleKey(c: Crypto, o: Options, f: string, p: string, target: FlatTarget)
    requires WellFormed(o) && DotFree(o)
    requires f in o.fields && p != ""
    ensures FlatHash(c, o, map[f := Str(p)], |o.fields|, target) ==
              Ok(map[TargetKey(o, f, target) := Str(c.digest(p))])
  {
    var q := map[f := Str(p)];
    FlatHashSpec(c, o, q, |o.fields|, target);
    assert o.fields[..|o.fields|] == o.fields;
    var key := TargetKey(o, f, target);
    assert Targets(o, q, o.fields, target) == {key};
    assert Hashed(q, f);
    var t := FlatHash(c, o, q, |o.fields|, target).value;
    if target.HashSidecar? {
      DotJoinHasDot(o.hashField, f);
      assert f !in t;
    }
    assert t.Keys == {key};
    assert t == map[key := Str(c.digest(p))];
  }

  /** As written, the flat rewrite leaves the digest under the bare field name, where the
      stored document keeps the ciphertext: a saved document is found only if its
      ciphertext happens to equal the digest of the queried plaintext. */
  lemma FlatQueryAsWrittenMisses(c: Crypto, o: Options, ivs: IvSource, d: Doc, f: string, p: string)
    requires WellFormed(o) && DotFree(o)
    requires f in o.fields && f in d && d[f] == Str(p) && p != ""
    ensures FlatHash(c, o, map[f := Str(p)], |o.fields|, BareField) == Ok(map[f := Str(c.digest(p))])
    ensures Lookup(PreSave(c, o, ivs, d), f) == Some(Str(c.digest(p))) <==>
              Seal(c, o, ivs(f), p) == c.digest(p)
  {
    FlatSingleKey(c, o, f, p, BareField);
    PreSaveEncodes(c, o, ivs, d);
    LookupPlain(PreSave(c, o, ivs, d), f);
  }

  /** With the digest aimed at `<hashField>.<f>`, a filter on plaintext `p` finds a
      document saved with plaintext `saved` exactly when their digests agree, whatever IV
      the save drew. */
  lemma FlatQueryFindsSaved(c: Crypto, o: Options, ivs: IvSource, d: Doc, f: string, saved: string, p: string)
    requires WellFormed(o) && DotFree(o)
    requires f in o.fields && f in d && d[f] == Str(saved) && saved != "" && p != ""
    ensures FlatHash(c, o, map[f := Str(p)], |o.fields|, HashSidecar) ==
              Ok(map[HashKey(o, f) := Str(c.digest(p))])
    ensures Lookup(PreSave(c, o, ivs, d), HashKey(o, f)) == Some(Str(c.digest(p))) <==>
              c.digest(saved) == c.digest(p)
  {
    FlatSingleKey(c, o, f, p, HashSidecar);
    PreSaveEncodes(c, o, ivs, d);
    LookupDotted(PreSave(c, o, ivs, d), o.hashField, f);
  }

  /** An `$or` / `$and` clause `{ f: { $eq: p } }` on a declared field becomes a test on
      the digest sidecar that selects a saved document exactly when the digests agree. */
  lemma EqClauseFindsSaved(c: Crypto, o: Options, firstKey: KeyOrder, ivs: IvSource, d: Doc,
                           f: string, saved: string, p: string)
    requires WellFormed(o) && DotFree(o)
    requires f in o.fields && f in d && d[f] == Str(saved) && saved != ""
    requires firstKey(map[f := Obj(map[EqOperator := Str(p)])]) == f
    ensures RewriteClause(c, o, firstKey, Obj(map[f := Obj(map[EqOperator := Str(p)])])) ==
              Ok(HashedClause(o, f, c.digest(p)))
    ensures Lookup(PreSave(c, o, ivs, d), HashKey(o, f)) == Some(Str(c.digest(p))) <==>
              c.digest(saved) == c.digest(p)
  {
    PreSaveEncodes(c, o, ivs, d);
    LookupDotted(PreSave(c, o, ivs, d), o.hashField, f);
  }
}
