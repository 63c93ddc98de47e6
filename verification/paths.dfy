/**
 * Dotted keys: the update payload names a sidecar entry as `<hashField>.<field>`, and
 * the database resolves such a key one object level at a time.
 */
module Paths {
  import opened Outcomes
  import opened Json
  import opened Config

  function DotJoin(side: string, f: string): string {
    side + "." + f
  }

  /** `${hashField}.${field}` */
  function HashKey(o: Options, f: string): string {
    DotJoin(o.hashField, f)
  }

  /** `${ivField}.${field}` */
  function IvKey(o: Options, f: string): string {
    DotJoin(o.ivField, f)
  }

  /** Two dotted keys whose last segments hold no dot are equal only if both halves are. */
  lemma {:induction false} DotJoinInjective(a: string, f: string, b: string, g: string)
    requires '.' !in f && '.' !in g
    requires DotJoin(a, f) == DotJoin(b, g)
    ensures a == b && f == g
  {
    var x := DotJoin(a, f);
    assert |a| + |f| == |b| + |g|;
    if |f| < |g| {
      DotAt(a, f);
      assert false;
    } else if |g| < |f| {
      DotAt(b, g);
      assert false;
    }
    assert a == x[..|a|] == b;
    assert f == x[|a| + 1..] == g;
  }

  lemma DotAt(a: string, f: string)
    ensures DotJoin(a, f)[|a|] == '.'
  {
  }

  /** A dotted key is never a dot-free name. */
  lemma DotJoinHasDot(a: string, f: string)
    ensures '.' in DotJoin(a, f)
  {
    assert DotJoin(a, f)[|a|] == '.';
  }

  /** Position of the first dot, or the length when there is none. */
  function FirstDot(s: string): (i: nat)
    ensures i <= |s|
    ensures i < |s| ==> s[i] == '.'
    ensures forall j :: 0 <= j < i ==> s[j] != '.'
  {
    if |s| == 0 then 0
    else if s[0] == '.' then 0
    else 1 + FirstDot(s[1..])
  }

  /** The value the database finds under a (possibly dotted) key of a filter. */
  function Lookup(d: Doc, key: string): Option<Value>
    decreases |key|
  {
    var i := FirstDot(key);
    if i == |key| then (if key in d then Some(d[key]) else None)
    else
      var head := key[..i];
      if head in d && d[head].Obj? then Lookup(d[head].fields, key[i + 1..]) else None
  }

  /** A dot-free key is looked up directly. */
  lemma LookupPlain(d: Doc, f: string)
    requires '.' !in f
    ensures Lookup(d, f) == (if f in d then Some(d[f]) else None)
  {
  }

  /** `side.f` with both parts dot-free reaches entry `f` of the object stored under `side`. */
  lemma LookupDotted(d: Doc, side: string, f: string)
    requires '.' !in side && '.' !in f
    ensures Lookup(d, DotJoin(side, f)) ==
              (if side in d && d[side].Obj? && f in d[side].fields then Some(d[side].fields[f])
               else None)
  {
    var key := DotJoin(side, f);
    var i := FirstDot(key);
    assert key[|side|] == '.';
    assert i == |side|;
    assert key[..i] == side;
    assert key[i + 1..] == f;
    if side in d && d[side].Obj? {
      LookupPlain(d[side].fields, f);
    }
  }
}
