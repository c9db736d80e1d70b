/** Domain names as the resolver stores them: zero-free byte strings, compared in a normal form. */
module Names {
  import opened Basics

  type Name = seq<byte>

  const NAME_LIMIT: nat := 1025
  const DOT: byte := 0x2E
  const UPPER_A: byte := 0x41
  const UPPER_Z: byte := 0x5A
  const CASE_GAP: nat := 0x20

  /** What fits a name field: no zero byte and one less than the limit. */
  predicate Storable(name: Name) {
    |name| < NAME_LIMIT && forall i :: 0 <= i < |name| ==> name[i] != 0
  }

  function Lower(c: byte): (r: byte) {
    if UPPER_A <= c <= UPPER_Z then c + CASE_GAP else c
  }

  function LowerAll(name: Name): (r: Name)
    ensures |r| == |name| && forall i :: 0 <= i < |name| ==> r[i] == Lower(name[i])
  {
    seq(|name|, i requires 0 <= i < |name| => Lower(name[i]))
  }

  /** One trailing dot goes, letters become lower case; empty, oversized and doubly dotted names are refused. */
  function Normalize(name: Name): (r: Option<Name>)
    ensures r.Some? ==> 0 < |r.value| < NAME_LIMIT
  {
    if name == [] || |name| >= NAME_LIMIT then None
    else if |name| > 1 && name[|name| - 1] == DOT then
      var rest := name[..|name| - 1];
      if rest[|rest| - 1] == DOT then None else Some(LowerAll(rest))
    else Some(LowerAll(name))
  }

  predicate Normalized(name: Name) {
    Normalize(name) == Some(name)
  }

  lemma LowerAllTwice(name: Name)
    ensures LowerAll(LowerAll(name)) == LowerAll(name)
  {
  }

  /** A normal form is its own normal form, so comparing normal forms is an equivalence. */
  lemma NormalizeIdempotent(name: Name)
    requires Normalize(name).Some?
    ensures Normalized(Normalize(name).value)
  {
    var rest := if |name| > 1 && name[|name| - 1] == DOT then name[..|name| - 1] else name;
    LowerAllTwice(rest);
    assert Normalize(name).value[|rest| - 1] == Lower(rest[|rest| - 1]);
  }

  /** Names that differ only in letter case have the same normal form. */
  lemma NormalizeIgnoresCase(a: Name, b: Name)
    requires LowerAll(a) == LowerAll(b)
    ensures Normalize(a) == Normalize(b)
  {
    assert forall i :: 0 <= i < |a| ==> (Lower(a[i]) == DOT <==> a[i] == DOT) && (Lower(b[i]) == DOT <==> b[i] == DOT);
    assert forall i :: 0 <= i < |a| ==> LowerAll(a)[i] == LowerAll(b)[i];
    if a != [] && |a| > 1 {
      var k := |a| - 1;
      assert LowerAll(a[..k]) == LowerAll(a)[..k];
      assert LowerAll(b[..k]) == LowerAll(b)[..k];
      assert a[k] == DOT <==> b[k] == DOT;
      assert a[k - 1] == DOT <==> b[k - 1] == DOT;
    }
  }

  /** So have a name and the same name with a trailing dot, as long as both fit and the name does not end in a dot. */
  lemma NormalizeIgnoresDot(name: Name)
    requires name != [] && name[|name| - 1] != DOT && |name| + 1 < NAME_LIMIT
    ensures Normalize(name + [DOT]) == Normalize(name)
  {
    assert (name + [DOT])[..|name|] == name;
  }

  /** Whether a zone contains a name; the root zone contains all. */
  predicate Encloses(zone: Name, name: Name) {
    || zone == [DOT]
    || name == zone
    || (|name| > |zone| && name[|name| - |zone| - 1] == DOT && name[|name| - |zone|..] == zone)
  }
}
