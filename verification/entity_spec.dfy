/** An independent description of what `parse_entities` returns, stated over
    the classified lines rather than as a loop:
    - the categories are the header names, each once, in order of first appearance;
    - a category holds exactly the bullet values that follow its LAST header, up to the next header. */
module EntitySpec {
  import opened Prelude
  import opened Entities

  /** Some line of `kinds` is a header. */
  predicate HasHeader(kinds: seq<LineKind>)
  {
    exists i :: 0 <= i < |kinds| && kinds[i].Header?
  }

  /** Every header names a non-empty category (as the regex guarantees). */
  predicate NamedHeaders(kinds: seq<LineKind>)
  {
    forall i :: 0 <= i < |kinds| && kinds[i].Header? ==> kinds[i].name != ""
  }

  /** The names of the header lines, in line order, repeats included. */
  function HeaderNames(kinds: seq<LineKind>): seq<string>
    decreases |kinds|
  {
    if kinds == [] then []
    else
      var last := kinds[|kinds| - 1];
      HeaderNames(kinds[..|kinds| - 1]) + (if last.Header? then [last.name] else [])
  }

  /** Each distinct element of `s` once, at the place it first occurs. */
  function Dedup(s: seq<string>): seq<string>
    decreases |s|
  {
    if s == [] then []
    else
      var x := s[|s| - 1];
      if x in s[..|s| - 1] then Dedup(s[..|s| - 1]) else Dedup(s[..|s| - 1]) + [x]
  }

  /** Index of the first occurrence of `x` in `s`; |s| when there is none. */
  function FirstIndex<T(==)>(s: seq<T>, x: T): (i: nat)
    ensures i <= |s|
    ensures i < |s| ==> s[i] == x
    ensures forall j :: 0 <= j < i ==> s[j] != x
    decreases |s|
  {
    if s == [] then 0 else if s[0] == x then 0 else 1 + FirstIndex(s[1..], x)
  }

  /** Index of the last header line naming `name`, or -1 if there is none. */
  function LastHeader(kinds: seq<LineKind>, name: string): (j: int)
    ensures -1 <= j < |kinds|
    ensures j >= 0 ==> kinds[j] == Header(name)
    ensures forall i :: j < i < |kinds| ==> kinds[i] != Header(name)
    decreases |kinds|
  {
    if kinds == [] then -1
    else if kinds[|kinds| - 1] == Header(name) then |kinds| - 1
    else LastHeader(kinds[..|kinds| - 1], name)
  }

  /** The name of the last header line, if any: the key the loop holds as current. */
  function LastAnyHeader(kinds: seq<LineKind>): Option<string>
    decreases |kinds|
  {
    if kinds == [] then None
    else if kinds[|kinds| - 1].Header? then Some(kinds[|kinds| - 1].name)
    else LastAnyHeader(kinds[..|kinds| - 1])
  }

  /** The bullet values at the start of `seg`, stopping at its first header. */
  function Bullets(seg: seq<LineKind>): seq<string>
    decreases |seg|
  {
    if seg == [] then []
    else
      match seg[0]
      case Header(_) => []
      case Bullet(v) => [v] + Bullets(seg[1..])
      case Plain => Bullets(seg[1..])
  }

  /** Entry `e` holds the values of the bullet lines between the last header
      naming it and the next header. */
  ghost predicate Fits(kinds: seq<LineKind>, e: Category)
  {
    && 0 <= LastHeader(kinds, e.name)
    && e.values == Bullets(kinds[LastHeader(kinds, e.name) + 1..])
  }

  /** `r` is what the reference says `parse_entities` returns for `kinds`: the
      keys are the header names, each once, in order of first appearance; each
      key's list is the values of the bullet lines between the last header
      naming it and the next header. */
  ghost predicate IsParseOf(r: seq<Category>, kinds: seq<LineKind>)
  {
    && Names(r) == Dedup(HeaderNames(kinds))
    && NoDup(Names(r))
    && forall p :: 0 <= p < |r| ==> Fits(kinds, r[p])
  }

  /** The reference leaves no freedom: at most one result fits it. */
  lemma ReferenceIsUnique(r1: seq<Category>, r2: seq<Category>, kinds: seq<LineKind>)
    requires IsParseOf(r1, kinds) && IsParseOf(r2, kinds)
    ensures r1 == r2
  {
    assert |r1| == |Names(r1)| == |Names(r2)| == |r2|;
    forall p | 0 <= p < |r1|
      ensures r1[p] == r2[p]
    {
      assert r1[p].name == Names(r1)[p] == Names(r2)[p] == r2[p].name;
    }
  }

  /** `HeaderNames` lists exactly the names of header lines. */
  lemma {:induction false} HeaderNamesMembers(kinds: seq<LineKind>, n: string)
    ensures n in HeaderNames(kinds) <==> exists i :: 0 <= i < |kinds| && kinds[i] == Header(n)
    decreases |kinds|
  {
    if kinds != [] {
      var p := kinds[..|kinds| - 1];
      var x := kinds[|kinds| - 1];
      HeaderNamesMembers(p, n);
      if n in HeaderNames(p) {
        var i :| 0 <= i < |p| && p[i] == Header(n);
        assert kinds[i] == p[i];
      }
      if exists i :: 0 <= i < |kinds| && kinds[i] == Header(n) {
        var i :| 0 <= i < |kinds| && kinds[i] == Header(n);
        if i < |p| {
          assert p[i] == kinds[i];
        }
      }
    }
  }

  /** `Dedup` keeps every element and repeats none. */
  lemma {:induction false} DedupMembers(s: seq<string>)
    ensures forall x :: x in Dedup(s) <==> x in s
    ensures NoDup(Dedup(s))
    decreases |s|
  {
    if s != [] {
      var p := s[..|s| - 1];
      DedupMembers(p);
      assert s == p + [s[|s| - 1]];
    }
  }

  /** `Dedup` orders the distinct elements by where they first occur. */
  lemma {:induction false} DedupByFirstOccurrence(s: seq<string>)
    ensures forall i, j :: 0 <= i < j < |Dedup(s)| ==> FirstIndex(s, Dedup(s)[i]) < FirstIndex(s, Dedup(s)[j])
    decreases |s|
  {
    if s != [] {
      var p := s[..|s| - 1];
      var x := s[|s| - 1];
      DedupByFirstOccurrence(p);
      DedupMembers(p);
      assert s == p + [x];
      forall y | y in p
        ensures FirstIndex(s, y) == FirstIndex(p, y) < |p|
      {
        FirstIndexOfAppend(p, [x], y);
      }
      if x !in p {
        FirstIndexOfAppend(p, [x], x);
        assert FirstIndex(s, x) == |p|;
        forall i, j | 0 <= i < j < |Dedup(s)|
          ensures FirstIndex(s, Dedup(s)[i]) < FirstIndex(s, Dedup(s)[j])
        {
          assert Dedup(p)[i] in Dedup(p);
          if j < |Dedup(p)| {
            assert Dedup(p)[j] in Dedup(p);
          }
        }
      } else {
        forall i, j | 0 <= i < j < |Dedup(s)|
          ensures FirstIndex(s, Dedup(s)[i]) < FirstIndex(s, Dedup(s)[j])
        {
          assert Dedup(p)[i] in Dedup(p) && Dedup(p)[j] in Dedup(p);
        }
      }
    }
  }

  /** Where `y` first occurs is unchanged by appending, when it already occurs. */
  lemma {:induction false} FirstIndexOfAppend<T>(a: seq<T>, b: seq<T>, y: T)
    ensures FirstIndex(a + b, y) == if y in a then FirstIndex(a, y) else |a| + FirstIndex(b, y)
    decreases |a|
  {
    if a != [] {
      assert (a + b)[0] == a[0];
      assert (a + b)[1..] == a[1..] + b;
      FirstIndexOfAppend(a[1..], b, y);
      assert y in a <==> a[0] == y || y in a[1..];
    } else {
      assert a + b == b;
    }
  }

  /** The current key is absent exactly when no header has been read, and is
      otherwise one of the header names. */
  lemma {:induction false} LastAnyHeaderFacts(kinds: seq<LineKind>)
    ensures LastAnyHeader(kinds).None? <==> !HasHeader(kinds)
    ensures LastAnyHeader(kinds).Some? ==> exists i :: 0 <= i < |kinds| && kinds[i] == Header(LastAnyHeader(kinds).value)
    decreases |kinds|
  {
    if kinds != [] {
      var p := kinds[..|kinds| - 1];
      var x := kinds[|kinds| - 1];
      LastAnyHeaderFacts(p);
      if HasHeader(p) {
        var i :| 0 <= i < |p| && p[i].Header?;
        assert kinds[i] == p[i];
      }
      if HasHeader(kinds) && !x.Header? {
        var i :| 0 <= i < |kinds| && kinds[i].Header?;
        assert p[i] == kinds[i];
      }
      if LastAnyHeader(p).Some? {
        var i :| 0 <= i < |p| && p[i] == Header(LastAnyHeader(p).value);
        assert kinds[i] == p[i];
      }
    }
  }
}
