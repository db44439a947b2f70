/** The proof that the `parse_entities` loop computes what `EntitySpec` describes. */
module EntityProof {
  import opened Prelude
  import opened Entities
  import opened EntitySpec
  import PyStr

  /** What one more line does to `Bullets`: nothing once a header has been passed;
      before that, a bullet adds its value at the end. */
  lemma {:induction false} BulletsSnoc(seg: seq<LineKind>, k: LineKind)
    ensures Bullets(seg + [k]) ==
              if HasHeader(seg) || !k.Bullet? then Bullets(seg) else Bullets(seg) + [k.value]
    decreases |seg|
  {
    if seg == [] {
      assert [] + [k] == [k];
    } else {
      assert (seg + [k])[0] == seg[0];
      assert (seg + [k])[1..] == seg[1..] + [k];
      BulletsSnoc(seg[1..], k);
      if !seg[0].Header? {
        assert HasHeader(seg) <==> HasHeader(seg[1..]) by {
          if HasHeader(seg) {
            var i :| 0 <= i < |seg| && seg[i].Header?;
            assert seg[1..][i - 1] == seg[i];
          }
          if HasHeader(seg[1..]) {
            var i :| 0 <= i < |seg[1..]| && seg[1..][i].Header?;
            assert seg[i + 1] == seg[1..][i];
          }
        }
      }
    }
  }

  /** A header appears in `seg + [x]` when it appears in `seg` or `x` is one. */
  lemma HasHeaderSnoc(seg: seq<LineKind>, x: LineKind)
    ensures HasHeader(seg + [x]) <==> HasHeader(seg) || x.Header?
  {
    if HasHeader(seg) {
      var i :| 0 <= i < |seg| && seg[i].Header?;
      assert (seg + [x])[i] == seg[i];
    }
    if x.Header? {
      assert (seg + [x])[|seg|] == x;
    }
  }

  /** The lines after the last header naming `name` (all of them if there is none),
      built line by line so that each step of the loop extends it by one line. */
  function Section(kinds: seq<LineKind>, name: string): seq<LineKind>
    decreases |kinds|
  {
    if kinds == [] then []
    else if kinds[|kinds| - 1] == Header(name) then []
    else Section(kinds[..|kinds| - 1], name) + [kinds[|kinds| - 1]]
  }

  /** `Section` is the slice after `LastHeader`. */
  lemma {:induction false} SectionIsSlice(kinds: seq<LineKind>, name: string)
    requires LastHeader(kinds, name) >= 0
    ensures Section(kinds, name) == kinds[LastHeader(kinds, name) + 1..]
    decreases |kinds|
  {
    var p := kinds[..|kinds| - 1];
    var x := kinds[|kinds| - 1];
    if x != Header(name) {
      var j := LastHeader(p, name);
      SectionIsSlice(p, name);
      assert kinds[j + 1..] == p[j + 1..] + [x];
    }
  }

  /** After the last header of `name`, another header follows exactly when the
      current key is no longer `name`. */
  lemma {:induction false} SectionHasHeader(kinds: seq<LineKind>, name: string)
    requires name in HeaderNames(kinds)
    ensures HasHeader(Section(kinds, name)) <==> LastAnyHeader(kinds) != Some(name)
    decreases |kinds|
  {
    var p := kinds[..|kinds| - 1];
    var x := kinds[|kinds| - 1];
    SnocFacts(p, x);
    assert kinds == p + [x];
    if x != Header(name) {
      assert name in HeaderNames(p) by {
        if !x.Header? {
          assert HeaderNames(p) + [] == HeaderNames(p);
        }
      }
      SectionHasHeader(p, name);
      HasHeaderSnoc(Section(p, name), x);
    } else {
      assert Section(kinds, name) == [];
    }
  }

  /** The loop state after a prefix of lines, described without the loop. */
  ghost predicate Describes(kinds: seq<LineKind>, st: ParseState)
  {
    && Names(st.entities) == Dedup(HeaderNames(kinds))
    && st.current == LastAnyHeader(kinds)
    && forall p :: 0 <= p < |st.entities| ==> st.entities[p].values == Bullets(Section(kinds, st.entities[p].name))
  }

  /** Unfolding the line-indexed reference functions one line further. */
  lemma SnocFacts(p: seq<LineKind>, x: LineKind)
    ensures ParseLines(p + [x]) == Step(ParseLines(p), x)
    ensures HeaderNames(p + [x]) == HeaderNames(p) + (if x.Header? then [x.name] else [])
    ensures LastAnyHeader(p + [x]) == if x.Header? then Some(x.name) else LastAnyHeader(p)
  {
    assert (p + [x])[..|p|] == p;
  }

  /** One more line: a header of `n` empties its section, any other line extends it. */
  lemma SectionSnoc(p: seq<LineKind>, x: LineKind, n: string)
    ensures Section(p + [x], n) == if x == Header(n) then [] else Section(p, n) + [x]
  {
    assert (p + [x])[..|p|] == p;
  }

  /** One more line extends the section of `n` by that line: `Bullets` of it
      grows only while no header has intervened. */
  lemma SectionStep(p: seq<LineKind>, x: LineKind, n: string)
    requires x != Header(n)
    ensures Bullets(Section(p + [x], n)) ==
              if HasHeader(Section(p, n)) || !x.Bullet? then Bullets(Section(p, n))
              else Bullets(Section(p, n)) + [x.value]
  {
    SectionSnoc(p, x, n);
    BulletsSnoc(Section(p, n), x);
  }

  /** Reading a header: the key list gains the name if it is new, and keeps its order. */
  lemma NamesAfterHeader(es: seq<Category>, hn: seq<string>, name: string)
    requires Names(es) == Dedup(hn)
    ensures Names(Assign(es, name, [])) == Dedup(hn + [name])
    ensures NoDup(Names(es))
  {
    DedupMembers(hn);
    AssignNames(es, name, []);
    assert (hn + [name])[..|hn|] == hn;
  }

  /** A header line keeps the description. */
  lemma HeaderStep(p: seq<LineKind>, name: string)
    requires Describes(p, ParseLines(p))
    ensures Describes(p + [Header(name)], ParseLines(p + [Header(name)]))
  {
    var x := Header(name);
    var kinds := p + [x];
    SnocFacts(p, x);
    var es := ParseLines(p).entities;
    var r := Assign(es, name, []);
    NamesAfterHeader(es, HeaderNames(p), name);
    forall q | 0 <= q < |r|
      ensures r[q].values == Bullets(Section(kinds, r[q].name))
    {
      HeaderStepEntry(p, name, q);
    }
  }

  /** One entry after a header line still holds its section's bullets. */
  lemma HeaderStepEntry(p: seq<LineKind>, name: string, q: nat)
    requires Describes(p, ParseLines(p))
    requires q < |Assign(ParseLines(p).entities, name, [])|
    ensures var r := Assign(ParseLines(p).entities, name, []);
            r[q].values == Bullets(Section(p + [Header(name)], r[q].name))
  {
    var x := Header(name);
    var es := ParseLines(p).entities;
    var r := Assign(es, name, []);
    NamesAfterHeader(es, HeaderNames(p), name);
    AssignAt(es, name, [], q);
    var n := r[q].name;
    SectionSnoc(p, x, n);
    if n != name {
      assert Names(r)[q] == Names(es)[q];
      SectionStep(p, x, n);
    }
  }

  /** The current key, when there is one, is a non-empty key of the state. */
  lemma CurrentIsKey(p: seq<LineKind>)
    requires NamedHeaders(p)
    requires Describes(p, ParseLines(p))
    ensures ParseLines(p).current.None? ==> ParseLines(p).entities == []
    ensures ParseLines(p).current.Some? ==>
              ParseLines(p).current.value != "" && ParseLines(p).current.value in Names(ParseLines(p).entities)
    ensures NoDup(Names(ParseLines(p).entities))
    ensures forall q :: 0 <= q < |ParseLines(p).entities| ==> ParseLines(p).entities[q].name in HeaderNames(p)
  {
    var st := ParseLines(p);
    LastAnyHeaderFacts(p);
    DedupMembers(HeaderNames(p));
    forall q | 0 <= q < |st.entities|
      ensures st.entities[q].name in HeaderNames(p)
    {
      assert Names(st.entities)[q] in Names(st.entities);
    }
    if st.current.None? {
      if st.entities != [] {
        assert Names(st.entities)[0] in HeaderNames(p);
        HeaderNamesMembers(p, Names(st.entities)[0]);
      }
    } else {
      var k := st.current.value;
      var i :| 0 <= i < |p| && p[i] == Header(k);
      HeaderNamesMembers(p, k);
    }
  }

  /** A bullet line keeps the description. */
  lemma BulletStep(p: seq<LineKind>, v: string)
    requires NamedHeaders(p)
    requires Describes(p, ParseLines(p))
    ensures Describes(p + [Bullet(v)], ParseLines(p + [Bullet(v)]))
  {
    var x := Bullet(v);
    var kinds := p + [x];
    SnocFacts(p, x);
    assert HeaderNames(p) + [] == HeaderNames(p);
    CurrentIsKey(p);
    var st := ParseLines(p);
    if st.current.Some? {
      var k := st.current.value;
      AssignNames(st.entities, k, Lookup(st.entities, k).value + [v]);
      var r := ParseLines(kinds).entities;
      forall q | 0 <= q < |r|
        ensures r[q].values == Bullets(Section(kinds, r[q].name))
      {
        BulletStepEntry(p, v, q);
      }
    } else {
      assert ParseLines(kinds) == st;
    }
  }

  /** One entry after a bullet line still holds its section's bullets. */
  lemma BulletStepEntry(p: seq<LineKind>, v: string, q: nat)
    requires NamedHeaders(p)
    requires Describes(p, ParseLines(p))
    requires ParseLines(p).current.Some?
    requires q < |ParseLines(p + [Bullet(v)]).entities|
    ensures var r := ParseLines(p + [Bullet(v)]).entities;
            r[q].values == Bullets(Section(p + [Bullet(v)], r[q].name))
  {
    var x := Bullet(v);
    var kinds := p + [x];
    SnocFacts(p, x);
    CurrentIsKey(p);
    var st := ParseLines(p);
    var es := st.entities;
    var k := st.current.value;
    var vs := Lookup(es, k).value;
    var pk :| 0 <= pk < |es| && es[pk] == Category(k, vs);
    var r := Assign(es, k, vs + [v]);
    assert ParseLines(kinds) == ParseState(r, st.current);
    AssignNames(es, k, vs + [v]);
    AssignAt(es, k, vs + [v], q);
    assert Names(r)[q] == Names(es)[q];
    var n := r[q].name;
    SectionHasHeader(p, n);
    SectionStep(p, x, n);
    if n == k {
      assert q == pk by {
        assert Names(es)[q] == Names(es)[pk];
      }
    }
  }

  /** A plain line keeps the description. */
  lemma PlainStep(p: seq<LineKind>)
    requires Describes(p, ParseLines(p))
    ensures Describes(p + [Plain], ParseLines(p + [Plain]))
  {
    var kinds := p + [Plain];
    SnocFacts(p, Plain);
    assert HeaderNames(p) + [] == HeaderNames(p);
    var es := ParseLines(p).entities;
    forall q | 0 <= q < |es|
      ensures es[q].values == Bullets(Section(kinds, es[q].name))
    {
      SectionStep(p, Plain, es[q].name);
    }
  }

  /** The loop's state after any prefix is the one the reference describes. */
  lemma {:induction false} ParseLinesDescribed(kinds: seq<LineKind>)
    requires NamedHeaders(kinds)
    ensures Describes(kinds, ParseLines(kinds))
    decreases |kinds|
  {
    if kinds != [] {
      var p := kinds[..|kinds| - 1];
      var x := kinds[|kinds| - 1];
      assert kinds == p + [x];
      assert NamedHeaders(p) by {
        assert forall i :: 0 <= i < |p| ==> p[i] == kinds[i];
      }
      ParseLinesDescribed(p);
      match x
      case Header(name) => HeaderStep(p, name);
      case Bullet(v) => BulletStep(p, v);
      case Plain => PlainStep(p);
    }
  }

  /** A name that has a header has a last header, and its section is the slice after it. */
  lemma SectionOfHeader(kinds: seq<LineKind>, n: string)
    requires n in HeaderNames(kinds)
    ensures 0 <= LastHeader(kinds, n)
    ensures Section(kinds, n) == kinds[LastHeader(kinds, n) + 1..]
  {
    HeaderNamesMembers(kinds, n);
    SectionIsSlice(kinds, n);
  }

  /** An entry whose values are its section's bullets holds the bullets after its last header. */
  lemma EntryIsSegment(kinds: seq<LineKind>, e: Category)
    requires e.name in HeaderNames(kinds)
    requires e.values == Bullets(Section(kinds, e.name))
    ensures 0 <= LastHeader(kinds, e.name)
    ensures e.values == Bullets(kinds[LastHeader(kinds, e.name) + 1..])
  {
    SectionOfHeader(kinds, e.name);
  }

  /** The keys the loop produces: the header names, each once, in order of first appearance. */
  lemma ParseLinesKeys(kinds: seq<LineKind>)
    requires NamedHeaders(kinds)
    ensures Names(ParseLines(kinds).entities) == Dedup(HeaderNames(kinds))
    ensures NoDup(Names(ParseLines(kinds).entities))
  {
    ParseLinesDescribed(kinds);
    DedupMembers(HeaderNames(kinds));
  }

  /** One entry of the loop's result holds the bullets after its key's last header. */
  lemma EntryValues(kinds: seq<LineKind>, q: nat)
    requires NamedHeaders(kinds)
    requires q < |ParseLines(kinds).entities|
    ensures Fits(kinds, ParseLines(kinds).entities[q])
  {
    ParseLinesDescribed(kinds);
    CurrentIsKey(kinds);
    EntryIsSegment(kinds, ParseLines(kinds).entities[q]);
  }

  /** The lists the loop produces: each key holds the values of the bullet lines
      between the last header naming it and the next header. */
  lemma ParseLinesValues(kinds: seq<LineKind>)
    requires NamedHeaders(kinds)
    ensures var r := ParseLines(kinds).entities;
            forall p :: 0 <= p < |r| ==> Fits(kinds, r[p])
  {
    var r := ParseLines(kinds).entities;
    forall p | 0 <= p < |r|
      ensures Fits(kinds, r[p])
    {
      EntryValues(kinds, p);
    }
  }

  /** What the loop returns for any classified lines whose headers are named. */
  lemma ParseLinesSpec(kinds: seq<LineKind>)
    requires NamedHeaders(kinds)
    ensures IsParseOf(ParseLines(kinds).entities, kinds)
  {
    ParseLinesKeys(kinds);
    ParseLinesValues(kinds);
  }

  /** `parse_entities(text)` is exactly what the reference describes for the
      classified lines of `text`. */
  lemma ParseEntitiesSpec(text: string)
    ensures IsParseOf(ParseEntities(text), KindsOf(text))
  {
    ClassifiedHeadersNamed(text);
    ParseLinesSpec(KindsOf(text));
  }

  /** Headers read from text always carry a non-empty name. */
  lemma ClassifiedHeadersNamed(text: string)
    ensures NamedHeaders(KindsOf(text))
  {
    var kinds := KindsOf(text);
    forall i | 0 <= i < |kinds| && kinds[i].Header?
      ensures kinds[i].name != ""
    {
      assert kinds[i] == Classify(PyStr.SplitLines(text)[i]);
    }
  }
}
