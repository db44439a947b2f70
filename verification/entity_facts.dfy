/** Consequences of the `parse_entities` loop stated line by line: which lines
    contribute nothing, what a repeated header and a bullet do, and worked
    examples of single lines and of a whole answer. */
module EntityFacts {
  import opened Prelude
  import opened Entities
  import opened EntitySpec
  import EntityProof
  import PyStr

  /** The loop resumed from state `st` over further lines. */
  function Resume(st: ParseState, kinds: seq<LineKind>): ParseState
    decreases |kinds|
  {
    if kinds == [] then st else Step(Resume(st, kinds[..|kinds| - 1]), kinds[|kinds| - 1])
  }

  lemma {:induction false} ResumeFromStart(kinds: seq<LineKind>)
    ensures ParseLines(kinds) == Resume(ParseState([], None), kinds)
    decreases |kinds|
  {
    if kinds != [] {
      ResumeFromStart(kinds[..|kinds| - 1]);
    }
  }

  /** Running the loop over `a + b` is running it over `a`, then over `b`. */
  lemma {:induction false} ResumeAppend(st: ParseState, a: seq<LineKind>, b: seq<LineKind>)
    ensures Resume(st, a + b) == Resume(Resume(st, a), b)
    decreases |b|
  {
    if b == [] {
      assert a + b == a;
    } else {
      assert (a + b)[..|a + b| - 1] == a + b[..|b| - 1];
      ResumeAppend(st, a, b[..|b| - 1]);
    }
  }

  /** Lines without a header leave the state as it started: a bullet there
      finds no current key. */
  lemma {:induction false} HeaderlessIsInitial(pre: seq<LineKind>)
    requires !HasHeader(pre)
    ensures ParseLines(pre) == ParseState([], None)
    decreases |pre|
  {
    if pre != [] {
      var p := pre[..|pre| - 1];
      HeaderlessIsInitial(p);
      assert !pre[|pre| - 1].Header?;
    }
  }

  /** Lines before the first header, bullets included, contribute nothing. */
  lemma HeaderlessPrefixIgnored(pre: seq<LineKind>, rest: seq<LineKind>)
    requires !HasHeader(pre)
    ensures ParseLines(pre + rest) == ParseLines(rest)
  {
    var init := ParseState([], None);
    ResumeFromStart(pre + rest);
    ResumeAppend(init, pre, rest);
    ResumeFromStart(pre);
    HeaderlessIsInitial(pre);
    ResumeFromStart(rest);
  }

  /** A line that is neither header nor bullet contributes nothing, wherever it stands. */
  lemma PlainLineIgnored(a: seq<LineKind>, b: seq<LineKind>)
    ensures ParseLines(a + [Plain] + b) == ParseLines(a + b)
  {
    var init := ParseState([], None);
    ResumeFromStart(a + [Plain] + b);
    ResumeAppend(init, a + [Plain], b);
    ResumeFromStart(a + [Plain]);
    assert (a + [Plain])[..|a|] == a;
    ResumeFromStart(a);
    ResumeAppend(init, a, b);
    ResumeFromStart(a + b);
  }

  /** A header naming an existing category empties that category's list and
      makes it current, without moving it or touching the others. */
  lemma RepeatedHeaderResets(kinds: seq<LineKind>, name: string)
    requires NamedHeaders(kinds)
    requires exists i :: 0 <= i < |kinds| && kinds[i] == Header(name)
    ensures var before := ParseLines(kinds).entities;
            var after := ParseLines(kinds + [Header(name)]);
            && Names(after.entities) == Names(before)
            && after.current == Some(name)
            && forall p :: 0 <= p < |before| ==>
                 after.entities[p].values == if before[p].name == name then [] else before[p].values
  {
    EntityProof.ParseLinesKeys(kinds);
    DedupMembers(HeaderNames(kinds));
    HeaderNamesMembers(kinds, name);
    AssignNames(ParseLines(kinds).entities, name, []);
    AssignValues(ParseLines(kinds).entities, name, []);
    assert (kinds + [Header(name)])[..|kinds|] == kinds;
  }

  /** A bullet after some header is appended to the category of the last header
      read, and only to it. */
  lemma BulletGoesToLastHeader(kinds: seq<LineKind>, value: string)
    requires NamedHeaders(kinds) && HasHeader(kinds)
    ensures var before := ParseLines(kinds);
            var after := ParseLines(kinds + [Bullet(value)]);
            && Names(after.entities) == Names(before.entities)
            && after.current == before.current == LastAnyHeader(kinds)
            && forall p :: 0 <= p < |before.entities| ==>
                 after.entities[p].values ==
                   if Some(before.entities[p].name) == LastAnyHeader(kinds)
                   then before.entities[p].values + [value]
                   else before.entities[p].values
  {
    var before := ParseLines(kinds);
    var after := ParseLines(kinds + [Bullet(value)]);
    BulletUpdatesCurrent(kinds, value);
    AssignNames(before.entities, before.current.value, Lookup(before.entities, before.current.value).value + [value]);
    forall p | 0 <= p < |before.entities|
      ensures after.entities[p].values ==
                if Some(before.entities[p].name) == LastAnyHeader(kinds)
                then before.entities[p].values + [value]
                else before.entities[p].values
    {
      BulletEntry(kinds, value, p);
    }
  }

  /** After a header the current key is the last header's name, a key of the
      state, and a bullet assigns that key its list with the value appended. */
  lemma BulletUpdatesCurrent(kinds: seq<LineKind>, value: string)
    requires NamedHeaders(kinds) && HasHeader(kinds)
    ensures var before := ParseLines(kinds);
            && before.current == LastAnyHeader(kinds)
            && before.current.Some?
            && NoDup(Names(before.entities))
            && Lookup(before.entities, before.current.value).Some?
            && ParseLines(kinds + [Bullet(value)]) ==
                 ParseState(Assign(before.entities, before.current.value,
                                   Lookup(before.entities, before.current.value).value + [value]),
                            before.current)
  {
    EntityProof.ParseLinesDescribed(kinds);
    EntityProof.CurrentIsKey(kinds);
    LastAnyHeaderFacts(kinds);
    EntityProof.SnocFacts(kinds, Bullet(value));
  }

  /** One entry after a bullet: the current key's list grows by the value, the
      others stay. */
  lemma BulletEntry(kinds: seq<LineKind>, value: string, p: nat)
    requires NamedHeaders(kinds) && HasHeader(kinds)
    requires p < |ParseLines(kinds).entities|
    ensures var before := ParseLines(kinds).entities;
            var after := ParseLines(kinds + [Bullet(value)]).entities;
            && p < |after|
            && after[p].values ==
                 if Some(before[p].name) == LastAnyHeader(kinds) then before[p].values + [value] else before[p].values
  {
    var st := ParseLines(kinds);
    BulletUpdatesCurrent(kinds, value);
    AppendToKey(st.entities, st.current.value, value, p);
  }

  /** Appending to the list of an existing key, seen at one position. */
  lemma AppendToKey(es: seq<Category>, key: string, value: string, p: nat)
    requires NoDup(Names(es)) && Lookup(es, key).Some? && p < |es|
    ensures var after := Assign(es, key, Lookup(es, key).value + [value]);
            && p < |after|
            && after[p].values == if es[p].name == key then Lookup(es, key).value + [value] else es[p].values
  {
    var values := Lookup(es, key).value;
    var after := Assign(es, key, values + [value]);
    AssignNames(es, key, values + [value]);
    AssignAt(es, key, values + [value], p);
    assert Names(after)[p] == Names(es)[p];
    if es[p].name == key {
      var q :| 0 <= q < |es| && es[q] == Category(key, values);
      assert Names(es)[p] == Names(es)[q];
    }
  }

  /** The header name is the one shortest closing group: any non-empty group
      that closes, with no shorter one closing, is what `MatchHeader` returns. */
  lemma MatchHeaderShortest(line: string, name: string)
    requires "**" <= line && 2 + |name| <= |line| && line[2..2 + |name|] == name
    requires ClosesAt(line, |name|)
    requires forall j :: 1 <= j < |name| ==> !ClosesAt(line, j)
    ensures MatchHeader(line) == Some(name)
  {
    var r := MatchHeader(line);
    assert r.Some?;
    assert |r.value| == |name|;
  }

  /** A stripped line that starts with a star, and has no star after its third
      character to close a header, is read as a bullet. */
  lemma BulletLine(line: string, rest: string, value: string)
    requires line != [] && !PyStr.IsSpace(line[0]) && !PyStr.IsSpace(line[|line| - 1])
    requires line[0] == '*' && forall i :: 3 <= i < |line| ==> line[i] != '*'
    requires PyStr.LStrip(line, '*') == rest && PyStr.Strip(rest) == value
    ensures Classify(line) == Bullet(value)
  {
    StrippedLine(line);
    NoClosingStars(line);
  }

  /** A line with no blank at either end is its own strip. */
  lemma StrippedLine(line: string)
    requires line != [] && !PyStr.IsSpace(line[0]) && !PyStr.IsSpace(line[|line| - 1])
    ensures PyStr.Strip(line) == line
  {
    PyStr.StripExact(line, 0, |line|);
    assert line[0..|line|] == line;
  }

  /** Without a star after the third character no group can close a header. */
  lemma NoClosingStars(line: string)
    requires forall i :: 3 <= i < |line| ==> line[i] != '*'
    ensures MatchHeader(line).None?
  {
    forall k ensures !ClosesAt(line, k) {
      if 1 <= k && 2 + k + 2 <= |line| {
        assert line[2 + k] != '*';
      }
    }
  }

  // The worked examples below take their input as a parameter pinned by
  // `requires` rather than as a literal argument: the verifier then follows the
  // steps the proof names instead of unfolding every function on the literal.

  /** A bullet loses its star and the blanks after it. */
  lemma ClassifyBullet(line: string)
    requires line == "* Alice"
    ensures Classify(line) == Bullet("Alice")
  {
    PyStr.LStripExact(line, '*', 1);
    PyStr.StripExact(line[1..], 1, 6);
    BulletLine(line, line[1..], "Alice");
  }

  /** A bullet loses all its leading stars. */
  lemma ClassifyStarredBullet(line: string)
    requires line == "*** Bob"
    ensures Classify(line) == Bullet("Bob")
  {
    var rest := line[3..];
    assert rest == " Bob";
    PyStr.LStripExact(line, '*', 3);
    PyStr.StripExact(rest, 1, 4);
    assert forall i :: 3 <= i < |line| ==> line[i] == rest[i - 3];
    BulletLine(line, rest, "Bob");
  }

  /** Two stars alone make no header (the group must be non-empty) but an empty bullet. */
  lemma ClassifyEmptyBullet()
    ensures Classify("**") == Bullet("")
  {
    PyStr.LStripExact("**", '*', 2);
    BulletLine("**", "", "");
  }

  /** A stripped line the header pattern matches is a header, whatever else it holds. */
  lemma HeaderLine(line: string, name: string)
    requires line != [] && !PyStr.IsSpace(line[0]) && !PyStr.IsSpace(line[|line| - 1])
    requires MatchHeader(line) == Some(name)
    ensures Classify(line) == Header(name)
  {
    StrippedLine(line);
  }

  /** A line that matches the header pattern is a header, though it starts with `*`. */
  lemma ClassifyHeader()
    ensures Classify("**Person**") == Header("Person")
  {
    MatchHeaderShortest("**Person**", "Person");
    HeaderLine("**Person**", "Person");
  }

  /** The lazy group stops at the first closing `**`. */
  lemma ClassifyShortestHeader()
    ensures Classify("**a** and **b**") == Header("a")
  {
    MatchHeaderShortest("**a** and **b**", "a");
    HeaderLine("**a** and **b**", "a");
  }

  /** The group may itself be a star. */
  lemma ClassifyStarHeader()
    ensures Classify("*****") == Header("*")
  {
    MatchHeaderShortest("*****", "*");
    HeaderLine("*****", "*");
  }

  /** Any other line is plain. */
  lemma ClassifyPlain()
    ensures Classify("Person:") == Plain
  {
    PyStr.StripExact("Person:", 0, 7);
  }

  /** A name that is no key of `es` is neither its first key nor a key of the rest. */
  lemma NamesOfTail(es: seq<Category>, name: string)
    requires es != [] && name !in Names(es)
    ensures es[0].name != name && name !in Names(es[1..])
  {
    assert Names(es)[0] == es[0].name;
    forall p | 0 <= p < |es| - 1
      ensures Names(es[1..])[p] != name
    {
      assert Names(es[1..])[p] == Names(es)[p + 1];
    }
  }

  /** Assigning a name that is not yet a key appends a new entry. */
  lemma {:induction false} AssignAbsent(es: seq<Category>, name: string, values: seq<string>)
    requires name !in Names(es)
    ensures Assign(es, name, values) == es + [Category(name, values)]
    decreases |es|
  {
    if es != [] {
      NamesOfTail(es, name);
      AssignAbsent(es[1..], name, values);
      assert es + [Category(name, values)] == [es[0]] + (es[1..] + [Category(name, values)]);
    }
  }

  /** Looking up the last entry, when its name occurs nowhere before it. */
  lemma {:induction false} LookupLast(es: seq<Category>, name: string, values: seq<string>)
    requires name !in Names(es)
    ensures Lookup(es + [Category(name, values)], name) == Some(values)
    decreases |es|
  {
    var all := es + [Category(name, values)];
    if es == [] {
      assert all == [Category(name, values)];
    } else {
      NamesOfTail(es, name);
      assert all[0] == es[0] && all[1..] == es[1..] + [Category(name, values)];
      LookupLast(es[1..], name, values);
    }
  }

  /** Assigning the last entry, when its name occurs nowhere before it, replaces it in place. */
  lemma {:induction false} AssignLast(es: seq<Category>, name: string, values: seq<string>, update: seq<string>)
    requires name !in Names(es)
    ensures Assign(es + [Category(name, values)], name, update) == es + [Category(name, update)]
    decreases |es|
  {
    var all := es + [Category(name, values)];
    if es == [] {
      assert all == [Category(name, values)];
    } else {
      NamesOfTail(es, name);
      assert all[0] == es[0] && all[1..] == es[1..] + [Category(name, values)];
      assert Assign(all, name, update) == [es[0]] + Assign(es[1..] + [Category(name, values)], name, update);
      AssignLast(es[1..], name, values, update);
      assert es + [Category(name, update)] == [es[0]] + (es[1..] + [Category(name, update)]);
    }
  }

  /** A header with a new name opens a new, empty, last category and becomes current. */
  lemma NewHeaderAppends(st: ParseState, name: string)
    requires name !in Names(st.entities)
    ensures Step(st, Header(name)) == ParseState(st.entities + [Category(name, [])], Some(name))
  {
    AssignAbsent(st.entities, name, []);
  }

  /** A bullet while the last category is current goes to the end of its list. */
  lemma BulletOntoLast(es: seq<Category>, name: string, values: seq<string>, value: string)
    requires name != "" && name !in Names(es)
    ensures Step(ParseState(es + [Category(name, values)], Some(name)), Bullet(value))
            == ParseState(es + [Category(name, values + [value])], Some(name))
  {
    LookupLast(es, name, values);
    AssignLast(es, name, values, values + [value]);
  }

  /** One more line of `k` is one more step of the loop. */
  lemma PrefixStep(k: seq<LineKind>, i: nat, st: ParseState)
    requires 0 < i <= |k| && ParseLines(k[..i - 1]) == st
    ensures ParseLines(k[..i]) == Step(st, k[i - 1])
  {
    assert k[..i][..i - 1] == k[..i - 1];
  }

  /** The lines of the worked example below, pinned by `requires` in each of
      its lemmas for the same reason as the single-line examples. */
  const ExampleKinds: seq<LineKind> :=
    [Bullet("x"), Header("Person"), Bullet("Alice"), Plain, Bullet("Bob"), Header("Location"), Bullet("Paris")]

  /** The example up to its first bullet under a header: the stray bullet is dropped. */
  lemma ExampleFirstLines(k: seq<LineKind>)
    requires k == ExampleKinds
    ensures ParseLines(k[..3]) == ParseState([Category("Person", ["Alice"])], Some("Person"))
  {
    var start := ParseState([], None);
    var person := Category("Person", []);
    assert k[..0] == [];
    PrefixStep(k, 1, start);
    PrefixStep(k, 2, start);
    NewHeaderAppends(start, "Person");
    assert [] + [person] == [person];
    PrefixStep(k, 3, ParseState([person], Some("Person")));
    BulletOntoLast([], "Person", [], "Alice");
    assert [] + ["Alice"] == ["Alice"];
    assert [] + [Category("Person", ["Alice"])] == [Category("Person", ["Alice"])];
  }

  /** The example up to its second bullet: the plain line is skipped. */
  lemma ExampleMiddleLines(k: seq<LineKind>)
    requires k == ExampleKinds
    ensures ParseLines(k[..5]) == ParseState([Category("Person", ["Alice", "Bob"])], Some("Person"))
  {
    var alice := Category("Person", ["Alice"]);
    ExampleFirstLines(k);
    PrefixStep(k, 4, ParseState([alice], Some("Person")));
    PrefixStep(k, 5, ParseState([alice], Some("Person")));
    BulletOntoLast([], "Person", ["Alice"], "Bob");
    assert ["Alice"] + ["Bob"] == ["Alice", "Bob"];
    assert [] + [alice] == [alice];
    assert [] + [Category("Person", ["Alice", "Bob"])] == [Category("Person", ["Alice", "Bob"])];
  }

  /** The whole pass over classified lines: categories in order of their first
      header, values in line order, a bullet before any header and a plain
      line dropped. */
  lemma ParseLinesExample(k: seq<LineKind>)
    requires k == ExampleKinds
    ensures ParseLines(k).entities == [Category("Person", ["Alice", "Bob"]), Category("Location", ["Paris"])]
  {
    var people := Category("Person", ["Alice", "Bob"]);
    var location := Category("Location", []);
    ExampleMiddleLines(k);
    PrefixStep(k, 6, ParseState([people], Some("Person")));
    NewHeaderAppends(ParseState([people], Some("Person")), "Location");
    assert [people] + [location] == [people, location];
    PrefixStep(k, 7, ParseState([people, location], Some("Location")));
    BulletOntoLast([people], "Location", [], "Paris");
    assert [] + ["Paris"] == ["Paris"];
    assert k[..7] == k;
  }
}
