/** The `/entity-dict` parser (`parse_entities`, main.py): a single left-to-right
    pass over the lines of a model's markdown answer. `**Category**` lines open
    (or reopen) a category, `* value` lines add a value to the category opened
    last, and every other line is ignored. The result is an ordered list of
    categories, the model of Python's insertion-ordered `dict[str, list[str]]`. */
module Entities {
  import opened Prelude
  import PyStr

  /** The three things a stripped line can be. */
  datatype LineKind = Header(name: string) | Bullet(value: string) | Plain

  /** With `line` starting "**", a group of `k` characters followed by "**"
      matches `\*\*(.+?)\*\*`: the group is non-empty and `.` never matches "\n". */
  ghost predicate ClosesAt(line: string, k: int)
  {
    && 1 <= k
    && 2 + k + 2 <= |line|
    && line[2 + k] == '*' && line[2 + k + 1] == '*'
    && forall i :: 2 <= i < 2 + k ==> line[i] != '\n'
  }

  /** The search behind the lazy `.+?`: try group lengths `k`, `k + 1`, ... and stop at the first that closes. */
  function ScanClose(line: string, k: nat): (r: Option<string>)
    requires 1 <= k && "**" <= line
    requires forall j :: 1 <= j < k ==> !ClosesAt(line, j)
    requires forall i :: 2 <= i < 2 + k - 1 && i < |line| ==> line[i] != '\n'
    ensures r.Some? ==> && k <= |r.value|
                        && 2 + |r.value| <= |line|
                        && r.value == line[2..2 + |r.value|]
                        && ClosesAt(line, |r.value|)
                        && forall j :: 1 <= j < |r.value| ==> !ClosesAt(line, j)
    ensures r.None? ==> forall j :: !ClosesAt(line, j)
    decreases |line| - k
  {
    if 2 + k + 2 > |line| then None
    else if line[2 + k - 1] == '\n' then None
    else if line[2 + k] == '*' && line[2 + k + 1] == '*' then Some(line[2..2 + k])
    else ScanClose(line, k + 1)
  }

  /** `re.match(r"\*\*(.+?)\*\*", line)` and its `group(1)`: the line must start
      with "**", and the name is the shortest non-empty, newline-free run that is
      followed by another "**". */
  function MatchHeader(line: string): (r: Option<string>)
    ensures r.Some? <==> "**" <= line && exists k :: ClosesAt(line, k)
    ensures r.Some? ==> && |r.value| >= 1
                        && 2 + |r.value| <= |line|
                        && r.value == line[2..2 + |r.value|]
                        && ClosesAt(line, |r.value|)
                        && forall j :: 1 <= j < |r.value| ==> !ClosesAt(line, j)
  {
    if "**" <= line then ScanClose(line, 1) else None
  }

  /** `value` is what is left of `line` once its whole leading run of stars,
      at least one, is removed and the rest stripped. */
  ghost predicate BulletOf(line: string, value: string)
  {
    exists i :: && 1 <= i <= |line|
                && (forall k :: 0 <= k < i ==> line[k] == '*')
                && (i == |line| || line[i] != '*')
                && value == PyStr.Strip(line[i..])
  }

  /** How one raw line is read: stripped, then tried as a header, and only
      failing that as a bullet whose value is the line without its leading
      stars, stripped again. */
  function Classify(raw: string): (kind: LineKind)
    ensures kind.Header? <==> MatchHeader(PyStr.Strip(raw)).Some?
    ensures kind.Header? ==> Some(kind.name) == MatchHeader(PyStr.Strip(raw)) && kind.name != ""
    ensures kind.Bullet? ==> BulletOf(PyStr.Strip(raw), kind.value)
    ensures kind.Bullet? <==> MatchHeader(PyStr.Strip(raw)).None? && "*" <= PyStr.Strip(raw)
    ensures kind.Plain? ==> !("*" <= PyStr.Strip(raw))
  {
    var line := PyStr.Strip(raw);
    match MatchHeader(line)
    case Some(name) => Header(name)
    case None =>
      if "*" <= line then Bullet(PyStr.Strip(PyStr.LStrip(line, '*'))) else Plain
  }

  /** One entry of the result: a category name and its values in order. */
  datatype Category = Category(name: string, values: seq<string>)

  /** The loop state of `parse_entities`: the entries so far and `current_key`. */
  datatype ParseState = ParseState(entities: seq<Category>, current: Option<string>)

  /** The category names of `es`, in order. */
  function Names(es: seq<Category>): (ns: seq<string>)
    ensures |ns| == |es|
    ensures forall p :: 0 <= p < |es| ==> ns[p] == es[p].name
  {
    seq(|es|, p requires 0 <= p < |es| => es[p].name)
  }

  /** No element occurs twice. */
  predicate NoDup<T(==)>(s: seq<T>)
  {
    forall i, j :: 0 <= i < j < |s| ==> s[i] != s[j]
  }

  /** `entities[name]` on a dict. */
  function Lookup(es: seq<Category>, name: string): (r: Option<seq<string>>)
    ensures r.Some? <==> name in Names(es)
    ensures r.Some? ==> exists p :: 0 <= p < |es| && es[p] == Category(name, r.value)
    decreases |es|
  {
    if es == [] then None
    else if es[0].name == name then Some(es[0].values)
    else
      assert Names(es) == [es[0].name] + Names(es[1..]);
      Lookup(es[1..], name)
  }

  /** `entities[name] = values` on a dict: an existing entry keeps its place, a new one goes last. */
  function Assign(es: seq<Category>, name: string, values: seq<string>): (r: seq<Category>)
    ensures |r| == |es| || (|r| == |es| + 1 && r[|es|] == Category(name, values))
    decreases |es|
  {
    if es == [] then [Category(name, values)]
    else if es[0].name == name then [Category(name, values)] + es[1..]
    else [es[0]] + Assign(es[1..], name, values)
  }

  /** The keys after an assignment: unchanged when `name` is already a key,
      `name` added at the end otherwise. */
  lemma {:induction false} AssignNames(es: seq<Category>, name: string, values: seq<string>)
    ensures Names(Assign(es, name, values)) == if name in Names(es) then Names(es) else Names(es) + [name]
    decreases |es|
  {
    if es != [] {
      NamesAppend([es[0]], es[1..]);
      assert es == [es[0]] + es[1..];
      if es[0].name == name {
        NamesAppend([Category(name, values)], es[1..]);
      } else {
        AssignNames(es[1..], name, values);
        NamesAppend([es[0]], Assign(es[1..], name, values));
      }
    }
  }

  /** The names of a concatenation. */
  lemma NamesAppend(a: seq<Category>, b: seq<Category>)
    ensures Names(a + b) == Names(a) + Names(b)
  {
  }

  /** The keys of a tail of `es` are distinct when those of `es` are. */
  lemma NoDupTail(es: seq<Category>)
    requires es != [] && NoDup(Names(es))
    ensures NoDup(Names(es[1..]))
  {
    var t := es[1..];
    forall i, j | 0 <= i < j < |t| ensures Names(t)[i] != Names(t)[j] {
      assert Names(es)[i + 1] != Names(es)[j + 1];
    }
  }

  /** With distinct keys, the assignment replaces the list of `name` and leaves
      every other entry's list alone. */
  lemma AssignValues(es: seq<Category>, name: string, values: seq<string>)
    requires NoDup(Names(es))
    ensures var r := Assign(es, name, values);
            forall p :: 0 <= p < |r| ==> r[p].values == if r[p].name == name then values else es[p].values
  {
    var r := Assign(es, name, values);
    forall p | 0 <= p < |r|
      ensures r[p].values == if r[p].name == name then values else es[p].values
    {
      AssignAt(es, name, values, p);
    }
  }

  /** `AssignValues` at one position. */
  lemma {:induction false} AssignAt(es: seq<Category>, name: string, values: seq<string>, p: nat)
    requires NoDup(Names(es))
    requires p < |Assign(es, name, values)|
    ensures var r := Assign(es, name, values);
            r[p].values == if r[p].name == name then values else es[p].values
    decreases |es|
  {
    if es != [] {
      var t := es[1..];
      if es[0].name == name {
        if p > 0 {
          assert Names(es)[0] != Names(es)[p];
        }
      } else if p > 0 {
        NoDupTail(es);
        AssignAt(t, name, values, p - 1);
      }
    }
  }

  /** One iteration of the loop body. A header (re)opens its category with an
      empty list and becomes current; a bullet is appended to the current
      category when there is a (truthy) current key; anything else is skipped. */
  function Step(st: ParseState, kind: LineKind): ParseState
  {
    match kind
    case Header(name) => ParseState(Assign(st.entities, name, []), Some(name))
    case Bullet(value) =>
      if st.current.Some? && st.current.value != "" then
        match Lookup(st.entities, st.current.value)
        case Some(values) => ParseState(Assign(st.entities, st.current.value, values + [value]), st.current)
        // Cannot happen: the current key was entered when its header was read.
        case None => st
      else st
    case Plain => st
  }

  /** The state after the loop has consumed `kinds`, first to last. */
  function ParseLines(kinds: seq<LineKind>): ParseState
    decreases |kinds|
  {
    if kinds == [] then ParseState([], None)
    else Step(ParseLines(kinds[..|kinds| - 1]), kinds[|kinds| - 1])
  }

  /** The lines of `text`, each classified. */
  function KindsOf(text: string): seq<LineKind>
  {
    var lines := PyStr.SplitLines(text);
    seq(|lines|, i requires 0 <= i < |lines| => Classify(lines[i]))
  }

  /** `parse_entities(llm_text)`. */
  function ParseEntities(text: string): seq<Category>
  {
    ParseLines(KindsOf(text)).entities
  }
}
