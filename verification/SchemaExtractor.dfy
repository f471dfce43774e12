/**
 Expansion of a ROS message definition: the root's own lines, then one "MSG:"
 section for every message type it refers to, directly or through others.
 */
module SchemaExtraction {
  import opened Common

  /** A message type such as "std_msgs/Header". */
  type Type = string

  /** One line of a definition file, and the message type it refers to if its
      first word is not a comment or a builtin. */
  datatype Line = Line(text: string, ref: Option<Type>)

  /** The installed definition files. */
  type Library = map<Type, seq<Line>>

  const HEADER_TYPE: Type := "std_msgs/Header"

  // ---------------------------------------------------------- the type graph

  function RefsOf(lines: seq<Line>): set<Type> {
    set i | 0 <= i < |lines| && lines[i].ref.Some? :: lines[i].ref.value
  }

  function Refs(lib: Library, t: Type): set<Type> {
    if t in lib then RefsOf(lib[t]) else {}
  }

  /** Every type a definition mentions. */
  function Mentioned(lib: Library): set<Type> {
    set t, u | t in lib && u in RefsOf(lib[t]) :: u
  }

  /** `b` is reached from `a` by exactly `n` reference steps. */
  ghost predicate ReachedIn(lib: Library, a: Type, b: Type, n: nat)
    decreases n
  {
    if n == 0 then a == b else exists mid | mid in Refs(lib, a) :: ReachedIn(lib, mid, b, n - 1)
  }

  /** Reached by at least one step. */
  ghost predicate Reaches(lib: Library, a: Type, b: Type) {
    exists n: nat :: n > 0 && ReachedIn(lib, a, b, n)
  }

  lemma StepReaches(lib: Library, a: Type, mid: Type, b: Type)
    requires mid in Refs(lib, a) && (mid == b || Reaches(lib, mid, b))
    ensures Reaches(lib, a, b)
  {
    if mid == b {
      assert ReachedIn(lib, mid, b, 0);
      assert ReachedIn(lib, a, b, 1);
    } else {
      var n: nat :| n > 0 && ReachedIn(lib, mid, b, n);
      assert ReachedIn(lib, a, b, n + 1);
    }
  }

  /** A set closed under references and holding those of `a` holds whatever `a` reaches. */
  lemma {:induction false} ClosedHoldsReached(lib: Library, closed: set<Type>, a: Type, b: Type, n: nat)
    requires Refs(lib, a) <= closed && forall x | x in closed :: Refs(lib, x) <= closed
    requires n > 0 && ReachedIn(lib, a, b, n)
    ensures b in closed
    decreases n
  {
    var mid :| mid in Refs(lib, a) && ReachedIn(lib, mid, b, n - 1);
    if n > 1 {
      ClosedHoldsReached(lib, closed, mid, b, n - 1);
    }
  }

  // ------------------------------------------------------------- the traversal

  /** Reading a file: the references met for the first time, in order. */
  datatype Scanned = Scanned(nested: seq<Type>, processed: set<Type>)

  function Scan(lines: seq<Line>, processed: set<Type>): Scanned {
    if lines == [] then Scanned([], processed)
    else
      var before := Scan(lines[..|lines| - 1], processed);
      var ref := lines[|lines| - 1].ref;
      if ref.Some? && ref.value !in before.processed
      then Scanned(before.nested + [ref.value], before.processed + {ref.value})
      else before
  }

  lemma {:induction false} ScanFindsNew(lines: seq<Line>, processed: set<Type>)
    ensures var s := Scan(lines, processed);
            && s.processed == processed + RefsOf(lines)
            && Enumerates(s.nested, RefsOf(lines) - processed)
  {
    if lines != [] {
      var front, last := lines[..|lines| - 1], lines[|lines| - 1];
      ScanFindsNew(front, processed);
      assert lines == front + [last];
      RefsOfAppend(front, last);
      if Scan(lines, processed) != Scan(front, processed) {
        EnumeratesConcat(Scan(front, processed).nested, RefsOf(front) - processed, [last.ref.value], {last.ref.value});
      }
    } else {
      assert RefsOf(lines) == {};
    }
  }

  lemma RefsOfAppend(front: seq<Line>, last: Line)
    ensures RefsOf(front + [last]) == RefsOf(front) + if last.ref.Some? then {last.ref.value} else {}
  {
    var all := front + [last];
    forall u | u in RefsOf(front)
      ensures u in RefsOf(all)
    {
      var i :| 0 <= i < |front| && front[i].ref.Some? && front[i].ref.value == u;
      assert all[i] == front[i];
    }
    assert all[|front|] == last;
  }

  /** The standard header goes last when something else was found too. */
  function HeaderLast(nested: seq<Type>): seq<Type> {
    if |nested| >= 2 && nested[0] == HEADER_TYPE then nested[1..] + [nested[0]] else nested
  }

  lemma HeaderLastReorders(nested: seq<Type>, elements: set<Type>)
    requires Enumerates(nested, elements)
    ensures Enumerates(HeaderLast(nested), elements)
  {
    var moved := HeaderLast(nested);
    if moved != nested {
      forall x | x in elements
        ensures x in moved
      {
        var i :| 0 <= i < |nested| && nested[i] == x;
        assert moved[if i == 0 then |moved| - 1 else i - 1] == x;
      }
    }
  }

  /** `sections` are the types of the "MSG:" sections written, in order. */
  datatype Built = Built(ok: bool, sections: seq<Type>, processed: set<Type>)

  function Build(lib: Library, t: Type, processed: set<Type>, root: bool): (b: Built)
    ensures processed <= b.processed
    decreases |Mentioned(lib) - processed|, 0, 0
  {
    if t !in lib then Built(false, [], processed)
    else
      var scanned := Scan(lib[t], processed);
      var own := if root then [] else [t];
      ScanFindsNew(lib[t], processed);
      if scanned.nested == [] then Built(true, own, scanned.processed)
      else
        ScanShrinks(lib, t, processed);
        var rest := BuildAll(lib, HeaderLast(scanned.nested), scanned.processed);
        Built(rest.ok, own + rest.sections, rest.processed)
  }

  function BuildAll(lib: Library, nested: seq<Type>, processed: set<Type>): (b: Built)
    ensures processed <= b.processed
    decreases |Mentioned(lib) - processed|, 1, |nested|
  {
    if nested == [] then Built(true, [], processed)
    else
      var before := BuildAll(lib, nested[..|nested| - 1], processed);
      if !before.ok then before
      else
        SmallerRest(Mentioned(lib), processed, before.processed);
        var last := Build(lib, nested[|nested| - 1], before.processed, false);
        Built(last.ok, before.sections + last.sections, last.processed)
  }

  lemma SmallerRest(all: set<Type>, a: set<Type>, b: set<Type>)
    requires a <= b
    ensures |all - b| <= |all - a|
  {
    assert all - a == (all - b) + (all * (b - a));
  }

  /** Finding something new leaves fewer types to find. */
  lemma ScanShrinks(lib: Library, t: Type, processed: set<Type>)
    requires t in lib && Scan(lib[t], processed).nested != []
    ensures |Mentioned(lib) - Scan(lib[t], processed).processed| < |Mentioned(lib) - processed|
  {
    var scanned := Scan(lib[t], processed);
    ScanFindsNew(lib[t], processed);
    var found := scanned.nested[0];
    assert found in scanned.nested;
    assert found in Mentioned(lib) - processed;
    SmallerRest(Mentioned(lib), processed + {found}, scanned.processed);
    assert Mentioned(lib) - (processed + {found}) == (Mentioned(lib) - processed) - {found};
  }

  // --------------------------------------------------- what a success means

  /** Everything newly processed is defined, and so is everything it refers to
      processed. */
  ghost predicate Explored(lib: Library, before: set<Type>, after: set<Type>) {
    forall x | x in after - before :: x in lib && Refs(lib, x) <= after
  }

  lemma {:induction false} BuildExplores(lib: Library, t: Type, processed: set<Type>, root: bool)
    requires Build(lib, t, processed, root).ok && (root || t in processed)
    ensures var b := Build(lib, t, processed, root);
            && t in lib && Refs(lib, t) <= b.processed
            && Explored(lib, processed, b.processed)
            && Enumerates(b.sections, (b.processed - processed) + Own(t, root))
    decreases |Mentioned(lib) - processed|, 0, 0
  {
    var scanned := Scan(lib[t], processed);
    var found := RefsOf(lib[t]) - processed;
    ScanFindsNew(lib[t], processed);
    if scanned.nested != [] {
      ScanShrinks(lib, t, processed);
      HeaderLastReorders(scanned.nested, found);
      var nested := HeaderLast(scanned.nested);
      BuildAllExplores(lib, nested, scanned.processed, found);
      assert scanned.processed == processed + found;
      JoinExploredBelow(lib, t, processed, found, BuildAll(lib, nested, scanned.processed), root);
    } else {
      assert forall x | x in found :: x in scanned.nested;
      assert found == {};
      assert (scanned.processed - processed) + Own(t, root) == Own(t, root);
    }
  }

  function Own(t: Type, root: bool): set<Type> {
    if root then {} else {t}
  }

  /** Types found in a file, `found`, together with those found below it. */
  lemma JoinExploredBelow(lib: Library, t: Type, processed: set<Type>, found: set<Type>, rest: Built, root: bool)
    requires root || t in processed
    requires t in lib && found == RefsOf(lib[t]) - processed && processed + found <= rest.processed
    requires forall x | x in found :: x in lib && Refs(lib, x) <= rest.processed
    requires Explored(lib, processed + found, rest.processed)
    requires Enumerates(rest.sections, (rest.processed - (processed + found)) + found)
    ensures Refs(lib, t) <= rest.processed && Explored(lib, processed, rest.processed)
    ensures Enumerates((if root then [] else [t]) + rest.sections, (rest.processed - processed) + Own(t, root))
  {
    assert (rest.processed - (processed + found)) + found == rest.processed - processed;
    var own := if root then [] else [t];
    EnumeratesConcat(own, Own(t, root), rest.sections, rest.processed - processed);
    assert (rest.processed - processed) + Own(t, root) == Own(t, root) + (rest.processed - processed);
  }

  lemma {:induction false} BuildAllExplores(lib: Library, nested: seq<Type>, processed: set<Type>, elements: set<Type>)
    requires BuildAll(lib, nested, processed).ok
    requires Enumerates(nested, elements) && elements <= processed
    ensures var b := BuildAll(lib, nested, processed);
            && (forall x | x in elements :: x in lib && Refs(lib, x) <= b.processed)
            && Explored(lib, processed, b.processed)
            && Enumerates(b.sections, (b.processed - processed) + elements)
    decreases |Mentioned(lib) - processed|, 1, |nested|
  {
    if nested != [] {
      var front, last := nested[..|nested| - 1], nested[|nested| - 1];
      var before := BuildAll(lib, front, processed);
      EnumeratesFront(nested, elements);
      BuildAllExplores(lib, front, processed, elements - {last});
      SmallerRest(Mentioned(lib), processed, before.processed);
      BuildExplores(lib, last, before.processed, false);
      JoinSiblings(lib, processed, elements, before, last, Build(lib, last, before.processed, false));
    } else {
      assert (processed - processed) + elements == {};
    }
  }

  /** What the earlier siblings found together with what the last one found. */
  lemma JoinSiblings(lib: Library, processed: set<Type>, elements: set<Type>, before: Built, last: Type, after: Built)
    requires last in elements && elements <= processed
    requires processed <= before.processed && before.processed <= after.processed
    requires forall x | x in elements - {last} :: x in lib && Refs(lib, x) <= before.processed
    requires last in lib && Refs(lib, last) <= after.processed
    requires Explored(lib, processed, before.processed) && Explored(lib, before.processed, after.processed)
    requires Enumerates(before.sections, (before.processed - processed) + (elements - {last}))
    requires Enumerates(after.sections, (after.processed - before.processed) + Own(last, false))
    ensures forall x | x in elements :: x in lib && Refs(lib, x) <= after.processed
    ensures Explored(lib, processed, after.processed)
    ensures Enumerates(before.sections + after.sections, (after.processed - processed) + elements)
  {
    JoinExplored(lib, processed, before.processed, after.processed);
    var left := (before.processed - processed) + (elements - {last});
    var right := (after.processed - before.processed) + {last};
    EnumeratesConcat(before.sections, left, after.sections, right);
    assert left + right == (after.processed - processed) + elements;
  }

  lemma JoinExplored(lib: Library, a: set<Type>, b: set<Type>, c: set<Type>)
    requires a <= b <= c && Explored(lib, a, b) && Explored(lib, b, c)
    ensures Explored(lib, a, c)
  {
  }

  // ------------------------------------------------- soundness and failures

  /** Everything newly processed was reached from `t`; and when the traversal
      fails, something undefined was reached. */
  lemma {:induction false} BuildReaches(lib: Library, t: Type, processed: set<Type>, root: bool)
    ensures var b := Build(lib, t, processed, root);
            && (forall x | x in b.processed - processed :: Reaches(lib, t, x))
            && (!b.ok ==> exists x :: x !in lib && (x == t || Reaches(lib, t, x)))
    decreases |Mentioned(lib) - processed|, 0, 0
  {
    if t in lib {
      var scanned := Scan(lib[t], processed);
      ScanFindsNew(lib[t], processed);
      forall x | x in scanned.processed - processed
        ensures Reaches(lib, t, x)
      {
        StepReaches(lib, t, x, x);
      }
      if scanned.nested != [] {
        ScanShrinks(lib, t, processed);
        HeaderLastReorders(scanned.nested, RefsOf(lib[t]) - processed);
        BuildAllReaches(lib, t, HeaderLast(scanned.nested), scanned.processed);
      }
    }
  }

  lemma {:induction false} BuildAllReaches(lib: Library, t: Type, nested: seq<Type>, processed: set<Type>)
    requires forall x | x in nested :: x in Refs(lib, t)
    ensures var b := BuildAll(lib, nested, processed);
            && (forall x | x in b.processed - processed :: Reaches(lib, t, x))
            && (!b.ok ==> exists x :: x !in lib && Reaches(lib, t, x))
    decreases |Mentioned(lib) - processed|, 1, |nested|
  {
    if nested != [] {
      var front, last := nested[..|nested| - 1], nested[|nested| - 1];
      assert nested == front + [last];
      var before := BuildAll(lib, front, processed);
      BuildAllReaches(lib, t, front, processed);
      if before.ok {
        SmallerRest(Mentioned(lib), processed, before.processed);
        BuildReaches(lib, last, before.processed, false);
        var b := Build(lib, last, before.processed, false);
        forall x | x in b.processed - before.processed
          ensures Reaches(lib, t, x)
        {
          StepReaches(lib, t, last, x);
        }
        if !b.ok {
          var x :| x !in lib && (x == last || Reaches(lib, last, x));
          StepReaches(lib, t, last, x);
        }
      }
    }
  }

  /** The traversal from a root, with nothing processed yet. */
  function Expand(lib: Library, root: Type): Built {
    Build(lib, root, {}, true)
  }

  /** Expansion terminates on every library, cyclic or not, and succeeds exactly
      when the root and every type reachable from it are defined. */
  lemma ExpansionSucceeds(lib: Library, root: Type)
    ensures Expand(lib, root).ok <==> root in lib && forall x | Reaches(lib, root, x) :: x in lib
  {
    var b := Expand(lib, root);
    if b.ok {
      BuildExplores(lib, root, {}, true);
      forall x | Reaches(lib, root, x)
        ensures x in lib
      {
        var n: nat :| n > 0 && ReachedIn(lib, root, x, n);
        ClosedHoldsReached(lib, b.processed, root, x, n);
      }
    } else {
      BuildReaches(lib, root, {}, true);
    }
  }

  /** A successful expansion writes exactly one section for each type reachable
      by at least one step, the root included if it lies on a cycle. */
  lemma ExpansionIsComplete(lib: Library, root: Type)
    requires Expand(lib, root).ok
    ensures NoDuplicates(Expand(lib, root).sections)
    ensures forall x: Type :: x in Expand(lib, root).sections <==> Reaches(lib, root, x)
  {
    var b := Expand(lib, root);
    BuildExplores(lib, root, {}, true);
    BuildReaches(lib, root, {}, true);
    assert (b.processed - {}) + {} == b.processed;
    forall x: Type | Reaches(lib, root, x)
      ensures x in b.sections
    {
      var n: nat :| n > 0 && ReachedIn(lib, root, x, n);
      ClosedHoldsReached(lib, b.processed, root, x, n);
    }
  }

  // ---------------------------------------------------------------- the text

  datatype OutLine = Section(name: Type) | Text(text: string)

  function Texts(lines: seq<Line>): seq<OutLine> {
    seq(|lines|, i requires 0 <= i < |lines| => Text(lines[i].text))
  }

  function Body(lib: Library, t: Type): seq<OutLine> {
    if t in lib then Texts(lib[t]) else []
  }

  function Render(lib: Library, sections: seq<Type>): seq<OutLine> {
    if sections == [] then []
    else
      var last := sections[|sections| - 1];
      Render(lib, sections[..|sections| - 1]) + [Section(last)] + Body(lib, last)
  }

  lemma {:induction false} RenderConcat(lib: Library, a: seq<Type>, b: seq<Type>)
    ensures Render(lib, a + b) == Render(lib, a) + Render(lib, b)
  {
    if b == [] {
      assert a + b == a;
    } else {
      RenderConcat(lib, a, b[..|b| - 1]);
      assert (a + b)[..|a + b| - 1] == a + b[..|b| - 1];
      var own := [Section(b[|b| - 1])];
      Associate(Render(lib, a), Render(lib, b[..|b| - 1]), own);
      Associate(Render(lib, a), Render(lib, b[..|b| - 1]) + own, Body(lib, b[|b| - 1]));
    }
  }

  lemma RenderOwn(lib: Library, t: Type, rest: seq<Type>)
    ensures Render(lib, [t] + rest) == [Section(t)] + Body(lib, t) + Render(lib, rest)
  {
    RenderConcat(lib, [t], rest);
    assert [t][..0] == [];
    assert Render(lib, [t]) == [] + [Section(t)] + Body(lib, t);
  }

  /** What a successful call for type `t` appends to the output. */
  function Appended(lib: Library, t: Type, sections: seq<Type>, root: bool): seq<OutLine> {
    if root then Body(lib, t) + Render(lib, sections) else Render(lib, sections)
  }

  /** The definition text of a type, if it can be resolved. */
  function Definition(lib: Library, t: Type): Option<seq<OutLine>> {
    var b := Expand(lib, t);
    if b.ok then Some(Appended(lib, t, b.sections, true)) else None
  }

  function SlashFrom(s: string, i: nat): (j: nat)
    requires i <= |s|
    ensures i <= j <= |s| && (j < |s| ==> s[j] == '/')
    decreases |s| - i
  {
    if i == |s| || s[i] == '/' then i else SlashFrom(s, i + 1)
  }

  /** "package/msg/Name" names the type "package/Name". */
  function ParseMessageType(s: string): Option<Type> {
    var first := SlashFrom(s, 0);
    if first == |s| then None
    else
      var second := SlashFrom(s, first + 1);
      if second == |s| then None else Some(s[..first] + "/" + s[second + 1..])
  }

  datatype Outcome = Resolved(text: seq<OutLine>) | InvalidFormat | Unresolved

  function Describe(lib: Library, s: string): Outcome {
    match ParseMessageType(s)
    case None => InvalidFormat
    case Some(t) =>
      match Definition(lib, t)
      case None => Unresolved
      case Some(text) => Resolved(text)
  }

  // ------------------------------------------------------ what the text says

  /** All lines of a file stand in the text from `pos` on, verbatim and in order. */
  predicate LinesAt(text: seq<OutLine>, pos: nat, lines: seq<Line>) {
    pos + |lines| <= |text| && forall i | 0 <= i < |lines| :: text[pos + i] == Text(lines[i].text)
  }

  function FileOf(lib: Library, t: Type): seq<Line> {
    if t in lib then lib[t] else []
  }

  /** How many lines the sections of these types take. */
  function Extent(lib: Library, ts: seq<Type>): nat {
    if ts == [] then 0 else Extent(lib, ts[..|ts| - 1]) + 1 + |FileOf(lib, ts[|ts| - 1])|
  }

  /** The text consists of the root's lines and then one section for each type of
      `order`: its name followed by its lines, and nothing in between or after. */
  ghost predicate LaidOut(lib: Library, root: Type, order: seq<Type>, text: seq<OutLine>) {
    var start := |FileOf(lib, root)|;
    && |text| == start + Extent(lib, order)
    && LinesAt(text, 0, FileOf(lib, root))
    && SectionsFrom(lib, text, start, order)
  }

  ghost predicate SectionsFrom(lib: Library, text: seq<OutLine>, start: nat, order: seq<Type>) {
    forall k | 0 <= k < |order| :: Placed(lib, text, start, order, k)
  }

  predicate Placed(lib: Library, text: seq<OutLine>, start: nat, order: seq<Type>, k: int)
    requires 0 <= k < |order|
  {
    SectionAt(text, start + Extent(lib, order[..k]), order[k], FileOf(lib, order[k]))
  }

  predicate SectionAt(text: seq<OutLine>, pos: nat, t: Type, lines: seq<Line>) {
    pos < |text| && text[pos] == Section(t) && LinesAt(text, pos + 1, lines)
  }

  lemma {:induction false} RenderLaidOut(lib: Library, sections: seq<Type>)
    ensures |Render(lib, sections)| == Extent(lib, sections)
    ensures SectionsFrom(lib, Render(lib, sections), 0, sections)
  {
    if sections != [] {
      var front, last := sections[..|sections| - 1], sections[|sections| - 1];
      RenderLaidOut(lib, front);
      var before, text := Render(lib, front), Render(lib, sections);
      assert text == before + [Section(last)] + Body(lib, last);
      forall k | 0 <= k < |sections|
        ensures Placed(lib, text, 0, sections, k)
      {
        if k < |front| {
          assert front[..k] == sections[..k];
          assert Placed(lib, before, 0, front, k);
          PrefixKeepsSection(before, text, Extent(lib, front[..k]), front[k], FileOf(lib, front[k]));
        } else {
          assert sections[..k] == front;
        }
      }
    }
  }

  lemma PrefixKeepsSection(before: seq<OutLine>, text: seq<OutLine>, pos: nat, t: Type, lines: seq<Line>)
    requires SectionAt(before, pos, t, lines) && before <= text
    ensures SectionAt(text, pos, t, lines)
  {
  }

  lemma AfterPrefix(prefix: seq<OutLine>, text: seq<OutLine>, pos: nat, t: Type, lines: seq<Line>)
    requires SectionAt(text, pos, t, lines)
    ensures SectionAt(prefix + text, |prefix| + pos, t, lines)
  {
    var all := prefix + text;
    forall i | 0 <= i < |lines|
      ensures all[|prefix| + pos + 1 + i] == Text(lines[i].text)
    {
      assert all[|prefix| + pos + 1 + i] == text[pos + 1 + i];
    }
  }

  /** The answer for a type name: it is resolved exactly if the type and all types
      reachable from it are defined, and then its text is laid out with exactly
      one section for each type reachable by at least one reference. */
  lemma DefinitionIsComplete(lib: Library, s: string, root: Type) returns (order: seq<Type>)
    requires ParseMessageType(s) == Some(root)
    ensures Describe(lib, s).Resolved? <==> root in lib && forall x | Reaches(lib, root, x) :: x in lib
    ensures !Describe(lib, s).InvalidFormat?
    ensures Describe(lib, s).Resolved? ==>
              && NoDuplicates(order)
              && (forall x: Type :: x in order <==> Reaches(lib, root, x))
              && LaidOut(lib, root, order, Describe(lib, s).text)
  {
    order := Expand(lib, root).sections;
    ExpansionSucceeds(lib, root);
    if Expand(lib, root).ok {
      ExpansionIsComplete(lib, root);
      AppendedLaidOut(lib, root, order);
    }
  }

  lemma AppendedLaidOut(lib: Library, root: Type, order: seq<Type>)
    ensures LaidOut(lib, root, order, Appended(lib, root, order, true))
  {
    RenderLaidOut(lib, order);
    BodyFirst(lib, root, Render(lib, order));
    SectionsAfter(lib, Body(lib, root), order);
  }

  lemma BodyFirst(lib: Library, root: Type, rest: seq<OutLine>)
    ensures |Body(lib, root)| == |FileOf(lib, root)|
    ensures LinesAt(Body(lib, root) + rest, 0, FileOf(lib, root))
  {
    var own := Body(lib, root);
    forall i | 0 <= i < |FileOf(lib, root)|
      ensures (own + rest)[0 + i] == Text(FileOf(lib, root)[i].text)
    {
      assert (own + rest)[i] == own[i];
    }
  }

  lemma SectionsAfter(lib: Library, own: seq<OutLine>, order: seq<Type>)
    ensures SectionsFrom(lib, own + Render(lib, order), |own|, order)
  {
    RenderLaidOut(lib, order);
    var rest := Render(lib, order);
    forall k | 0 <= k < |order|
      ensures Placed(lib, own + rest, |own|, order, k)
    {
      assert Placed(lib, rest, 0, order, k);
      PlacedAfter(lib, own, rest, order, k);
    }
  }

  lemma PlacedAfter(lib: Library, own: seq<OutLine>, rest: seq<OutLine>, order: seq<Type>, k: int)
    requires 0 <= k < |order| && Placed(lib, rest, 0, order, k)
    ensures Placed(lib, own + rest, |own|, order, k)
  {
    AfterPrefix(own, rest, Extent(lib, order[..k]), order[k], FileOf(lib, order[k]));
  }

  /** The types a file refers to, in the order of its lines. */
  function Mentions(lines: seq<Line>): seq<Type> {
    if lines == [] then []
    else
      var ref := lines[|lines| - 1].ref;
      Mentions(lines[..|lines| - 1]) + if ref.Some? then [ref.value] else []
  }

  /** New references are taken in the order in which the file has them. */
  lemma {:induction false} ScanKeepsOrder(lines: seq<Line>, processed: set<Type>)
    ensures Subsequence(Scan(lines, processed).nested, Mentions(lines))
  {
    if lines != [] {
      var front, ref := lines[..|lines| - 1], lines[|lines| - 1].ref;
      ScanKeepsOrder(front, processed);
      var before := Scan(front, processed);
      if ref.Some? {
        SubsequenceSkip(before.nested, Mentions(front), ref.value);
        SubsequenceExtend(before.nested, Mentions(front), ref.value);
      } else {
        assert Mentions(front) + [] == Mentions(front);
      }
    }
  }

  lemma {:induction false} SkipMany(a: seq<Type>, b: seq<Type>, more: seq<Type>)
    requires Subsequence(a, b)
    ensures Subsequence(a, b + more)
  {
    if more == [] {
      assert b + more == b;
    } else {
      SkipMany(a, b, more[..|more| - 1]);
      SubsequenceSkip(a, b + more[..|more| - 1], more[|more| - 1]);
      assert b + more[..|more| - 1] + [more[|more| - 1]] == b + more;
    }
  }

  lemma OwnSectionFirst(lib: Library, t: Type, processed: set<Type>)
    requires Build(lib, t, processed, false).ok
    ensures var sections := Build(lib, t, processed, false).sections; sections != [] && sections[0] == t
  {
  }

  /** The sections of a file's new references come in the order of the references,
      each followed by those found below it. */
  lemma {:induction false} SectionsKeepOrder(lib: Library, nested: seq<Type>, processed: set<Type>)
    requires BuildAll(lib, nested, processed).ok
    ensures Subsequence(nested, BuildAll(lib, nested, processed).sections)
  {
    if nested != [] {
      var front, last := nested[..|nested| - 1], nested[|nested| - 1];
      var before := BuildAll(lib, front, processed);
      SectionsKeepOrder(lib, front, processed);
      var b := Build(lib, last, before.processed, false);
      OwnSectionFirst(lib, last, before.processed);
      SubsequenceExtend(front, before.sections, last);
      assert front + [last] == nested;
      SkipMany(nested, before.sections + [last], b.sections[1..]);
      assert before.sections + [last] + b.sections[1..] == before.sections + b.sections;
    }
  }

  /** The sections right below the root come in the order of its lines, except
      that a leading header comes last. */
  lemma RootSectionsInOrder(lib: Library, root: Type)
    requires Expand(lib, root).ok
    ensures root in lib && Subsequence(Scan(lib[root], {}).nested, Mentions(lib[root]))
    ensures Subsequence(HeaderLast(Scan(lib[root], {}).nested), Expand(lib, root).sections)
  {
    ScanKeepsOrder(lib[root], {});
    var scanned := Scan(lib[root], {});
    if scanned.nested != [] {
      SectionsKeepOrder(lib, HeaderLast(scanned.nested), scanned.processed);
      var rest := BuildAll(lib, HeaderLast(scanned.nested), scanned.processed).sections;
      assert [] + rest == rest;
    }
  }

  /** Asking for "package/msg/Name" asks for the type "package/Name". */
  lemma ParsesThreeParts(p: string, m: string, n: string)
    requires '/' !in p && '/' !in m
    ensures ParseMessageType(p + "/" + m + "/" + n) == Some(p + "/" + n)
  {
    var s := p + "/" + m + "/" + n;
    SlashIs(s, 0, |p|);
    SlashIs(s, |p| + 1, |p| + 1 + |m|);
    assert s[..|p|] == p && s[|p| + 1 + |m| + 1..] == n;
  }

  /** A name with fewer than two slashes is malformed. */
  lemma TooFewSlashes(p: string, n: string)
    requires '/' !in p && '/' !in n
    ensures ParseMessageType(p) == None && ParseMessageType(p + "/" + n) == None
  {
    SlashIs(p, 0, |p|);
    var s := p + "/" + n;
    SlashIs(s, 0, |p|);
    SlashIs(s, |p| + 1, |s|);
  }

  /** And is answered as such. */
  lemma MalformedIsReported(lib: Library, p: string, n: string)
    requires '/' !in p && '/' !in n
    ensures Describe(lib, p) == InvalidFormat && Describe(lib, p + "/" + n) == InvalidFormat
  {
    TooFewSlashes(p, n);
  }

  lemma {:induction false} SlashIs(s: string, i: nat, j: nat)
    requires i <= j <= |s| && (forall k | i <= k < j :: s[k] != '/') && (j < |s| ==> s[j] == '/')
    ensures SlashFrom(s, i) == j
    decreases j - i
  {
    if i < j {
      SlashIs(s, i + 1, j);
    }
  }

  /** The header goes behind the other types its file refers to, which keep their
      order; any other first type stays where it is. */
  lemma HeaderGoesLast(nested: seq<Type>)
    ensures |nested| >= 2 && nested[0] == "std_msgs/Header" ==>
              && |HeaderLast(nested)| == |nested|
              && HeaderLast(nested)[|nested| - 1] == nested[0]
              && forall i | 0 < i < |nested| :: HeaderLast(nested)[i - 1] == nested[i]
    ensures |nested| < 2 || nested[0] != "std_msgs/Header" ==> HeaderLast(nested) == nested
  {
  }

  /** The traversal, one type at a time. */
  lemma BuildUnfolds(lib: Library, t: Type, processed: set<Type>, root: bool)
    requires t in lib
    ensures var scanned := Scan(lib[t], processed);
            var own := if root then [] else [t];
            Build(lib, t, processed, root) ==
            if scanned.nested == [] then Built(true, own, scanned.processed)
            else
              var rest := BuildAll(lib, HeaderLast(scanned.nested), scanned.processed);
              Built(rest.ok, own + rest.sections, rest.processed)
  {
  }

  lemma BuildAllUnfolds(lib: Library, nested: seq<Type>, i: nat, processed: set<Type>)
    requires i < |nested| && BuildAll(lib, nested[..i], processed).ok
    ensures var done := BuildAll(lib, nested[..i], processed);
            var next := Build(lib, nested[i], done.processed, false);
            BuildAll(lib, nested[..i + 1], processed) == Built(next.ok, done.sections + next.sections, next.processed)
  {
    assert nested[..i + 1][..i] == nested[..i];
  }

  lemma Associate(a: seq<OutLine>, b: seq<OutLine>, c: seq<OutLine>)
    ensures a + b + c == a + (b + c)
  {
  }

  lemma RenderMore(lib: Library, before: seq<OutLine>, done: seq<Type>, next: seq<Type>)
    ensures before + Render(lib, done) + Render(lib, next) == before + Render(lib, done + next)
  {
    RenderConcat(lib, done, next);
    Associate(before, Render(lib, done), Render(lib, next));
  }

  lemma AppendedUnfolds(lib: Library, t: Type, rest: seq<Type>, root: bool)
    ensures Appended(lib, t, (if root then [] else [t]) + rest, root) ==
            (if root then [] else [Section(t)]) + Body(lib, t) + Render(lib, rest)
  {
    RenderOwn(lib, t, rest);
    assert [] + rest == rest;
    assert [] + Body(lib, t) == Body(lib, t);
  }

  lemma {:induction false} FailureIsFinal(lib: Library, nested: seq<Type>, processed: set<Type>, i: nat)
    requires i <= |nested| && !BuildAll(lib, nested[..i], processed).ok
    ensures !BuildAll(lib, nested, processed).ok
    decreases |nested|
  {
    if i < |nested| {
      assert nested[..|nested| - 1][..i] == nested[..i];
      FailureIsFinal(lib, nested[..|nested| - 1], processed, i);
    } else {
      assert nested[..i] == nested;
    }
  }

  // --------------------------------------------------------------- the class

  /** The output stream and the visited set one expansion passes around. */
  class Expansion {
    var output: seq<OutLine>
    var processed: set<Type>

    constructor ()
      ensures output == [] && processed == {}
    {
      output, processed := [], {};
    }
  }

  class SchemaExtractor {
    const library: Library
    var fileCache: Library
    var definitionCache: map<string, seq<OutLine>>

    ghost predicate FilesValid()
      reads this`fileCache
    {
      forall t | t in fileCache :: t in library && fileCache[t] == library[t]
    }

    /** The caches only hold what a fresh computation would give. */
    ghost predicate Valid()
      reads this
    {
      FilesValid() && forall s | s in definitionCache :: Describe(library, s) == Resolved(definitionCache[s])
    }

    constructor (library: Library)
      ensures Valid() && this.library == library
    {
      this.library := library;
      fileCache, definitionCache := map[], map[];
    }

    /** The file of a type, from the cache if it is there and not empty. */
    method LoadFile(t: Type) returns (content: Option<seq<Line>>)
      requires FilesValid()
      modifies this`fileCache
      ensures FilesValid()
      ensures content == if t in library then Some(library[t]) else None
    {
      var cached := if t in fileCache then fileCache[t] else [];
      if cached == [] {
        if t !in library {
          return None;
        }
        cached := library[t];
        fileCache := fileCache[t := cached];
      }
      return Some(cached);
    }

    /** Writes a file's lines and marks the references it meets first. */
    method WriteLines(lines: seq<Line>, ctx: Expansion) returns (nested: seq<Type>)
      modifies ctx
      ensures Scanned(nested, ctx.processed) == Scan(lines, old(ctx.processed))
      ensures ctx.output == old(ctx.output) + Texts(lines)
    {
      nested := [];
      for i := 0 to |lines|
        invariant Scanned(nested, ctx.processed) == Scan(lines[..i], old(ctx.processed))
        invariant ctx.output == old(ctx.output) + Texts(lines[..i])
      {
        assert lines[..i + 1][..i] == lines[..i];
        assert Texts(lines[..i + 1]) == Texts(lines[..i]) + [Text(lines[i].text)];
        ctx.output := ctx.output + [Text(lines[i].text)];
        var ref := lines[i].ref;
        if ref.Some? && ref.value !in ctx.processed {
          ctx.processed := ctx.processed + {ref.value};
          nested := nested + [ref.value];
        }
      }
      assert lines[..|lines|] == lines;
    }

    /** `bound` limits how many types can still be found; it only serves to
        show that the recursion ends. */
    method BuildRecursive(t: Type, ctx: Expansion, root: bool, ghost bound: nat) returns (ok: bool)
      requires FilesValid() && |Mentioned(library) - ctx.processed| <= bound
      modifies this`fileCache, ctx
      ensures FilesValid()
      ensures var b := Build(library, t, old(ctx.processed), root);
              && ok == b.ok
              && (ok ==> ctx.processed == b.processed
                         && ctx.output == old(ctx.output) + Appended(library, t, b.sections, root))
      decreases bound, 0
    {
      ghost var before, visited := ctx.output, ctx.processed;
      var content := LoadFile(t);
      if content.None? {
        return false;
      }
      if !root {
        ctx.output := ctx.output + [Section(t)];
      }
      var nested := WriteLines(content.value, ctx);
      BuildUnfolds(library, t, visited, root);
      ghost var written := (if root then [] else [Section(t)]) + Body(library, t);
      assert ctx.output == before + written;
      if nested == [] {
        AppendedUnfolds(library, t, [], root);
        assert (if root then [] else [t]) + [] == if root then [] else [t];
        return true;
      }
      ScanShrinks(library, t, visited);
      ghost var rest := BuildAll(library, HeaderLast(nested), ctx.processed);
      ok := BuildNested(HeaderLast(nested), ctx, bound - 1);
      AppendedUnfolds(library, t, rest.sections, root);
      Associate(before, written, Render(library, rest.sections));
    }

    method BuildNested(nested: seq<Type>, ctx: Expansion, ghost bound: nat) returns (ok: bool)
      requires FilesValid() && |Mentioned(library) - ctx.processed| <= bound
      modifies this`fileCache, ctx
      ensures FilesValid()
      ensures var b := BuildAll(library, nested, old(ctx.processed));
              && ok == b.ok
              && (ok ==> ctx.processed == b.processed && ctx.output == old(ctx.output) + Render(library, b.sections))
      decreases bound, 1
    {
      ghost var start, visited := ctx.output, ctx.processed;
      for i := 0 to |nested|
        invariant FilesValid()
        invariant Produced(nested[..i], visited, start, ctx.processed, ctx.output)
      {
        ghost var written, marked := ctx.output, ctx.processed;
        SmallerRest(Mentioned(library), visited, marked);
        ok := BuildRecursive(nested[i], ctx, false, bound);
        ProducedNext(nested, i, visited, start, marked, written);
        if !ok {
          return false;
        }
      }
      AllProduced(nested, visited, start, ctx.processed, ctx.output);
      ok := true;
    }

    lemma AllProduced(
        nested: seq<Type>, visited: set<Type>, start: seq<OutLine>, processed: set<Type>, output: seq<OutLine>)
      requires Produced(nested[..|nested|], visited, start, processed, output)
      ensures Produced(nested, visited, start, processed, output)
    {
      assert nested[..|nested|] == nested;
    }

    /** The traversal of `nested` succeeds and leaves these marks and this output. */
    ghost predicate Produced(
        nested: seq<Type>, visited: set<Type>, start: seq<OutLine>, processed: set<Type>, output: seq<OutLine>) {
      var b := BuildAll(library, nested, visited);
      b.ok && processed == b.processed && output == start + Render(library, b.sections)
    }

    lemma ProducedNext(
        nested: seq<Type>, i: nat, visited: set<Type>, start: seq<OutLine>, marked: set<Type>, written: seq<OutLine>)
      requires i < |nested| && Produced(nested[..i], visited, start, marked, written)
      ensures var next := Build(library, nested[i], marked, false);
              if next.ok then
                Produced(nested[..i + 1], visited, start, next.processed,
                         written + Appended(library, nested[i], next.sections, false))
              else !BuildAll(library, nested, visited).ok
    {
      var next := Build(library, nested[i], marked, false);
      BuildAllUnfolds(library, nested, i, visited);
      if next.ok {
        RenderMore(library, start, BuildAll(library, nested[..i], visited).sections, next.sections);
      } else {
        FailureIsFinal(library, nested, visited, i + 1);
      }
    }

    /** Whatever was asked before, the caches never change the answer. */
    method TryGetMessageDefinition(messageType: string) returns (outcome: Outcome)
      requires Valid()
      modifies this
      ensures Valid()
      ensures outcome == Describe(library, messageType)
    {
      if messageType in definitionCache {
        return Resolved(definitionCache[messageType]);
      }
      var parsed := ParseMessageType(messageType);
      if parsed.None? {
        return InvalidFormat;
      }
      var ctx := new Expansion();
      assert Mentioned(library) - {} == Mentioned(library);
      var ok := BuildRecursive(parsed.value, ctx, true, |Mentioned(library)|);
      if !ok {
        return Unresolved;
      }
      assert ctx.output == [] + Appended(library, parsed.value, Expand(library, parsed.value).sections, true);
      definitionCache := definitionCache[messageType := ctx.output];
      return Resolved(ctx.output);
    }
  }
}
