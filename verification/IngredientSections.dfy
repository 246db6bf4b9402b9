/** Splitting the flat ingredient rows a model returns into titled sections. */
module IngredientSections {
  import opened Options

  datatype Ingredient = Ingredient(name: string, quantity: Option<string>, unit: Option<string>, density: Option<real>)

  datatype Section = Section(title: string, ingredients: seq<Ingredient>)

  // The string operations, patterns and word tables of one language.
  datatype Lexicon = Lexicon(
    trim: string -> string,
    visible: string -> string,
    dropPunctuation: string -> string,
    isOptionalTitle: string -> bool,
    isGenericTitle: string -> bool,
    endsLikeHeading: string -> bool,
    wordCount: string -> nat,
    headingPattern: string -> bool,
    hasPrefix: string -> bool,
    dropPrefix: string -> string,
    hasMarker: string -> bool,
    dropMarker: string -> string,
    defaultTitle: string,
    optionalTitle: string,
    toTaste: string)

  predicate Given(amount: Option<string>) {
    amount.Some? && amount.value != ""
  }

  predicate HasAmount(i: Ingredient) {
    Given(i.quantity) || Given(i.unit)
  }

  // _looks_like_section_heading
  predicate LooksLikeHeading(lx: Lexicon, i: Ingredient) {
    var name := lx.trim(i.name);
    var cleaned := lx.trim(lx.dropPunctuation(name));
    && name != ""
    && !HasAmount(i)
    && (|| lx.isGenericTitle(cleaned)
        || lx.isOptionalTitle(cleaned)
        || (lx.endsLikeHeading(name) && lx.wordCount(cleaned) <= 6)
        || lx.headingPattern(cleaned))
  }

  // _strip_optional_marker: the ingredient without its marker, and whether it had one.
  function StripOptionalMarker(lx: Lexicon, i: Ingredient): (Ingredient, bool) {
    var trimmed := lx.trim(i.name);
    var prefixed := lx.hasPrefix(trimmed);
    var rest := if prefixed then lx.trim(lx.dropPrefix(trimmed)) else trimmed;
    var marked := lx.hasMarker(rest);
    var name := if marked then lx.dropMarker(rest) else rest;
    if name == "" then (i, prefixed || marked)
    else (i.(name := name), prefixed || marked)
  }

  function WithTaste(lx: Lexicon, i: Ingredient): Ingredient {
    if HasAmount(i) then i else Ingredient(i.name, Some(lx.toTaste), None, None)
  }

  // ---------------------------------------------------------------- what should come out

  // The title rows are filed under, and whether all of them count as optional.
  datatype Scope = Scope(title: string, optional: bool)

  function Routed(lx: Lexicon, title: string): Scope {
    if lx.isOptionalTitle(title) then Scope(lx.optionalTitle, true)
    else if lx.isGenericTitle(title) then Scope(lx.defaultTitle, false)
    else Scope(title, false)
  }

  function OrDefault(lx: Lexicon, title: string): string {
    if title == "" then lx.defaultTitle else title
  }

  function SectionScope(lx: Lexicon, s: Section): Scope {
    Routed(lx, OrDefault(lx, lx.visible(s.title)))
  }

  function HeadingScope(lx: Lexicon, i: Ingredient): Scope {
    Routed(lx, OrDefault(lx, lx.trim(lx.dropPunctuation(lx.trim(i.name)))))
  }

  // How a row reads: a heading that opens a scope, a blank row, or an ingredient to keep, with
  // or without an optional marker.
  datatype Row = Heading(scope: Scope) | Blank | Kept(ingredient: Ingredient, marked: bool)

  function Read(lx: Lexicon, i: Ingredient): Row {
    if LooksLikeHeading(lx, i) then Heading(HeadingScope(lx, i))
    else var (cleaned, marked) := StripOptionalMarker(lx, i);
      if lx.trim(cleaned.name) == "" then Blank else Kept(WithTaste(lx, cleaned), marked)
  }

  function ReadAll(lx: Lexicon, s: Section): seq<Row> {
    seq(|s.ingredients|, k requires 0 <= k < |s.ingredients| => Read(lx, s.ingredients[k]))
  }

  // The scope after some rows of a section: that of the last heading, else the section's.
  function InForce(first: Scope, rows: seq<Row>): Scope {
    if rows == [] then first
    else var row := rows[|rows| - 1];
      if row.Heading? then row.scope else InForce(first, rows[..|rows| - 1])
  }

  datatype Filed = Filed(title: string, ingredient: Ingredient)

  // The rows to keep, in order and after those kept so far: the required ones, each with the
  // title it belongs under, and the optional ones.
  function Required(sofar: seq<Filed>, first: Scope, rows: seq<Row>): seq<Filed> {
    if rows == [] then sofar
    else var before, row := rows[..|rows| - 1], rows[|rows| - 1];
      if row.Kept? && !row.marked && !InForce(first, before).optional
      then Required(sofar, first, before) + [Filed(InForce(first, before).title, row.ingredient)]
      else Required(sofar, first, before)
  }

  function Optional(sofar: seq<Ingredient>, first: Scope, rows: seq<Row>): seq<Ingredient> {
    if rows == [] then sofar
    else var before, row := rows[..|rows| - 1], rows[|rows| - 1];
      if row.Kept? && (row.marked || InForce(first, before).optional)
      then Optional(sofar, first, before) + [row.ingredient]
      else Optional(sofar, first, before)
  }

  function AllRequired(lx: Lexicon, sections: seq<Section>): seq<Filed> {
    if sections == [] then []
    else var s := sections[|sections| - 1];
      Required(AllRequired(lx, sections[..|sections| - 1]), SectionScope(lx, s), ReadAll(lx, s))
  }

  function AllOptional(lx: Lexicon, sections: seq<Section>): seq<Ingredient> {
    if sections == [] then []
    else var s := sections[|sections| - 1];
      Optional(AllOptional(lx, sections[..|sections| - 1]), SectionScope(lx, s), ReadAll(lx, s))
  }

  function FileUnder(title: string, rows: seq<Ingredient>): seq<Filed> {
    seq(|rows|, k requires 0 <= k < |rows| => Filed(title, rows[k]))
  }

  // The rows of a list of sections, each with its section's title.
  function Rows(sections: seq<Section>): seq<Filed> {
    if sections == [] then []
    else var s := sections[|sections| - 1];
      Rows(sections[..|sections| - 1]) + FileUnder(s.title, s.ingredients)
  }

  lemma RowsSnoc(sections: seq<Section>, s: Section)
    ensures Rows(sections + [s]) == Rows(sections) + FileUnder(s.title, s.ingredients)
  {
    assert (sections + [s])[..|sections|] == sections;
  }

  // The scope is read off the nearest heading above.
  lemma {:induction false} NearestHeadingRules(first: Scope, rows: seq<Row>, j: nat)
    requires j < |rows| && rows[j].Heading? && forall k :: j < k < |rows| ==> !rows[k].Heading?
    ensures InForce(first, rows) == rows[j].scope
    decreases |rows|
  {
    if j < |rows| - 1 {
      NearestHeadingRules(first, rows[..|rows| - 1], j);
    }
  }

  // Without one it is the section's own.
  lemma {:induction false} SectionRules(first: Scope, rows: seq<Row>)
    requires forall k :: 0 <= k < |rows| ==> !rows[k].Heading?
    ensures InForce(first, rows) == first
    decreases |rows|
  {
    if rows != [] {
      SectionRules(first, rows[..|rows| - 1]);
    }
  }

  // ---------------------------------------------------------------- the rebuilding loop

  // Nothing is filed as required under an optional-looking title.
  ghost predicate Tidy(lx: Lexicon, sections: seq<Section>) {
    forall k :: 0 <= k < |sections| ==> sections[k].ingredients != [] && !lx.isOptionalTitle(sections[k].title)
  }

  function Flushed(title: string, current: seq<Ingredient>): seq<Section> {
    if current == [] then [] else [Section(title, current)]
  }

  // Where the first optional-looking section stands; past the end without one.
  function FirstOptional(lx: Lexicon, sections: seq<Section>): (n: nat)
    ensures n <= |sections| && (n < |sections| ==> lx.isOptionalTitle(sections[n].title))
    ensures forall k :: 0 <= k < n ==> !lx.isOptionalTitle(sections[k].title)
  {
    if sections == [] || lx.isOptionalTitle(sections[0].title) then 0 else 1 + FirstOptional(lx, sections[1..])
  }

  // The merge into an existing optional section, in general: the first such section takes the
  // bucket, and without one the bucket becomes a section of its own.
  method MergeOptional(lx: Lexicon, rebuilt: seq<Section>, bucket: seq<Ingredient>) returns (merged: seq<Section>)
    ensures var at := FirstOptional(lx, rebuilt);
            merged == if bucket == [] then rebuilt
                      else if at == |rebuilt| then rebuilt + [Section(lx.optionalTitle, bucket)]
                      else rebuilt[at := rebuilt[at].(ingredients := rebuilt[at].ingredients + bucket)]
  {
    if bucket == [] {
      return rebuilt;
    }
    var n := 0;
    while n < |rebuilt|
      invariant 0 <= n <= |rebuilt|
      invariant forall k :: 0 <= k < n ==> !lx.isOptionalTitle(rebuilt[k].title)
    {
      if lx.isOptionalTitle(rebuilt[n].title) {
        return rebuilt[n := rebuilt[n].(ingredients := rebuilt[n].ingredients + bucket)];
      }
      n := n + 1;
    }
    merged := rebuilt + [Section(lx.optionalTitle, bucket)];
  }

  // The state of the loop: the closed sections, the scope in force, the section being filled
  // under it, and the optional rows so far.
  datatype Desk = Desk(rebuilt: seq<Section>, scope: Scope, current: seq<Ingredient>, bucket: seq<Ingredient>)

  function Step(d: Desk, row: Row): Desk {
    match row
    case Heading(scope) => Desk(d.rebuilt + Flushed(d.scope.title, d.current), scope, [], d.bucket)
    case Blank => d
    case Kept(i, marked) =>
      if d.scope.optional || marked then d.(bucket := d.bucket + [i]) else d.(current := d.current + [i])
  }

  function Run(d: Desk, rows: seq<Row>): Desk {
    if rows == [] then d else Step(Run(d, rows[..|rows| - 1]), rows[|rows| - 1])
  }

  // A section opens its scope as a heading would.
  function RunSections(lx: Lexicon, sections: seq<Section>): Desk {
    if sections == [] then Desk([], Scope(lx.defaultTitle, false), [], [])
    else var s := sections[|sections| - 1];
      Run(Step(RunSections(lx, sections[..|sections| - 1]), Heading(SectionScope(lx, s))), ReadAll(lx, s))
  }

  // The rows of one section.
  method FileSection(lx: Lexicon, s: Section, rebuilt0: seq<Section>, bucket0: seq<Ingredient>)
    returns (rebuilt: seq<Section>, scope: Scope, current: seq<Ingredient>, bucket: seq<Ingredient>)
    ensures Desk(rebuilt, scope, current, bucket) ==
            Run(Desk(rebuilt0, SectionScope(lx, s), [], bucket0), ReadAll(lx, s))
  {
    ghost var start, rows := Desk(rebuilt0, SectionScope(lx, s), [], bucket0), ReadAll(lx, s);
    rebuilt, scope, current, bucket := rebuilt0, SectionScope(lx, s), [], bucket0;
    var n := 0;
    while n < |s.ingredients|
      invariant 0 <= n <= |s.ingredients|
      invariant Desk(rebuilt, scope, current, bucket) == Run(start, rows[..n])
    {
      var ingredient := s.ingredients[n];
      assert rows[..n + 1][..n] == rows[..n] && rows[n] == Read(lx, ingredient);
      n := n + 1;
      if LooksLikeHeading(lx, ingredient) {
        rebuilt := rebuilt + Flushed(scope.title, current);
        scope, current := HeadingScope(lx, ingredient), [];
        continue;
      }
      var (cleaned, marked) := StripOptionalMarker(lx, ingredient);
      if lx.trim(cleaned.name) == "" {
        continue;
      }
      cleaned := WithTaste(lx, cleaned);
      if scope.optional || marked {
        bucket := bucket + [cleaned];
      } else {
        current := current + [cleaned];
      }
    }
    assert rows[..n] == rows;
  }

  // ---------------------------------------------------------------- the loop files rows rightly

  // A scope that takes required rows does not look optional.
  ghost predicate Proper(lx: Lexicon, scope: Scope) {
    !scope.optional ==> !lx.isOptionalTitle(scope.title)
  }

  // The closed and the open section together hold exactly the rows `filed`.
  ghost predicate Holds(lx: Lexicon, d: Desk, filed: seq<Filed>) {
    && Tidy(lx, d.rebuilt) && Proper(lx, d.scope)
    && (d.scope.optional ==> d.current == [])
    && Rows(d.rebuilt) + FileUnder(d.scope.title, d.current) == filed
  }

  lemma FlushKeepsRows(lx: Lexicon, d: Desk, filed: seq<Filed>)
    requires Holds(lx, d, filed)
    ensures Tidy(lx, d.rebuilt + Flushed(d.scope.title, d.current))
    ensures Rows(d.rebuilt + Flushed(d.scope.title, d.current)) == filed
  {
    if d.current == [] {
      assert d.rebuilt + Flushed(d.scope.title, d.current) == d.rebuilt;
      assert FileUnder(d.scope.title, d.current) == [];
    } else {
      RowsSnoc(d.rebuilt, Section(d.scope.title, d.current));
    }
  }

  lemma OpenHolds(lx: Lexicon, d: Desk, filed: seq<Filed>, scope: Scope)
    requires Holds(lx, d, filed) && Proper(lx, scope)
    ensures Holds(lx, Step(d, Heading(scope)), filed)
  {
    FlushKeepsRows(lx, d, filed);
    assert FileUnder(scope.title, []) == [];
  }

  lemma AddHolds(lx: Lexicon, d: Desk, filed: seq<Filed>, i: Ingredient)
    requires Holds(lx, d, filed) && !d.scope.optional
    ensures Holds(lx, d.(current := d.current + [i]), filed + [Filed(d.scope.title, i)])
  {
    assert FileUnder(d.scope.title, d.current + [i]) == FileUnder(d.scope.title, d.current) + [Filed(d.scope.title, i)];
  }

  lemma {:induction false} RunFiles(lx: Lexicon, d: Desk, rows: seq<Row>, filed: seq<Filed>)
    requires Holds(lx, d, filed)
    requires forall k :: 0 <= k < |rows| && rows[k].Heading? ==> Proper(lx, rows[k].scope)
    ensures var e := Run(d, rows);
            && Holds(lx, e, Required(filed, d.scope, rows))
            && e.scope == InForce(d.scope, rows)
            && e.bucket == Optional(d.bucket, d.scope, rows)
    decreases |rows|
  {
    if rows != [] {
      var before, row := rows[..|rows| - 1], rows[|rows| - 1];
      RunFiles(lx, d, before, filed);
      StepFiles(lx, Run(d, before), row, Required(filed, d.scope, before));
    }
  }

  lemma StepFiles(lx: Lexicon, d: Desk, row: Row, filed: seq<Filed>)
    requires Holds(lx, d, filed) && (row.Heading? ==> Proper(lx, row.scope))
    ensures Holds(lx, Step(d, row),
                  if row.Kept? && !row.marked && !d.scope.optional
                  then filed + [Filed(d.scope.title, row.ingredient)] else filed)
  {
    match row
    case Heading(scope) => OpenHolds(lx, d, filed, scope);
    case Blank =>
    case Kept(i, marked) =>
      if !d.scope.optional && !marked {
        AddHolds(lx, d, filed, i);
      }
  }

  lemma {:induction false} SectionsFile(lx: Lexicon, sections: seq<Section>)
    requires !lx.isOptionalTitle(lx.defaultTitle)
    ensures Holds(lx, RunSections(lx, sections), AllRequired(lx, sections))
    ensures RunSections(lx, sections).bucket == AllOptional(lx, sections)
    decreases |sections|
  {
    if sections != [] {
      var before, s := sections[..|sections| - 1], sections[|sections| - 1];
      SectionsFile(lx, before);
      OpenHolds(lx, RunSections(lx, before), AllRequired(lx, before), SectionScope(lx, s));
      RunFiles(lx, Step(RunSections(lx, before), Heading(SectionScope(lx, s))), ReadAll(lx, s),
          AllRequired(lx, before));
    }
  }

  function NonEmpty(sections: seq<Section>): seq<Section> {
    if sections == [] then []
    else var s := sections[|sections| - 1];
      NonEmpty(sections[..|sections| - 1]) + (if s.ingredients == [] then [] else [s])
  }

  lemma {:induction false} NothingToDrop(sections: seq<Section>)
    requires forall k :: 0 <= k < |sections| ==> sections[k].ingredients != []
    ensures NonEmpty(sections) == sections
    decreases |sections|
  {
    if sections != [] {
      NothingToDrop(sections[..|sections| - 1]);
    }
  }

  lemma RowsOfNone(sections: seq<Section>, lx: Lexicon)
    requires Tidy(lx, sections)
    ensures Rows(sections) == [] <==> sections == []
  {
    if sections != [] {
      var s := sections[|sections| - 1];
      assert |FileUnder(s.title, s.ingredients)| > 0;
    }
  }

  function Finished(lx: Lexicon, d: Desk, sections: seq<Section>): seq<Section> {
    var rebuilt := d.rebuilt + Flushed(d.scope.title, d.current);
    if rebuilt == [] && d.bucket == [] then sections
    else if d.bucket == [] then rebuilt
    else rebuilt + [Section(lx.optionalTitle, d.bucket)]
  }

  // The end of it: the optional rows, the empty sections, and the fallback to the input.
  method Finish(lx: Lexicon, rebuilt: seq<Section>, bucket: seq<Ingredient>, sections: seq<Section>)
    returns (result: seq<Section>)
    requires Tidy(lx, rebuilt)
    ensures result == if rebuilt == [] && bucket == [] then sections
                      else if bucket == [] then rebuilt
                      else rebuilt + [Section(lx.optionalTitle, bucket)]
  {
    var merged := MergeOptional(lx, rebuilt, bucket);
    assert FirstOptional(lx, rebuilt) == |rebuilt|;
    NothingToDrop(merged);
    merged := NonEmpty(merged);
    result := if merged != [] then merged else sections;
  }

  // power_up_ingredient_sections. Unless nothing survives, the required rows come out once
  // each, in order and under the right titles; the optional ones in order in a single last
  // section; no section is empty; and no other section looks optional, so that the merge into
  // an existing one never happens.
  method PowerUp(lx: Lexicon, sections: seq<Section>) returns (result: seq<Section>)
    requires !lx.isOptionalTitle(lx.defaultTitle)
    ensures result == Finished(lx, RunSections(lx, sections), sections)
    ensures AllRequired(lx, sections) == [] && AllOptional(lx, sections) == [] ==> result == sections
    ensures AllRequired(lx, sections) != [] && AllOptional(lx, sections) == [] ==>
              Tidy(lx, result) && Rows(result) == AllRequired(lx, sections)
    ensures AllOptional(lx, sections) != [] ==>
              && result != [] && result[|result| - 1] == Section(lx.optionalTitle, AllOptional(lx, sections))
              && Tidy(lx, result[..|result| - 1]) && Rows(result[..|result| - 1]) == AllRequired(lx, sections)
  {
    var rebuilt: seq<Section>, scope := [], Scope(lx.defaultTitle, false);
    var current: seq<Ingredient>, bucket: seq<Ingredient> := [], [];
    var n := 0;
    while n < |sections|
      invariant 0 <= n <= |sections|
      invariant Desk(rebuilt, scope, current, bucket) == RunSections(lx, sections[..n])
    {
      rebuilt := rebuilt + Flushed(scope.title, current);
      assert sections[..n + 1][..n] == sections[..n];
      rebuilt, scope, current, bucket := FileSection(lx, sections[n], rebuilt, bucket);
      n := n + 1;
    }
    assert sections[..n] == sections;
    SectionsFile(lx, sections);
    FlushKeepsRows(lx, RunSections(lx, sections), AllRequired(lx, sections));
    rebuilt := rebuilt + Flushed(scope.title, current);
    RowsOfNone(rebuilt, lx);
    result := Finish(lx, rebuilt, bucket, sections);
    assert bucket != [] ==> result[..|result| - 1] == rebuilt;
  }

  // ---------------------------------------------------------------- nothing lost, nothing twice

  function KeptRows(sofar: seq<Ingredient>, rows: seq<Row>): seq<Ingredient> {
    if rows == [] then sofar
    else var before, row := KeptRows(sofar, rows[..|rows| - 1]), rows[|rows| - 1];
      if row.Kept? then before + [row.ingredient] else before
  }

  function AllKept(lx: Lexicon, sections: seq<Section>): seq<Ingredient> {
    if sections == [] then []
    else KeptRows(AllKept(lx, sections[..|sections| - 1]), ReadAll(lx, sections[|sections| - 1]))
  }

  function Plain(rows: seq<Filed>): seq<Ingredient> {
    seq(|rows|, k requires 0 <= k < |rows| => rows[k].ingredient)
  }

  // Between them, a and b hold the rows c, each as often.
  ghost predicate Split(a: seq<Filed>, b: seq<Ingredient>, c: seq<Ingredient>) {
    multiset(Plain(a)) + multiset(b) == multiset(c)
  }

  lemma SplitGrows(a: seq<Filed>, b: seq<Ingredient>, c: seq<Ingredient>, title: string, i: Ingredient)
    requires Split(a, b, c)
    ensures Split(a + [Filed(title, i)], b, c + [i])
    ensures Split(a, b + [i], c + [i])
  {
    assert Plain(a + [Filed(title, i)]) == Plain(a) + [i];
  }

  lemma {:induction false} RowsSplit(a: seq<Filed>, b: seq<Ingredient>, c: seq<Ingredient>, first: Scope,
      rows: seq<Row>)
    requires Split(a, b, c)
    ensures Split(Required(a, first, rows), Optional(b, first, rows), KeptRows(c, rows))
    decreases |rows|
  {
    if rows != [] {
      var before, row := rows[..|rows| - 1], rows[|rows| - 1];
      RowsSplit(a, b, c, first, before);
      if row.Kept? {
        SplitGrows(Required(a, first, before), Optional(b, first, before), KeptRows(c, before),
                   InForce(first, before).title, row.ingredient);
      }
    }
  }

  // Required and optional rows together are the rows to keep, each as often as it was given.
  lemma {:induction false} EveryRowOnce(lx: Lexicon, sections: seq<Section>)
    ensures Split(AllRequired(lx, sections), AllOptional(lx, sections), AllKept(lx, sections))
    decreases |sections|
  {
    if sections != [] {
      var n := |sections| - 1;
      EveryRowOnce(lx, sections[..n]);
      RowsSplit(AllRequired(lx, sections[..n]), AllOptional(lx, sections[..n]), AllKept(lx, sections[..n]),
                SectionScope(lx, sections[n]), ReadAll(lx, sections[n]));
    }
  }

  // ---------------------------------------------------------------- where one row goes

  // A row right under its section's title. If that title looks optional, or the row carries a
  // marker, the row is optional; else it is required, under the default title if the section's is
  // generic or blank, and under the section's own otherwise.
  lemma UnderItsSection(lx: Lexicon, title: string, i: Ingredient, kept: Ingredient, marked: bool)
    requires Read(lx, i) == Kept(kept, marked)
    ensures var own := if lx.visible(title) == "" then lx.defaultTitle else lx.visible(title);
            var required, optional := AllRequired(lx, [Section(title, [i])]), AllOptional(lx, [Section(title, [i])]);
            && (marked || lx.isOptionalTitle(own) ==> required == [] && optional == [kept])
            && (!marked && !lx.isOptionalTitle(own) && lx.isGenericTitle(own) ==>
                  required == [Filed(lx.defaultTitle, kept)] && optional == [])
            && (!marked && !lx.isOptionalTitle(own) && !lx.isGenericTitle(own) ==>
                  required == [Filed(own, kept)] && optional == [])
  {
    var s := Section(title, [i]);
    assert [s][..|[s]| - 1] == [];
    assert ReadAll(lx, s) == [Kept(kept, marked)];
    OneRow(SectionScope(lx, s), kept, marked);
  }

  lemma OneRow(first: Scope, kept: Ingredient, marked: bool)
    ensures Required([], first, [Kept(kept, marked)]) ==
            if marked || first.optional then [] else [Filed(first.title, kept)]
    ensures Optional([], first, [Kept(kept, marked)]) == if marked || first.optional then [kept] else []
  {
    var rows := [Kept(kept, marked)];
    assert rows[..|rows| - 1] == [];
  }

  lemma HeadingAlone(first: Scope, heading: Row)
    requires heading.Heading?
    ensures Required([], first, [heading]) == [] && Optional([], first, [heading]) == []
  {
    assert [heading][..|[heading]| - 1] == [];
  }

  // A row under a heading inside a section, whatever the section's title: the same by the
  // heading's text without its final punctuation.
  lemma UnderItsHeading(lx: Lexicon, title: string, h: Ingredient, i: Ingredient, kept: Ingredient, marked: bool)
    requires LooksLikeHeading(lx, h) && Read(lx, i) == Kept(kept, marked)
    ensures var text := lx.trim(lx.dropPunctuation(lx.trim(h.name)));
            var own := if text == "" then lx.defaultTitle else text;
            var s := [Section(title, [h, i])];
            && (marked || lx.isOptionalTitle(own) ==> AllRequired(lx, s) == [] && AllOptional(lx, s) == [kept])
            && (!marked && !lx.isOptionalTitle(own) && lx.isGenericTitle(own) ==>
                  AllRequired(lx, s) == [Filed(lx.defaultTitle, kept)] && AllOptional(lx, s) == [])
            && (!marked && !lx.isOptionalTitle(own) && !lx.isGenericTitle(own) ==>
                  AllRequired(lx, s) == [Filed(own, kept)] && AllOptional(lx, s) == [])
  {
    var s := Section(title, [h, i]);
    assert [s][..|[s]| - 1] == [];
    var heading := Heading(HeadingScope(lx, h));
    var rows := [heading, Kept(kept, marked)];
    assert ReadAll(lx, s) == rows;
    assert rows[..|rows| - 1] == [heading] && [heading][..0] == [];
    assert InForce(SectionScope(lx, s), [heading]) == HeadingScope(lx, h);
    HeadingAlone(SectionScope(lx, s), heading);
  }

  // A line without an amount that ends like a heading opens a section if it has six words at
  // most; with more it is an ingredient, unless its words alone make it a heading.
  lemma LongLinesAreIngredients(lx: Lexicon, i: Ingredient)
    requires !HasAmount(i) && lx.trim(i.name) != "" && lx.endsLikeHeading(lx.trim(i.name))
    ensures var cleaned := lx.trim(lx.dropPunctuation(lx.trim(i.name)));
            var byWords := lx.isGenericTitle(cleaned) || lx.isOptionalTitle(cleaned) || lx.headingPattern(cleaned);
            && (lx.wordCount(cleaned) <= 6 || byWords ==> Read(lx, i).Heading?)
            && (lx.wordCount(cleaned) >= 7 && !byWords ==> !Read(lx, i).Heading?)
  {
  }

  // The optional marker, in front or inside, makes a row optional and is taken off its name; a
  // row without one keeps its trimmed name.
  lemma MarkersAreTakenOff(lx: Lexicon, i: Ingredient)
    requires Read(lx, i).Kept?
    ensures var name := lx.trim(i.name);
            var front := lx.hasPrefix(name);
            var rest := if front then lx.trim(lx.dropPrefix(name)) else name;
            && (Read(lx, i).marked <==> front || lx.hasMarker(rest))
            && (!front && !lx.hasMarker(rest) && name != "" ==> Read(lx, i).ingredient.name == name)
            && (lx.hasMarker(rest) && lx.dropMarker(rest) != "" ==> Read(lx, i).ingredient.name == lx.dropMarker(rest))
  {
  }

  // An ingredient without an amount is kept with the to-taste quantity and nothing else.
  lemma ToTaste(lx: Lexicon, i: Ingredient)
    requires Read(lx, i).Kept? && !HasAmount(i)
    ensures var kept := Read(lx, i).ingredient;
            kept.quantity == Some(lx.toTaste) && kept.unit == None && kept.density == None
  {
  }

  // A row that states an amount is never taken for a heading: it is kept with that amount
  // unless its name is blank once the optional marker is gone.
  lemma AmountIsKept(lx: Lexicon, i: Ingredient)
    requires HasAmount(i)
    ensures var row := Read(lx, i);
            && (row.Blank? <==> lx.trim(StripOptionalMarker(lx, i).0.name) == "")
            && (!row.Blank? ==> row.Kept? && row.ingredient.(name := i.name) == i)
  {
  }

  // And a row without one that is kept is given the to-taste quantity.
  lemma EveryKeptRowHasAnAmount(lx: Lexicon, sections: seq<Section>)
    requires lx.toTaste != ""
    ensures forall i :: i in AllKept(lx, sections) ==> HasAmount(i)
    decreases |sections|
  {
    if sections != [] {
      EveryKeptRowHasAnAmount(lx, sections[..|sections| - 1]);
      KeptHasAnAmount(AllKept(lx, sections[..|sections| - 1]), ReadAll(lx, sections[|sections| - 1]));
    }
  }

  lemma {:induction false} KeptHasAnAmount(sofar: seq<Ingredient>, rows: seq<Row>)
    requires forall i :: i in sofar ==> HasAmount(i)
    requires forall k :: 0 <= k < |rows| && rows[k].Kept? ==> HasAmount(rows[k].ingredient)
    ensures forall i :: i in KeptRows(sofar, rows) ==> HasAmount(i)
    decreases |rows|
  {
    if rows != [] {
      KeptHasAnAmount(sofar, rows[..|rows| - 1]);
    }
  }

  // A row without a marker is dropped exactly when its own name is blank.
  lemma DroppedOnlyIfBlank(lx: Lexicon, i: Ingredient)
    requires forall t :: lx.trim(lx.trim(t)) == lx.trim(t)
    requires !StripOptionalMarker(lx, i).1
    ensures Read(lx, i).Blank? <==> lx.trim(i.name) == ""
  {
    assert lx.trim(lx.trim(i.name)) == lx.trim(i.name);
  }
}
