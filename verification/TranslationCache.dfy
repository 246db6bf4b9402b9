/**
 The recipe-translation cache. An entry remembers the fingerprint of the content it was made
 from, and is served only over a base row with that fingerprint. Recipes are rewritten and
 translation jobs are in flight meanwhile: a job takes the fingerprint when it reads and
 stores the payload later.

 The fingerprint is a hash of a canonical encoding; it is taken to be injective, so it is the
 fingerprinted content itself. Language codes are canonical.
 */
module TranslationCache {
  import opened Options

  type RecipeId = string
  type Lang = string

  datatype Section = Section(title: string, ingredients: seq<string>)

  // The fields a translation payload carries.
  datatype Text = Text(
    title: string,
    description: string,
    sections: seq<Section>,
    steps: seq<string>,
    tags: seq<string>,
    missingFields: seq<string>,
    tips: seq<string>)

  // A base row; `ingredients` is the flat list of rows from before sections existed.
  datatype Recipe = Recipe(
    language: Lang,
    text: Text,
    ingredients: seq<string>,
    servings: Option<int>,
    prepMinutes: Option<int>,
    cookMinutes: Option<int>)

  datatype Content = Content(text: Text, servings: Option<int>, prepMinutes: Option<int>, cookMinutes: Option<int>)

  // `names` is the table of the default section title of each language.
  function Fingerprint(names: Lang -> string, row: Recipe): Content {
    var sections :=
      if row.text.sections == [] && row.ingredients != []
      then [Section(names(row.language), row.ingredients)] else row.text.sections;
    Content(row.text.(sections := sections), row.servings, row.prepMinutes, row.cookMinutes)
  }

  // The sections a row shows: its own, or for a row from before sections one default section of
  // all its ingredients.
  predicate Shows(names: Lang -> string, row: Recipe, sections: seq<Section>) {
    if row.text.sections == [] && row.ingredients != []
    then |sections| == 1 && sections[0].title == names(row.language) && sections[0].ingredients == row.ingredients
    else sections == row.text.sections
  }

  // Two rows with nothing to tell a translation of one from a translation of the other: field
  // by field the same, and showing the same sections.
  ghost predicate SameContent(names: Lang -> string, a: Recipe, b: Recipe) {
    && a.text.title == b.text.title && a.text.description == b.text.description
    && a.text.steps == b.text.steps && a.text.tags == b.text.tags
    && a.text.missingFields == b.text.missingFields && a.text.tips == b.text.tips
    && a.servings == b.servings && a.prepMinutes == b.prepMinutes && a.cookMinutes == b.cookMinutes
    && exists sections :: Shows(names, a, sections) && Shows(names, b, sections)
  }

  // The fingerprint tells rows apart exactly by their content.
  lemma FingerprintIsContent(names: Lang -> string, a: Recipe, b: Recipe)
    ensures Fingerprint(names, a) == Fingerprint(names, b) <==> SameContent(names, a, b)
  {
    var shown := Fingerprint(names, a).text.sections;
    assert Shows(names, a, shown);
    if SameContent(names, a, b) {
      var sections :| Shows(names, a, sections) && Shows(names, b, sections);
      assert sections == shown;
      assert sections == Fingerprint(names, b).text.sections;
    } else if Fingerprint(names, a) == Fingerprint(names, b) {
      assert Shows(names, b, shown);
    }
  }

  datatype Entry = Entry(payload: Text, fingerprint: Content)

  datatype Key = Key(recipe: RecipeId, lang: Lang)

  function Overlay(base: Recipe, payload: Text, target: Lang): Recipe {
    base.(text := payload, language := target)
  }

  // localized_recipe_row: the base itself, an overlay of a matching entry, or nothing.
  function Localized(names: Lang -> string, cache: map<Key, Entry>, id: RecipeId, base: Recipe, target: Lang)
    : Option<Recipe>
  {
    if base.language == target then Some(base)
    else if Key(id, target) in cache && cache[Key(id, target)].fingerprint == Fingerprint(names, base)
    then Some(Overlay(base, cache[Key(id, target)].payload, target))
    else None
  }

  // The row a reader sees when the untranslated base is the fallback.
  function Served(names: Lang -> string, cache: map<Key, Entry>, id: RecipeId, base: Recipe, target: Lang): Recipe {
    var row := Localized(names, cache, id, base, target);
    if row.Some? then row.value else base
  }

  // ---------------------------------------------------------------- jobs and runs

  datatype Stage =
    | Reading
    | Translating(base: Recipe)
    | Storing(fingerprint: Content, payload: Text)
    | Ended

  datatype Job = Job(key: Key, stage: Stage)

  // History, no table: a job for this recipe and language was given this row to translate and
  // came back with this payload.
  datatype Made = Made(key: Key, base: Recipe, payload: Text)

  datatype State = State(
    recipes: map<RecipeId, Recipe>,
    cache: map<Key, Entry>,
    jobs: map<nat, Job>,
    made: set<Made>)

  datatype Action =
    | DoRewrite(id: RecipeId, row: Recipe)
    | DoStart(j: nat, key: Key)
    | DoRead(j: nat)
    | DoTranslate(j: nat, answer: Text)
    | DoStore(j: nat)

  function At(s: State, j: nat, stage: Stage): State
    requires j in s.jobs
  {
    s.(jobs := s.jobs[j := s.jobs[j].(stage := stage)])
  }

  // A job in the recipe's own language copies the base text; any other asks the translator.
  function Payload(base: Recipe, lang: Lang, answer: Text): Text {
    if base.language == lang then base.text else answer
  }

  function Apply(names: Lang -> string, s: State, a: Action): State {
    match a
    case DoRewrite(id, row) => s.(recipes := s.recipes[id := row])
    case DoStart(j, key) => if j in s.jobs then s else s.(jobs := s.jobs[j := Job(key, Reading)])
    case DoRead(j) =>
      if j !in s.jobs || !s.jobs[j].stage.Reading? then s
      else
        var id := s.jobs[j].key.recipe;
        At(s, j, if id in s.recipes then Translating(s.recipes[id]) else Ended)
    case DoTranslate(j, answer) =>
      if j !in s.jobs || !s.jobs[j].stage.Translating? then s
      else
        var base := s.jobs[j].stage.base;
        var payload := Payload(base, s.jobs[j].key.lang, answer);
        At(s, j, Storing(Fingerprint(names, base), payload))
          .(made := s.made + {Made(s.jobs[j].key, base, payload)})
    case DoStore(j) =>
      if j !in s.jobs || !s.jobs[j].stage.Storing? then s
      else
        At(s, j, Ended).(cache := s.cache[s.jobs[j].key := Entry(s.jobs[j].stage.payload, s.jobs[j].stage.fingerprint)])
  }

  function Exec(names: Lang -> string, s: State, acts: seq<Action>): State
    decreases |acts|
  {
    if acts == [] then s else Exec(names, Apply(names, s, acts[0]), acts[1..])
  }

  const INITIAL := State(map[], map[], map[], {})

  lemma {:induction false} ExecAppend(names: Lang -> string, s: State, a: seq<Action>, b: seq<Action>)
    ensures Exec(names, s, a + b) == Exec(names, Exec(names, s, a), b)
    decreases |a|
  {
    if a == [] {
      assert a + b == b;
    } else {
      assert (a + b)[0] == a[0] && (a + b)[1..] == a[1..] + b;
      ExecAppend(names, Apply(names, s, a[0]), a[1..], b);
    }
  }

  // The payload was made for this key from a row with this fingerprint.
  ghost predicate MadeFrom(names: Lang -> string, made: set<Made>, key: Key, fingerprint: Content, payload: Text) {
    exists base :: Made(key, base, payload) in made && Fingerprint(names, base) == fingerprint
  }

  // Every entry, and every payload about to be stored, was made from a row with the content it
  // names; and a row that is in the language asked for is copied.
  ghost predicate Inv(names: Lang -> string, s: State) {
    && (forall k :: k in s.cache ==> MadeFrom(names, s.made, k, s.cache[k].fingerprint, s.cache[k].payload))
    && (forall j :: j in s.jobs && s.jobs[j].stage.Storing? ==>
          MadeFrom(names, s.made, s.jobs[j].key, s.jobs[j].stage.fingerprint, s.jobs[j].stage.payload))
    && (forall m :: m in s.made && m.base.language == m.key.lang ==> m.payload == m.base.text)
  }

  lemma MadeFromMore(names: Lang -> string, made: set<Made>, more: set<Made>, key: Key, fingerprint: Content,
                     payload: Text)
    requires made <= more && MadeFrom(names, made, key, fingerprint, payload)
    ensures MadeFrom(names, more, key, fingerprint, payload)
  {
    var base :| Made(key, base, payload) in made && Fingerprint(names, base) == fingerprint;
    assert Made(key, base, payload) in more;
  }

  lemma ApplyKeepsInv(names: Lang -> string, s: State, a: Action)
    requires Inv(names, s)
    ensures Inv(names, Apply(names, s, a)) && s.made <= Apply(names, s, a).made
  {
    var t := Apply(names, s, a);
    forall k | k in s.cache
      ensures MadeFrom(names, t.made, k, s.cache[k].fingerprint, s.cache[k].payload)
    {
      MadeFromMore(names, s.made, t.made, k, s.cache[k].fingerprint, s.cache[k].payload);
    }
    forall j | j in s.jobs && s.jobs[j].stage.Storing?
      ensures MadeFrom(names, t.made, s.jobs[j].key, s.jobs[j].stage.fingerprint, s.jobs[j].stage.payload)
    {
      MadeFromMore(names, s.made, t.made, s.jobs[j].key, s.jobs[j].stage.fingerprint, s.jobs[j].stage.payload);
    }
    if a.DoTranslate? && a.j in s.jobs && s.jobs[a.j].stage.Translating? {
      var base := s.jobs[a.j].stage.base;
      assert Made(s.jobs[a.j].key, base, Payload(base, s.jobs[a.j].key.lang, a.answer)) in t.made;
    }
  }

  lemma {:induction false} RunKeepsInv(names: Lang -> string, s: State, acts: seq<Action>)
    requires Inv(names, s)
    ensures Inv(names, Exec(names, s, acts)) && s.made <= Exec(names, s, acts).made
    decreases |acts|
  {
    if acts != [] {
      ApplyKeepsInv(names, s, acts[0]);
      RunKeepsInv(names, Apply(names, s, acts[0]), acts[1..]);
    }
  }

  // The row is the base with the text of this translation, in this language; the rest is the
  // base's own.
  predicate Translated(row: Recipe, base: Recipe, payload: Text, target: Lang) {
    && row.language == target && row.text == payload && row.ingredients == base.ingredients
    && row.servings == base.servings && row.prepMinutes == base.prepMinutes && row.cookMinutes == base.cookMinutes
  }

  // The translation m was made for this recipe and language from a row of the same content as
  // the base, field by field, and is what the row shows.
  ghost predicate Faithful(names: Lang -> string, m: Made, row: Recipe, base: Recipe, id: RecipeId, target: Lang) {
    && m.key.recipe == id && m.key.lang == target
    && SameContent(names, m.base, base) && Translated(row, base, m.payload, target)
  }

  // A row is served in another language exactly if there is an entry for it that was made from
  // a row of the same content.
  lemma ServedExactly(names: Lang -> string, s: State, id: RecipeId, base: Recipe, target: Lang) returns (m: Made)
    requires Inv(names, s)
    ensures var row := Localized(names, s.cache, id, base, target);
            && (base.language == target ==> row == Some(base))
            && (base.language != target && Key(id, target) !in s.cache ==> row == None)
            && (base.language != target && Key(id, target) in s.cache ==>
                  && m in s.made && m.key == Key(id, target) && m.payload == s.cache[Key(id, target)].payload
                  && (row.Some? <==> SameContent(names, m.base, base))
                  && (row.Some? ==> Faithful(names, m, row.value, base, id, target)))
  {
    m := Made(Key(id, target), base, base.text);
    var key := Key(id, target);
    if key in s.cache {
      var entry := s.cache[key];
      var origin :| Made(key, origin, entry.payload) in s.made && Fingerprint(names, origin) == entry.fingerprint;
      m := Made(key, origin, entry.payload);
      FingerprintIsContent(names, origin, base);
    }
  }

  // Coherence. A reader takes the base row at one moment and looks into the cache at any later
  // moment, with any rewrites and any stages of any jobs before, between and after. What it
  // serves is the base as it was read, or a translation of this recipe into the language asked
  // for, made from a row that agrees with that base in every field a translation depends on.
  lemma CacheIsCoherent(names: Lang -> string, acts: seq<Action>, between: seq<Action>, id: RecipeId, target: Lang)
    returns (m: Made)
    requires id in Exec(names, INITIAL, acts).recipes
    ensures var base := Exec(names, INITIAL, acts).recipes[id];
            var later := Exec(names, INITIAL, acts + between);
            var row := Served(names, later.cache, id, base, target);
            row == base || (m in later.made && Faithful(names, m, row, base, id, target))
  {
    RunKeepsInv(names, INITIAL, acts + between);
    m := ServedExactly(names, Exec(names, INITIAL, acts + between), id, Exec(names, INITIAL, acts).recipes[id], target);
  }

  predicate Stores(s: State, a: Action, key: Key) {
    a.DoStore? && a.j in s.jobs && s.jobs[a.j].stage.Storing? && s.jobs[a.j].key == key
  }

  // Along this run no job stores under the key.
  predicate NoStore(names: Lang -> string, s: State, acts: seq<Action>, key: Key)
    decreases |acts|
  {
    acts != [] ==> !Stores(s, acts[0], key) && NoStore(names, Apply(names, s, acts[0]), acts[1..], key)
  }

  lemma {:induction false} EntryStays(names: Lang -> string, s: State, acts: seq<Action>, key: Key)
    requires key in s.cache && NoStore(names, s, acts, key)
    requires key.recipe in s.recipes
    ensures var t := Exec(names, s, acts); key in t.cache && t.cache[key] == s.cache[key] && key.recipe in t.recipes
    decreases |acts|
  {
    if acts != [] {
      EntryStays(names, Apply(names, s, acts[0]), acts[1..], key);
    }
  }

  // Whoever stores last decides. After a store, and any rewrites and stages of any jobs but
  // another store of that recipe and language, the recipe is served with that job's payload
  // exactly when its content is then, field by field, that of the row the job had read, and
  // untranslated otherwise. A late job of an outdated recipe hides a good translation but never
  // shows a wrong one.
  lemma LastStoreDecides(names: Lang -> string, s: State, j: nat, acts: seq<Action>, origin: Recipe)
    requires j in s.jobs && s.jobs[j].stage.Storing? && s.jobs[j].key.recipe in s.recipes
    requires s.jobs[j].stage.fingerprint == Fingerprint(names, origin)
    requires NoStore(names, Apply(names, s, DoStore(j)), acts, s.jobs[j].key)
    ensures var key := s.jobs[j].key;
            var t := Exec(names, Apply(names, s, DoStore(j)), acts);
            && key.recipe in t.recipes
            && var base := t.recipes[key.recipe];
               var row := Localized(names, t.cache, key.recipe, base, key.lang);
               && (base.language == key.lang ==> row == Some(base))
               && (base.language != key.lang ==>
                     && (row.Some? <==> SameContent(names, origin, base))
                     && (row.Some? ==> Translated(row.value, base, s.jobs[j].stage.payload, key.lang)))
  {
    var key := s.jobs[j].key;
    EntryStays(names, Apply(names, s, DoStore(j)), acts, key);
    FingerprintIsContent(names, origin, Exec(names, Apply(names, s, DoStore(j)), acts).recipes[key.recipe]);
  }

  // ---------------------------------------------------------------- the functions of the source

  // One row of a user's library: the recipe and when it was saved.
  datatype Link = Link(id: RecipeId, recipe: Recipe, savedAt: string)

  datatype Summary = Summary(row: Recipe, savedAt: string)

  class Store {
    const names: Lang -> string
    var recipes: map<RecipeId, Recipe>
    var cache: map<Key, Entry>
    ghost var jobs: map<nat, Job>
    ghost var made: set<Made>
    ghost var trace: seq<Action>

    ghost function Model(): State
      reads this
    {
      State(recipes, cache, jobs, made)
    }

    ghost predicate Valid()
      reads this
    {
      Model() == Exec(names, INITIAL, trace)
    }

    constructor (names: Lang -> string)
      ensures Valid() && trace == [] && this.names == names
    {
      this.names := names;
      recipes, cache, jobs, made, trace := map[], map[], map[], {}, [];
    }

    ghost method Book(before: State, a: Action)
      requires before == Exec(names, INITIAL, trace)
      requires recipes == Apply(names, before, a).recipes && cache == Apply(names, before, a).cache
      modifies this`jobs, this`made, this`trace
      ensures Valid() && trace == old(trace) + [a] && Model() == Apply(names, before, a)
    {
      ExecAppend(names, INITIAL, trace, [a]);
      var after := Apply(names, before, a);
      jobs, made, trace := after.jobs, after.made, trace + [a];
    }

    // Rewrites and other jobs; job j is moved on by itself only. The body stands for none of
    // them; callers rely on the contract.
    method Interfere(ghost j: nat)
      requires Valid() && j in jobs
      modifies this
      ensures Valid() && old(trace) <= trace && j in jobs && jobs[j] == old(jobs[j])
    {
    }

    method UpsertRecipe(id: RecipeId, row: Recipe)
      requires Valid()
      modifies this
      ensures Valid() && Model() == Apply(names, old(Model()), DoRewrite(id, row))
    {
      ghost var before := Model();
      recipes := recipes[id := row];
      Book(before, DoRewrite(id, row));
    }

    // get_recipe_translation with the fingerprint the caller wants.
    method GetRecipeTranslation(id: RecipeId, lang: Lang, fingerprint: Content) returns (entry: Option<Entry>)
      ensures entry.Some? <==> Key(id, lang) in cache && cache[Key(id, lang)].fingerprint == fingerprint
      ensures entry.Some? ==> entry.value == cache[Key(id, lang)]
    {
      entry := None;
      if Key(id, lang) in cache && cache[Key(id, lang)].fingerprint == fingerprint {
        entry := Some(cache[Key(id, lang)]);
      }
    }

    method LocalizedRecipeRow(id: RecipeId, base: Recipe, target: Lang) returns (row: Option<Recipe>, ghost m: Made)
      ensures row == Localized(names, cache, id, base, target)
      ensures base.language == target ==> row == Some(base)
      ensures Valid() && base.language != target ==>
                && (row.Some? <==> Key(id, target) in cache && SameContent(names, m.base, base))
                && (Key(id, target) in cache ==>
                      m in made && m.payload == cache[Key(id, target)].payload && m.key == Key(id, target))
                && (row.Some? ==> Faithful(names, m, row.value, base, id, target))
    {
      m := Made(Key(id, target), base, base.text);
      if Valid() {
        RunKeepsInv(names, INITIAL, trace);
        m := ServedExactly(names, Model(), id, base, target);
      }
      if base.language == target {
        row := Some(base);
        return;
      }
      var translation := GetRecipeTranslation(id, target, Fingerprint(names, base));
      if translation.None? {
        row := None;
        return;
      }
      row := Some(base.(text := translation.value.payload, language := target));
    }

    // get_recipe_translations: the entries of these recipes in one language, by recipe.
    method GetRecipeTranslations(links: seq<Link>, lang: Lang) returns (found: map<RecipeId, Entry>)
      ensures forall i :: 0 <= i < |links| ==> (links[i].id in found <==> Key(links[i].id, lang) in cache)
      ensures forall id :: id in found ==> Key(id, lang) in cache && found[id] == cache[Key(id, lang)]
    {
      found := map[];
      for i := 0 to |links|
        invariant forall k :: 0 <= k < i ==> (links[k].id in found <==> Key(links[k].id, lang) in cache)
        invariant forall id :: id in found ==> Key(id, lang) in cache && found[id] == cache[Key(id, lang)]
      {
        if Key(links[i].id, lang) in cache {
          found := found[links[i].id := cache[Key(links[i].id, lang)]];
        }
      }
    }

    // list_user_recipe_summaries: the batch path agrees with the single-row path, row by row,
    // the base standing in where that path has nothing.
    method ListUserRecipeSummaries(links: seq<Link>, target: Lang) returns (out: seq<Summary>)
      ensures |out| == |links|
      ensures forall i :: 0 <= i < |links| ==>
                out[i] == Summary(Served(names, cache, links[i].id, links[i].recipe, target), links[i].savedAt)
    {
      var translations := GetRecipeTranslations(links, target);
      out := [];
      for i := 0 to |links|
        invariant |out| == i
        invariant forall k :: 0 <= k < i ==>
                    out[k] == Summary(Served(names, cache, links[k].id, links[k].recipe, target), links[k].savedAt)
      {
        var recipe := links[i].recipe;
        if recipe.language != target && links[i].id in translations &&
           translations[links[i].id].fingerprint == Fingerprint(names, recipe) {
          recipe := recipe.(text := translations[links[i].id].payload, language := target);
        }
        out := out + [Summary(recipe, links[i].savedAt)];
      }
    }

    method ReadRecipe(ghost j: nat, id: RecipeId, lang: Lang) returns (row: Option<Recipe>)
      requires Valid() && j in jobs && jobs[j] == Job(Key(id, lang), Reading)
      modifies this
      ensures Valid() && trace == old(trace) + [DoRead(j)]
      ensures row == if id in old(recipes) then Some(old(recipes)[id]) else None
      ensures j in jobs && jobs[j] == Job(Key(id, lang), if row.Some? then Translating(row.value) else Ended)
    {
      row := if id in recipes then Some(recipes[id]) else None;
      Book(Model(), DoRead(j));
    }

    method UpsertRecipeTranslation(ghost j: nat, id: RecipeId, lang: Lang, payload: Text, sourceFingerprint: Content)
      requires Valid() && j in jobs && jobs[j] == Job(Key(id, lang), Storing(sourceFingerprint, payload))
      modifies this
      ensures Valid() && trace == old(trace) + [DoStore(j)]
      ensures cache == old(cache)[Key(id, lang) := Entry(payload, sourceFingerprint)] && recipes == old(recipes)
    {
      ghost var before := Model();
      cache := cache[Key(id, lang) := Entry(payload, sourceFingerprint)];
      Book(before, DoStore(j));
    }

    ghost method Translate(j: nat, base: Recipe, answer: Text)
      requires Valid() && j in jobs && jobs[j].stage == Translating(base)
      modifies this
      ensures Valid() && trace == old(trace) + [DoTranslate(j, answer)]
      ensures j in jobs
      ensures jobs[j] == Job(old(jobs)[j].key,
          Storing(Fingerprint(names, base), Payload(base, old(jobs)[j].key.lang, answer)))
    {
      Book(Model(), DoTranslate(j, answer));
    }

    // run_translation_job: read and fingerprint, translate, store; others act between. What is
    // stored is paired with the content that was read, not with the recipe as it is by then.
    method RunTranslationJob(ghost j: nat, id: RecipeId, lang: Lang, answer: Text)
      returns (readRow: Option<Recipe>)
      requires Valid() && j !in jobs
      modifies this
      ensures Valid() && old(trace) <= trace
      ensures readRow.Some? ==>
                && Key(id, lang) in cache
                && cache[Key(id, lang)] == Entry(if readRow.value.language == lang then readRow.value.text else answer,
                                                 Fingerprint(names, readRow.value))
    {
      Book(Model(), DoStart(j, Key(id, lang)));
      Interfere(j);
      readRow := ReadRecipe(j, id, lang);
      if readRow.None? {
        return;
      }
      var sourceFingerprint := Fingerprint(names, readRow.value);
      Interfere(j);
      var payload := answer;
      if readRow.value.language == lang {
        payload := readRow.value.text;
      }
      Translate(j, readRow.value, answer);
      Interfere(j);
      UpsertRecipeTranslation(j, id, lang, payload, sourceFingerprint);
    }
  }
}
