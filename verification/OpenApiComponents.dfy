/**
  Normalisation of an OpenAPI document: cosmetic keys are dropped, and a worklist collects
  exactly the component definitions that the selected paths reach.
 */
module OpenApiComponents {
  import opened Options

  datatype Json = Obj(fields: map<string, Json>) | Arr(items: seq<Json>) | Str(text: string) | Scalar(value: int)

  /** A component is named by its section and its name. */
  type Ref = (string, string)

  const COSMETIC: set<string> := {"description", "summary", "examples"}
  const PREFIX := "#/components/"

  /** Under "properties" every key is a property name and stays. */
  function Strip(v: Json, properties: bool): Json {
    match v
    case Obj(fields) =>
      Obj(map k | k in fields && (properties || k !in COSMETIC) :: Strip(fields[k], k == "properties"))
    case Arr(items) => Arr(seq(|items|, i requires 0 <= i < |items| => Strip(items[i], false)))
    case _ => v
  }

  /** The position of the first slash, or the length. */
  function Slash(s: string): (i: nat)
    ensures i <= |s|
    ensures i < |s| ==> s[i] == '/'
    ensures forall j | 0 <= j < i :: s[j] != '/'
  {
    if s == [] || s[0] == '/' then 0 else 1 + Slash(s[1..])
  }

  function ParseRef(s: string): Option<Ref> {
    if !(PREFIX <= s) then None
    else
      var remainder := s[|PREFIX|..];
      var cut := Slash(remainder);
      if cut == 0 || cut + 1 >= |remainder| then None else Some((remainder[..cut], remainder[cut + 1..]))
  }

  function OwnRef(fields: map<string, Json>): set<Ref> {
    if "$ref" in fields && fields["$ref"].Str? && ParseRef(fields["$ref"].text).Some?
    then {ParseRef(fields["$ref"].text).value} else {}
  }

  function References(v: Json): set<Ref> {
    match v
    case Obj(fields) => OwnRef(fields) + (set k, r | k in fields && r in References(fields[k]) :: r)
    case Arr(items) => set i, r | 0 <= i < |items| && r in References(items[i]) :: r
    case _ => {}
  }

  function OwnSecurity(fields: map<string, Json>): set<string> {
    if "security" in fields && fields["security"].Arr?
    then set i, n | 0 <= i < |fields["security"].items| && fields["security"].items[i].Obj?
                    && n in fields["security"].items[i].fields :: n
    else {}
  }

  function SecurityNames(v: Json): set<string> {
    match v
    case Obj(fields) => OwnSecurity(fields) + (set k, n | k in fields && n in SecurityNames(fields[k]) :: n)
    case Arr(items) => set i, n | 0 <= i < |items| && n in SecurityNames(items[i]) :: n
    case _ => {}
  }

  /** Stripping loses references and gains none. */
  lemma {:induction false} StripKeepsFewerReferences(v: Json, properties: bool)
    ensures References(Strip(v, properties)) <= References(v)
  {
    match v
    case Obj(fields) =>
      forall k | k in fields
        ensures References(Strip(fields[k], k == "properties")) <= References(fields[k])
      {
        StripKeepsFewerReferences(fields[k], k == "properties");
      }
      ObjReferences(fields, properties);
    case Arr(items) =>
      forall i | 0 <= i < |items|
        ensures References(Strip(items[i], false)) <= References(items[i])
      {
        StripKeepsFewerReferences(items[i], false);
      }
    case _ =>
  }

  lemma ObjReferences(fields: map<string, Json>, properties: bool)
    requires forall k | k in fields :: References(Strip(fields[k], k == "properties")) <= References(fields[k])
    ensures References(Strip(Obj(fields), properties)) <= References(Obj(fields))
  {
    var stripped := Strip(Obj(fields), properties).fields;
    assert OwnRef(stripped) <= OwnRef(fields);
    forall k, r | k in stripped && r in References(stripped[k])
      ensures r in References(Obj(fields))
    {
      assert k in fields && r in References(fields[k]);
    }
  }

  // ---- Reachability ----

  predicate Resolves(components: map<string, Json>, r: Ref) {
    r.0 in components && components[r.0].Obj? && r.1 in components[r.0].fields
  }

  function Definition(components: map<string, Json>, r: Ref): Json
    requires Resolves(components, r)
  {
    components[r.0].fields[r.1]
  }

  /** A chain of definitions: it starts at a root, and each one references the next. */
  ghost predicate Chain(components: map<string, Json>, roots: set<Ref>, chain: seq<Ref>) {
    && chain != [] && chain[0] in roots
    && (forall i | 0 <= i < |chain| :: Resolves(components, chain[i]))
    && (forall i, j | 0 <= i < j < |chain| && j == i + 1 :: chain[j] in References(Definition(components, chain[i])))
  }

  ghost predicate Reachable(components: map<string, Json>, roots: set<Ref>, r: Ref) {
    exists chain :: Chain(components, roots, chain) && chain[|chain| - 1] == r
  }

  lemma RootsAreReachable(components: map<string, Json>, roots: set<Ref>, r: Ref)
    requires r in roots && Resolves(components, r)
    ensures Reachable(components, roots, r)
  {
    assert Chain(components, roots, [r]);
  }

  lemma ReferencedAreReachable(components: map<string, Json>, roots: set<Ref>, r: Ref, next: Ref)
    requires Reachable(components, roots, r) && Resolves(components, r) && Resolves(components, next)
    requires next in References(Definition(components, r))
    ensures Reachable(components, roots, next)
  {
    var chain :| Chain(components, roots, chain) && chain[|chain| - 1] == r;
    var longer := chain + [next];
    forall i, j | 0 <= i < j < |longer| && j == i + 1
      ensures longer[j] in References(Definition(components, longer[i]))
    {
      if j < |chain| { assert chain[j] in References(Definition(components, chain[i])); }
    }
    assert Chain(components, roots, longer);
  }

  /** What is closed under references and holds the roots holds everything reachable. */
  lemma {:induction false} ClosedSetsHoldChains(
    components: map<string, Json>, roots: set<Ref>, chain: seq<Ref>, done: set<Ref>)
    requires Chain(components, roots, chain)
    requires forall r | r in roots && Resolves(components, r) :: r in done
    requires forall r, next | r in done && Resolves(components, r) && Resolves(components, next)
               && next in References(Definition(components, r)) :: next in done
    ensures chain[|chain| - 1] in done
  {
    if |chain| > 1 {
      var init := chain[..|chain| - 1];
      assert forall i, j | 0 <= i < j < |init| && j == i + 1 :: init[j] == chain[j] && init[i] == chain[i];
      assert Chain(components, roots, init);
      ClosedSetsHoldChains(components, roots, init, done);
      assert chain[|chain| - 1] in References(Definition(components, chain[|chain| - 2]));
    }
  }

  // ---- The worklist ----

  type Collection = map<string, map<string, Json>>

  predicate Has(collected: Collection, r: Ref) {
    r.0 in collected && r.1 in collected[r.0]
  }

  function Definitions(components: map<string, Json>): set<Ref> {
    set s, n | s in components && components[s].Obj? && n in components[s].fields :: (s, n)
  }

  function SchemesOf(names: set<string>): set<Ref> {
    set n | n in names :: ("securitySchemes", n)
  }

  /** The components a value names: by reference, or as a security scheme. */
  function Mentions(v: Json): set<Ref> {
    References(v) + SchemesOf(SecurityNames(v))
  }

  /** Exactly the reachable components, each stripped, and no empty section. */
  ghost predicate Exact(components: map<string, Json>, roots: set<Ref>, collected: Collection) {
    && (forall r :: Has(collected, r) <==> Reachable(components, roots, r))
    && (forall r | Has(collected, r) ::
          Resolves(components, r) && collected[r.0][r.1] == Strip(Definition(components, r), false))
    && (forall s | s in collected :: collected[s] != map[])
  }

  /** What the worklist has done is reachable, what it still holds comes from what it has done. */
  ghost predicate Progress(components: map<string, Json>, roots: set<Ref>, pending: set<Ref>, collected: Collection) {
    && (forall r | Has(collected, r) ::
          && Resolves(components, r) && Reachable(components, roots, r)
          && collected[r.0][r.1] == Strip(Definition(components, r), false))
    && (forall r | r in pending && Resolves(components, r) :: Reachable(components, roots, r))
    && (forall r | r in roots && Resolves(components, r) :: Has(collected, r) || r in pending)
    && (forall r, next | Has(collected, r) && Resolves(components, r) && Resolves(components, next)
                         && next in References(Definition(components, r)) :: Has(collected, next) || next in pending)
    && (forall s | s in collected :: collected[s] != map[])
  }

  function Add(collected: Collection, r: Ref, v: Json): Collection {
    collected[r.0 := (if r.0 in collected then collected[r.0] else map[])[r.1 := v]]
  }

  lemma AddHas(collected: Collection, r: Ref, v: Json)
    ensures forall q :: Has(Add(collected, r, v), q) <==> Has(collected, q) || q == r
    ensures forall q | Has(collected, q) && q != r :: Add(collected, r, v)[q.0][q.1] == collected[q.0][q.1]
    ensures Has(Add(collected, r, v), r) && Add(collected, r, v)[r.0][r.1] == v
    ensures (forall s | s in collected :: collected[s] != map[]) ==>
              forall s | s in Add(collected, r, v) :: Add(collected, r, v)[s] != map[]
  {
    assert r.1 in Add(collected, r, v)[r.0];
  }

  lemma CollectingProgresses(
    components: map<string, Json>, roots: set<Ref>, pending: set<Ref>, collected: Collection, r: Ref)
    requires Progress(components, roots, pending, collected) && r in pending && Resolves(components, r)
    ensures Progress(components, roots, pending - {r} + References(Definition(components, r)),
                     Add(collected, r, Strip(Definition(components, r), false)))
  {
    hide Strip, References, Reachable;
    AddHas(collected, r, Strip(Definition(components, r), false));
    forall next | next in References(Definition(components, r)) && Resolves(components, next)
      ensures Reachable(components, roots, next)
    {
      ReferencedAreReachable(components, roots, r, next);
    }
  }

  lemma DoneIsExact(components: map<string, Json>, roots: set<Ref>, collected: Collection)
    requires Progress(components, roots, {}, collected)
    ensures Exact(components, roots, collected)
  {
    hide Strip, References;
    var done := set r | r in Definitions(components) && Has(collected, r);
    forall r
      ensures Has(collected, r) <==> Reachable(components, roots, r)
    {
      if Reachable(components, roots, r) {
        var chain :| Chain(components, roots, chain) && chain[|chain| - 1] == r;
        ClosedSetsHoldChains(components, roots, chain, done);
      }
    }
  }

  lemma SkippingProgresses(
    components: map<string, Json>, roots: set<Ref>, pending: set<Ref>, collected: Collection, r: Ref)
    requires Progress(components, roots, pending, collected) && r in pending
    requires !Resolves(components, r) || Has(collected, r)
    ensures Progress(components, roots, pending - {r}, collected)
  {
    hide Strip, References, Reachable;
  }

  lemma CollectingLeavesLess(components: map<string, Json>, collected: Collection, r: Ref, v: Json)
    requires Resolves(components, r) && !Has(collected, r)
    ensures Left(components, Add(collected, r, v)) < Left(components, collected)
  {
    AddHas(collected, r, v);
    assert r in Left(components, collected) && r !in Left(components, Add(collected, r, v));
  }

  /** The definitions the worklist has not collected. */
  function Left(components: map<string, Json>, collected: Collection): set<Ref> {
    set r | r in Definitions(components) && !Has(collected, r)
  }

  /** Terminates for every order of popping, cycles included, and collects exactly what is reachable. */
  method CollectReferences(document: map<string, Json>, paths: Json) returns (collected: Collection)
    ensures Exact(ComponentsOf(document), Mentions(paths), collected)
    ensures "components" in document && !document["components"].Obj? ==> collected == map[]
  {
    hide Strip, References, Mentions, Progress, Exact, Left, Add, Has;
    collected := map[];
    if "components" in document && !document["components"].Obj? {
      NothingToReach(Mentions(paths));
      return;
    }
    var components := ComponentsOf(document);
    var pending := Mentions(paths);
    RootsProgress(components, pending);
    while pending != {}
      invariant Progress(components, Mentions(paths), pending, collected)
      decreases Left(components, collected), |pending|
    {
      var r :| r in pending;
      if !Resolves(components, r) || Has(collected, r) {
        SkippingProgresses(components, Mentions(paths), pending, collected, r);
        pending := pending - {r};
      } else {
        var definition := Definition(components, r);
        CollectingProgresses(components, Mentions(paths), pending, collected, r);
        CollectingLeavesLess(components, collected, r, Strip(definition, false));
        collected := Add(collected, r, Strip(definition, false));
        pending := pending - {r} + References(definition);
      }
    }
    DoneIsExact(components, Mentions(paths), collected);
  }

  lemma NoChain(components: map<string, Json>, roots: set<Ref>, chain: seq<Ref>)
    requires components == map[] || roots == {}
    ensures !Chain(components, roots, chain)
  {
    if chain != [] {
      assert !Resolves(components, chain[0]) || chain[0] !in roots;
    }
  }

  lemma NothingToReach(roots: set<Ref>)
    ensures Exact(map[], roots, map[])
  {
    hide References;
    forall chain
      ensures !Chain(map[], roots, chain)
    {
      NoChain(map[], roots, chain);
    }
  }

  function ComponentsOf(document: map<string, Json>): map<string, Json> {
    if "components" in document && document["components"].Obj? then document["components"].fields else map[]
  }

  lemma RootsProgress(components: map<string, Json>, roots: set<Ref>)
    ensures Progress(components, roots, roots, map[])
  {
    hide References;
    forall r | r in roots && Resolves(components, r)
      ensures Reachable(components, roots, r)
    {
      RootsAreReachable(components, roots, r);
    }
  }

  lemma SameSections(components: map<string, Json>, roots: set<Ref>, a: Collection, b: Collection)
    requires Exact(components, roots, a) && Exact(components, roots, b)
    ensures a.Keys <= b.Keys
    ensures forall s | s in a && s in b :: a[s].Keys <= b[s].Keys && forall n | n in a[s] :: a[s][n] == b[s][n]
  {
    hide Strip, Reachable;
    forall s, n | s in a && n in a[s]
      ensures s in b && n in b[s] && a[s][n] == b[s][n]
    {
      assert Has(a, (s, n)) && Has(b, (s, n));
    }
    forall s | s in a
      ensures s in b
    {
      assert a[s] != map[];
      var n :| n in a[s];
    }
  }

  /** The order in which the worklist pops never shows in the result. */
  lemma ExactIsUnique(components: map<string, Json>, roots: set<Ref>, a: Collection, b: Collection)
    requires Exact(components, roots, a) && Exact(components, roots, b)
    ensures a == b
  {
    hide Exact;
    SameSections(components, roots, a, b);
    SameSections(components, roots, b, a);
    assert forall s | s in a :: a[s] == b[s];
  }

  // ---- The normalised document ----

  predicate Selected(path: string) { "/v1" <= path }

  function SelectedPaths(paths: map<string, Json>): map<string, Json> {
    map p | p in paths && Selected(p) :: Strip(paths[p], false)
  }

  /** The top-level keys that are kept as they are, but for cosmetics. */
  function Rest(document: map<string, Json>): map<string, Json> {
    map k | k in document && k !in {"paths", "components", "tags"} :: Strip(document[k], false)
  }

  function PathsOf(document: map<string, Json>): map<string, Json> {
    if "paths" in document && document["paths"].Obj? then document["paths"].fields else map[]
  }

  function AsJson(collected: Collection): Json {
    Obj(map s | s in collected :: Obj(collected[s]))
  }

  /** The document's paths are a mapping, which is how they are read. */
  method Normalize(document: map<string, Json>) returns (normalized: map<string, Json>)
    requires "paths" in document ==> document["paths"].Obj?
    ensures exists collected ::
      && Exact(ComponentsOf(document), Mentions(Obj(SelectedPaths(PathsOf(document)))), collected)
      && normalized == Output(document, collected)
  {
    hide Strip, References, Mentions, Exact;
    var selected := SelectedPaths(PathsOf(document));
    normalized := Rest(document)["paths" := Obj(selected)];
    var components := CollectReferences(document, Obj(selected));
    if components != map[] {
      normalized := normalized["components" := AsJson(components)];
    }
    assert normalized == Output(document, components);
  }

  function Output(document: map<string, Json>, collected: Collection): map<string, Json> {
    var paths := Rest(document)["paths" := Obj(SelectedPaths(PathsOf(document)))];
    if collected == map[] then paths else paths["components" := AsJson(collected)]
  }

  /** The references in what is collected and in the selected paths. */
  function CollectedReferences(document: map<string, Json>, collected: Collection): set<Ref> {
    References(Obj(SelectedPaths(PathsOf(document))))
    + set s, n, r | s in collected && n in collected[s] && r in References(collected[s][n]) :: r
  }

  /** Every resolvable reference in the collected definitions and the selected paths resolves in the output. */
  lemma CollectedReferencesResolve(document: map<string, Json>, collected: Collection, r: Ref)
    requires Exact(ComponentsOf(document), Mentions(Obj(SelectedPaths(PathsOf(document)))), collected)
    requires r in CollectedReferences(document, collected) && Resolves(ComponentsOf(document), r)
    ensures Has(collected, r)
  {
    hide Strip, References, Reachable;
    var components, paths := ComponentsOf(document), Obj(SelectedPaths(PathsOf(document)));
    if r in References(paths) {
      RootsAreReachable(components, Mentions(paths), r);
    } else {
      var s, n :| s in collected && n in collected[s] && r in References(collected[s][n]);
      var owner := (s, n);
      assert Has(collected, owner);
      StripKeepsFewerReferences(Definition(components, owner), false);
      ReferencedAreReachable(components, Mentions(paths), owner, r);
    }
  }

  /**
    The output resolves all its resolvable references exactly when the kept top-level keys
    (servers, webhooks and the like) reference nothing that the selected paths do not reach.
   */
  lemma OutputIsClosedExactly(document: map<string, Json>, collected: Collection)
    requires Exact(ComponentsOf(document), Mentions(Obj(SelectedPaths(PathsOf(document)))), collected)
    ensures var components, roots := ComponentsOf(document), Mentions(Obj(SelectedPaths(PathsOf(document))));
      (forall r | r in CollectedReferences(document, collected) + References(Obj(Rest(document)))
                  && Resolves(components, r) :: Has(collected, r))
      <==> (forall r | r in References(Obj(Rest(document))) && Resolves(components, r) ::
                Reachable(components, roots, r))
  {
    hide Strip, References, Reachable, CollectedReferences, Mentions, Rest;
    forall r | r in CollectedReferences(document, collected) && Resolves(ComponentsOf(document), r)
      ensures Has(collected, r)
    {
      CollectedReferencesResolve(document, collected, r);
    }
  }

  /** What an object names itself, not through one of its values. */
  function OwnMentions(fields: map<string, Json>): set<Ref> {
    OwnRef(fields) + SchemesOf(OwnSecurity(fields))
  }

  ghost predicate MentionedBelow(fields: map<string, Json>, r: Ref) {
    exists k :: k in fields && r in Mentions(fields[k])
  }

  lemma ObjMentions(fields: map<string, Json>, r: Ref)
    ensures r in Mentions(Obj(fields)) <==> r in OwnMentions(fields) || MentionedBelow(fields, r)
  {
    if r in Mentions(Obj(fields)) && r !in OwnMentions(fields) {
      if r in References(Obj(fields)) {
        var k :| k in fields && r in References(fields[k]);
        assert r in Mentions(fields[k]);
      } else {
        var k :| k in fields && r.1 in SecurityNames(fields[k]);
        assert r in Mentions(fields[k]);
      }
    }
    if MentionedBelow(fields, r) {
      var k :| k in fields && r in Mentions(fields[k]);
      assert r in References(fields[k]) || r.1 in SecurityNames(fields[k]);
    }
  }

  /** The mentions the worklist never follows: those of the collected sections and the security names of definitions. */
  function Unfollowed(collected: Collection): set<Ref> {
    (set s, r | s in collected && r in OwnMentions(collected[s]) :: r)
    + (set s, n, r | s in collected && n in collected[s] && r in SchemesOf(SecurityNames(collected[s][n])) :: r)
  }

  lemma SectionMentions(collected: Collection, r: Ref)
    ensures r in Mentions(AsJson(collected))
      <==> exists s :: s in collected && (r in OwnMentions(collected[s]) || MentionedBelow(collected[s], r))
  {
    hide Mentions, OwnMentions;
    var sections := AsJson(collected).fields;
    ObjMentions(sections, r);
    NoOwnMentions(collected);
    forall s | s in collected
      ensures r in Mentions(sections[s]) <==> r in OwnMentions(collected[s]) || MentionedBelow(collected[s], r)
    {
      ObjMentions(collected[s], r);
    }
    if MentionedBelow(sections, r) {
      var s :| s in sections && r in Mentions(sections[s]);
      assert s in collected;
    }
    if s :| s in collected && (r in OwnMentions(collected[s]) || MentionedBelow(collected[s], r)) {
      assert s in sections;
    }
  }

  lemma NoOwnMentions(collected: Collection)
    ensures OwnMentions(AsJson(collected).fields) == {}
  {
  }

  lemma OutputMentions(document: map<string, Json>, collected: Collection, r: Ref)
    ensures r in Mentions(Obj(Output(document, collected)))
      <==> (|| r in Mentions(Obj(Rest(document))) || r in Mentions(Obj(SelectedPaths(PathsOf(document))))
            || r in Mentions(AsJson(collected)))
  {
    hide Mentions, OwnMentions, Rest, SelectedPaths, PathsOf, AsJson;
    var rest, output := Rest(document), Output(document, collected);
    ObjMentions(rest, r);
    ObjMentions(output, r);
    SameOwnMentions(document, collected);
    if collected == map[] { SectionMentions(collected, r); }
    RestHasNoPaths(document);
    if MentionedBelow(rest, r) {
      var k :| k in rest && r in Mentions(rest[k]);
      assert k in output && output[k] == rest[k];
    }
    if MentionedBelow(output, r) {
      var k :| k in output && r in Mentions(output[k]);
      assert k == "paths" || k == "components" || (k in rest && output[k] == rest[k]);
    }
    assert "paths" in output && output["paths"] == Obj(SelectedPaths(PathsOf(document)));
    assert collected != map[] ==> "components" in output && output["components"] == AsJson(collected);
  }

  lemma RestHasNoPaths(document: map<string, Json>)
    ensures "paths" !in Rest(document) && "components" !in Rest(document)
  {
  }

  lemma SameOwnMentions(document: map<string, Json>, collected: Collection)
    ensures OwnMentions(Output(document, collected)) == OwnMentions(Rest(document))
  {
    hide Rest, SelectedPaths, PathsOf, AsJson;
    var rest, output := Rest(document), Output(document, collected);
    assert OwnRef(output) == OwnRef(rest);
    assert OwnSecurity(output) == OwnSecurity(rest);
  }

  lemma DefinitionsMention(document: map<string, Json>, collected: Collection, r: Ref)
    requires r in Mentions(AsJson(collected)) && r !in Unfollowed(collected)
    ensures r in CollectedReferences(document, collected)
  {
    hide References, SecurityNames, OwnMentions, SchemesOf, AsJson, SelectedPaths, PathsOf;
    SectionMentions(collected, r);
    var s :| s in collected && (r in OwnMentions(collected[s]) || MentionedBelow(collected[s], r));
    var n :| n in collected[s] && r in Mentions(collected[s][n]);
    assert r in References(collected[s][n]);
  }

  lemma UnfollowedAreMentioned(collected: Collection, r: Ref)
    requires r in Unfollowed(collected)
    ensures r in Mentions(AsJson(collected))
  {
    hide References, SecurityNames, OwnMentions, SchemesOf, AsJson;
    SectionMentions(collected, r);
    if s :| s in collected && r in OwnMentions(collected[s]) {
    } else {
      var s, n :| s in collected && n in collected[s] && r in SchemesOf(SecurityNames(collected[s][n]));
      assert r in Mentions(collected[s][n]) && MentionedBelow(collected[s], r);
    }
  }

  /** Every component the output names, by reference or as a security scheme, is in it if the document had it. */
  ghost predicate Closed(document: map<string, Json>, collected: Collection) {
    forall r | r in Mentions(Obj(Output(document, collected))) && Resolves(ComponentsOf(document), r) ::
      Has(collected, r)
  }

  /**
    The whole output is closed, security schemes included, exactly when the selected paths reach
    whatever the kept top-level keys name (`security` among them), whatever the collected
    definitions name as security schemes, and whatever a section names that holds a component
    called "$ref" or "security".
   */
  lemma OutputIsClosedForSecurityExactly(document: map<string, Json>, collected: Collection)
    requires Exact(ComponentsOf(document), Mentions(Obj(SelectedPaths(PathsOf(document)))), collected)
    ensures var components, roots := ComponentsOf(document), Mentions(Obj(SelectedPaths(PathsOf(document))));
      Closed(document, collected)
      <==> forall r | r in Mentions(Obj(Rest(document))) + Unfollowed(collected) && Resolves(components, r) ::
             Reachable(components, roots, r)
  {
    hide Strip, References, Reachable, CollectedReferences, Mentions, Rest, Unfollowed, Output, AsJson, SelectedPaths,
      PathsOf;
    var components, roots := ComponentsOf(document), Mentions(Obj(SelectedPaths(PathsOf(document))));
    forall r | Resolves(components, r)
      ensures r in Mentions(Obj(Output(document, collected))) ==>
        r in Mentions(Obj(Rest(document))) + Unfollowed(collected) || Has(collected, r)
      ensures r in Mentions(Obj(Rest(document))) + Unfollowed(collected) ==>
        r in Mentions(Obj(Output(document, collected)))
    {
      OutputMentions(document, collected, r);
      if r in Unfollowed(collected) {
        UnfollowedAreMentioned(collected, r);
      } else if r in Mentions(AsJson(collected)) {
        DefinitionsMention(document, collected, r);
        CollectedReferencesResolve(document, collected, r);
      } else if r in roots {
        RootsAreReachable(components, roots, r);
      }
    }
  }

  const SECURED: map<string, Json> := map[
    "security" := Arr([Obj(map["bearer" := Arr([])])]),
    "components" := Obj(map["securitySchemes" := Obj(map["bearer" := Scalar(0)])])]

  /** A scheme that only the document's own `security` names is kept there, and its definition is not. */
  lemma SecurityMayDangle(collected: Collection)
    requires Exact(ComponentsOf(SECURED), Mentions(Obj(SelectedPaths(PathsOf(SECURED)))), collected)
    ensures !Closed(SECURED, collected)
  {
    hide Strip, References, Mentions, Reachable, Rest, Output, SelectedPaths;
    NothingSelected(SECURED);
    SchemeIsMentioned();
    OutputMentions(SECURED, collected, ("securitySchemes", "bearer"));
  }

  lemma SchemeIsMentioned()
    ensures ("securitySchemes", "bearer") in Mentions(Obj(Rest(SECURED)))
  {
    hide References, Mentions;
    var kept := Rest(SECURED)["security"];
    assert kept.items[0].Obj? && "bearer" in kept.items[0].fields;
    assert "bearer" in OwnSecurity(Rest(SECURED));
    ObjMentions(Rest(SECURED), ("securitySchemes", "bearer"));
  }

  /** A document without paths reaches nothing. */
  lemma NothingSelected(document: map<string, Json>)
    requires PathsOf(document) == map[]
    ensures forall r :: !Reachable(ComponentsOf(document), Mentions(Obj(SelectedPaths(PathsOf(document)))), r)
  {
    var roots := Mentions(Obj(SelectedPaths(PathsOf(document))));
    assert SelectedPaths(PathsOf(document)) == map[];
    assert roots == {};
    forall chain
      ensures !Chain(ComponentsOf(document), roots, chain)
    {
      NoChain(ComponentsOf(document), roots, chain);
    }
  }

  const WEBHOOKS: map<string, Json> := map[
    "webhooks" := Obj(map["$ref" := Str("#/components/schemas/Order")]),
    "components" := Obj(map["schemas" := Obj(map["Order" := Scalar(0)])])]

  /** A reference in a kept top-level key alone is kept, and its definition is not. */
  lemma WebhooksMayDangle(collected: Collection)
    requires Exact(ComponentsOf(WEBHOOKS), Mentions(Obj(SelectedPaths(PathsOf(WEBHOOKS)))), collected)
    ensures ("schemas", "Order") in References(Obj(Rest(WEBHOOKS)))
    ensures Resolves(ComponentsOf(WEBHOOKS), ("schemas", "Order"))
    ensures !Has(collected, ("schemas", "Order"))
  {
    hide Strip, References, Mentions, Reachable, Rest, SelectedPaths;
    NothingSelected(WEBHOOKS);
    WebhookReference();
  }

  lemma WebhookText()
    ensures ParseRef("#/components/schemas/Order") == Some(("schemas", "Order"))
  {
    hide ParseRef, Slash;
    ReferencesRoundTrip("schemas", "Order");
    assert PREFIX + "schemas" + "/" + "Order" == "#/components/schemas/Order";
  }

  lemma WebhookReference()
    ensures ("schemas", "Order") in References(Obj(Rest(WEBHOOKS)))
  {
    hide ParseRef;
    WebhookText();
    var hook := Rest(WEBHOOKS)["webhooks"];
    assert hook.fields["$ref"] == Str("#/components/schemas/Order");
    assert ("schemas", "Order") in OwnRef(hook.fields);
    assert ("schemas", "Order") in References(hook);
  }

  lemma {:induction false} SlashAt(section: string, rest: string)
    requires '/' !in section
    ensures Slash(section + "/" + rest) == |section|
  {
    if section != [] {
      SlashAt(section[1..], rest);
      assert (section + "/" + rest)[1..] == section[1..] + "/" + rest;
    }
  }

  /** A well-formed component reference is read back as its section and name. */
  lemma ReferencesRoundTrip(section: string, name: string)
    requires section != "" && '/' !in section && name != ""
    ensures ParseRef(PREFIX + section + "/" + name) == Some((section, name))
  {
    var text := PREFIX + section + "/" + name;
    var remainder := section + "/" + name;
    assert text[..|PREFIX|] == PREFIX && text[|PREFIX|..] == remainder;
    SlashAt(section, name);
    assert remainder[..|section|] == section && remainder[|section| + 1..] == name;
  }
}
