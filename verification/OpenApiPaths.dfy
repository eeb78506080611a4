/**
  The parts of the normalisation told by the places of a document: where references and
  security names stand, what the removal of cosmetic keys leaves, and what the output holds.
 */
module OpenApiPaths {
  import opened Options
  import opened OpenApiComponents

  datatype Key = Field(name: string) | Index(i: nat)

  /** What stands at a place, by the keys and positions that lead to it. */
  function Lookup(v: Json, path: seq<Key>): Option<Json> {
    if path == [] then Some(v)
    else
      match path[0]
      case Field(k) => if v.Obj? && k in v.fields then Lookup(v.fields[k], path[1..]) else None
      case Index(i) => if v.Arr? && i < |v.items| then Lookup(v.items[i], path[1..]) else None
  }

  // ---- References and security names ----

  /** The text of a reference to this component. */
  predicate Names(text: string, r: Ref) {
    text == "#/components/" + r.0 + "/" + r.1 && r.0 != "" && '/' !in r.0 && r.1 != ""
  }

  lemma ReferencesAreNames(text: string, r: Ref)
    ensures ParseRef(text) == Some(r) <==> Names(text, r)
  {
    hide Slash;
    if Names(text, r) {
      ReferencesRoundTrip(r.0, r.1);
      assert text == PREFIX + r.0 + "/" + r.1;
    }
    if ParseRef(text) == Some(r) {
      var remainder := text[|PREFIX|..];
      var cut := Slash(remainder);
      assert text == PREFIX + remainder;
      assert remainder == remainder[..cut] + "/" + remainder[cut + 1..];
    }
  }

  /** The object at this place refers to the component. */
  predicate RefersAt(v: Json, path: seq<Key>, r: Ref) {
    var o := Lookup(v, path);
    && o.Some? && o.value.Obj? && "$ref" in o.value.fields
    && o.value.fields["$ref"].Str? && Names(o.value.fields["$ref"].text, r)
  }

  /** The object at this place requires the security scheme. */
  predicate SecuresAt(v: Json, path: seq<Key>, name: string) {
    var o := Lookup(v, path);
    && o.Some? && o.value.Obj? && "security" in o.value.fields && o.value.fields["security"].Arr?
    && exists i :: && 0 <= i < |o.value.fields["security"].items|
                   && o.value.fields["security"].items[i].Obj? && name in o.value.fields["security"].items[i].fields
  }

  lemma DeeperRefers(v: Json, key: Key, path: seq<Key>, r: Ref)
    requires Lookup(v, [key]).Some?
    ensures RefersAt(v, [key] + path, r) <==> RefersAt(Lookup(v, [key]).value, path, r)
  {
    assert ([key] + path)[1..] == path && [key][1..] == [];
  }

  lemma DeeperSecures(v: Json, key: Key, path: seq<Key>, name: string)
    requires Lookup(v, [key]).Some?
    ensures SecuresAt(v, [key] + path, name) <==> SecuresAt(Lookup(v, [key]).value, path, name)
  {
    assert ([key] + path)[1..] == path && [key][1..] == [];
  }

  lemma {:induction false} CollectedStandSomewhere(v: Json, r: Ref) returns (path: seq<Key>)
    requires r in References(v)
    ensures RefersAt(v, path, r)
  {
    hide RefersAt, ParseRef, Names;
    match v
    case Obj(fields) =>
      if r in OwnRef(fields) {
        OwnRefersHere(fields, r);
        path := [];
      } else {
        var k :| k in fields && r in References(fields[k]);
        var rest := CollectedStandSomewhere(fields[k], r);
        DeeperRefers(v, Field(k), rest, r);
        path := [Field(k)] + rest;
      }
    case Arr(items) =>
      var i :| 0 <= i < |items| && r in References(items[i]);
      var rest := CollectedStandSomewhere(items[i], r);
      DeeperRefers(v, Index(i), rest, r);
      path := [Index(i)] + rest;
  }

  lemma OwnRefersHere(fields: map<string, Json>, r: Ref)
    ensures r in OwnRef(fields) <==> RefersAt(Obj(fields), [], r)
  {
    hide ParseRef, Names;
    if "$ref" in fields && fields["$ref"].Str? { ReferencesAreNames(fields["$ref"].text, r); }
  }

  lemma {:induction false} StandingAreCollected(v: Json, path: seq<Key>, r: Ref)
    requires RefersAt(v, path, r)
    ensures r in References(v)
    decreases |path|
  {
    hide Names;
    if path == [] {
      OwnRefersHere(v.fields, r);
    } else {
      assert path == [path[0]] + path[1..];
      assert [path[0]][1..] == [];
      DeeperRefers(v, path[0], path[1..], r);
      StandingAreCollected(Lookup(v, [path[0]]).value, path[1..], r);
    }
  }

  /** The references collected from a value are those that stand anywhere in it. */
  lemma ReferencesAreThoseThatStand(v: Json, r: Ref)
    ensures r in References(v) <==> exists path :: RefersAt(v, path, r)
  {
    hide References, RefersAt;
    if r in References(v) {
      var path := CollectedStandSomewhere(v, r);
    }
    if path :| RefersAt(v, path, r) {
      StandingAreCollected(v, path, r);
    }
  }

  lemma {:induction false} NamesStandSomewhere(v: Json, name: string) returns (path: seq<Key>)
    requires name in SecurityNames(v)
    ensures SecuresAt(v, path, name)
  {
    hide SecuresAt;
    match v
    case Obj(fields) =>
      if name in OwnSecurity(fields) {
        OwnSecuresHere(fields, name);
        path := [];
      } else {
        var k :| k in fields && name in SecurityNames(fields[k]);
        var rest := NamesStandSomewhere(fields[k], name);
        DeeperSecures(v, Field(k), rest, name);
        path := [Field(k)] + rest;
      }
    case Arr(items) =>
      var i :| 0 <= i < |items| && name in SecurityNames(items[i]);
      var rest := NamesStandSomewhere(items[i], name);
      DeeperSecures(v, Index(i), rest, name);
      path := [Index(i)] + rest;
  }

  lemma OwnSecuresHere(fields: map<string, Json>, name: string)
    ensures name in OwnSecurity(fields) <==> SecuresAt(Obj(fields), [], name)
  {
  }

  lemma FirstStep(v: Json, path: seq<Key>, name: string)
    requires SecuresAt(v, path, name)
    ensures if path == [] then v.Obj? else Lookup(v, [path[0]]).Some?
  {
    if path != [] { assert [path[0]][1..] == []; }
  }

  lemma NamesComeUp(v: Json, key: Key, name: string)
    requires Lookup(v, [key]).Some? && name in SecurityNames(Lookup(v, [key]).value)
    ensures name in SecurityNames(v)
  {
    assert [key][1..] == [];
  }

  lemma {:induction false} StandingNamesAreCollected(v: Json, path: seq<Key>, name: string)
    requires SecuresAt(v, path, name)
    ensures name in SecurityNames(v)
    decreases |path|
  {
    hide SecuresAt, SecurityNames, Lookup;
    FirstStep(v, path, name);
    if path == [] {
      OwnSecuresHere(v.fields, name);
      OwnNamesCount(v.fields, name);
    } else {
      assert path == [path[0]] + path[1..];
      DeeperSecures(v, path[0], path[1..], name);
      StandingNamesAreCollected(Lookup(v, [path[0]]).value, path[1..], name);
      NamesComeUp(v, path[0], name);
    }
  }

  lemma OwnNamesCount(fields: map<string, Json>, name: string)
    requires name in OwnSecurity(fields)
    ensures name in SecurityNames(Obj(fields))
  {
  }

  /** And so are the security names. */
  lemma SecurityNamesAreThoseThatStand(v: Json, name: string)
    ensures name in SecurityNames(v) <==> exists path :: SecuresAt(v, path, name)
  {
    hide SecurityNames, SecuresAt;
    if name in SecurityNames(v) {
      var path := NamesStandSomewhere(v, name);
    }
    if path :| SecuresAt(v, path, name) {
      StandingNamesAreCollected(v, path, name);
    }
  }

  // ---- What stripping leaves ----

  /** A key that is dropped with what stands under it. */
  predicate Cosmetic(key: Key) {
    key.Field? && key.name in {"description", "summary", "examples"}
  }

  /** No step of the way is a cosmetic key, but where it names a property. */
  predicate Spared(path: seq<Key>, properties: bool) {
    forall i | 0 <= i < |path| && Cosmetic(path[i]) ::
      if i == 0 then properties else path[i - 1] == Field("properties")
  }

  /** The same leaf, or a container of the same kind; an array keeps its length. */
  predicate Alike(a: Json, b: Json) {
    match a
    case Obj(_) => b.Obj?
    case Arr(items) => b.Arr? && |b.items| == |items|
    case _ => a == b
  }

  lemma SparedAt(path: seq<Key>, properties: bool, i: nat)
    requires Spared(path, properties) && i < |path| && Cosmetic(path[i])
    ensures if i == 0 then properties else path[i - 1] == Field("properties")
  {
  }

  lemma SparedStep(path: seq<Key>, properties: bool, named: bool)
    requires path != [] && named == (path[0] == Field("properties"))
    ensures Spared(path, properties) <==> (Cosmetic(path[0]) ==> properties) && Spared(path[1..], named)
  {
    hide Cosmetic;
    var rest := path[1..];
    if Spared(path, properties) {
      forall i | 0 <= i < |rest| && Cosmetic(rest[i])
        ensures if i == 0 then named else rest[i - 1] == Field("properties")
      {
        assert rest[i] == path[i + 1];
        SparedAt(path, properties, i + 1);
      }
      if Cosmetic(path[0]) { SparedAt(path, properties, 0); }
    }
    if (Cosmetic(path[0]) ==> properties) && Spared(rest, named) {
      forall i | 0 <= i < |path| && Cosmetic(path[i])
        ensures if i == 0 then properties else path[i - 1] == Field("properties")
      {
        if i > 0 {
          assert rest[i - 1] == path[i];
          SparedAt(rest, named, i - 1);
        }
      }
    }
  }

  /**
    Stripping keeps exactly the places no cosmetic key leads to, a property's name not counted,
    and keeps what stands there: every leaf, and every array with all its items.
   */
  lemma {:induction false} StripKeepsExactly(v: Json, properties: bool, path: seq<Key>)
    ensures Lookup(Strip(v, properties), path).Some? <==> Lookup(v, path).Some? && Spared(path, properties)
    ensures Lookup(Strip(v, properties), path).Some? ==>
              Alike(Lookup(v, path).value, Lookup(Strip(v, properties), path).value)
    decreases |path|
  {
    hide Spared;
    if path == [] {
      NowhereIsSpared(properties);
    } else {
      SparedStep(path, properties, path[0] == Field("properties"));
      match path[0]
      case Field(k) =>
        if v.Obj? && k in v.fields { StripKeepsExactly(v.fields[k], k == "properties", path[1..]); }
      case Index(i) =>
        if v.Arr? && i < |v.items| { StripKeepsExactly(v.items[i], false, path[1..]); }
    }
  }

  lemma NowhereIsSpared(properties: bool)
    ensures Spared([], properties)
  {
  }

  // ---- What the output holds ----

  /**
    The output holds the document's top-level keys but paths, components and tags, the paths
    under /v1, and the collected components if there are any; each value stripped.
   */
  lemma OutputHoldsExactly(document: map<string, Json>, collected: Collection, key: string)
    ensures key in Output(document, collected)
        <==> (|| key == "paths" || (key == "components" && collected != map[])
              || (key in document && key != "components" && key != "tags"))
    ensures key in document && key != "paths" && key != "components" && key != "tags" ==>
              Output(document, collected)[key] == Strip(document[key], false)
    ensures var paths := Output(document, collected)["paths"];
      && paths.Obj?
      && (forall p :: p in paths.fields <==>
            && "paths" in document && document["paths"].Obj? && p in document["paths"].fields
            && |p| >= 3 && p[0] == '/' && p[1] == 'v' && p[2] == '1')
      && (forall p | p in paths.fields :: paths.fields[p] == Strip(document["paths"].fields[p], false))
    ensures collected != map[] ==>
              var components := Output(document, collected)["components"];
              && components.Obj? && components.fields.Keys == collected.Keys
              && forall s | s in collected :: components.fields[s] == Obj(collected[s])
  {
    hide Strip;
    forall p: string
      ensures Selected(p) <==> |p| >= 3 && p[0] == '/' && p[1] == 'v' && p[2] == '1'
    {
    }
  }
}
