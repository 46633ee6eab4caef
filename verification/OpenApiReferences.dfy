/** What references and keywords mean: a reference stands for the schema it names, and each keyword for its set of values. */
module OpenApiReferences {
  import opened Types
  import opened OpenApiCompat
  import opened OpenApiSoundness
  import opened OpenApiGaps

  // ---------------------------- references ----------------------------

  /** The specification holds schema `s` under components/schemas/name. */
  ghost predicate Holds(spec: Json, name: string, s: Json) {
    && spec.JObject?
    && var components := Own(spec.entries, "components");
       && components.Some? && components.value.JObject?
       && var schemas := Own(components.value.entries, "schemas");
          && schemas.Some? && schemas.value.JObject?
          && Own(schemas.value.entries, name) == Some(s)
  }

  function ReferenceTo(name: string): Json {
    Keyword("$ref", JString("#/components/schemas/" + name))
  }

  lemma {:induction false} SplitHead(a: string, b: string)
    requires '/' !in a
    ensures Split(a + "/" + b) == [a] + Split(b)
  {
    var s := a + "/" + b;
    if a == "" {
      assert s[0] == '/' && s[1..] == b;
    } else {
      assert s[0] == a[0] && s[1..] == a[1..] + "/" + b;
      SplitHead(a[1..], b);
      assert [a[0]] + a[1..] == a;
    }
  }

  lemma {:induction false} SplitWhole(a: string)
    requires '/' !in a
    ensures Split(a) == [a]
  {
    if a != "" {
      SplitWhole(a[1..]);
      assert [a[0]] + a[1..] == a;
    }
  }

  lemma PathOf(name: string)
    requires '/' !in name
    ensures Split("components/schemas/" + name) == ["components", "schemas", name]
  {
    SplitHead("components", "schemas/" + name);
    assert "components/schemas/" + name == "components" + "/" + ("schemas/" + name);
    SplitHead("schemas", name);
    assert "schemas/" + name == "schemas" + "/" + name;
    SplitWhole(name);
  }

  lemma WalkStep(node: Json, parts: seq<string>, last: string)
    ensures var before := Walk(node, parts);
      Walk(node, parts + [last])
        == if before.JObject? && Member(before.entries, last).Some? then Member(before.entries, last).value else JNull
  {
    assert (parts + [last])[..|parts|] == parts;
  }

  lemma WalksThere(spec: Json, name: string, s: Json)
    requires Holds(spec, name, s)
    ensures Walk(spec, ["components", "schemas", name]) == s
  {
    hide Own, Walk;
    WalkStart(spec);
    WalkStep(spec, [], "components");
    WalkStep(spec, ["components"], "schemas");
    WalkStep(spec, ["components", "schemas"], name);
    assert [] + ["components"] == ["components"];
    assert ["components"] + ["schemas"] == ["components", "schemas"];
    assert ["components", "schemas"] + [name] == ["components", "schemas", name];
  }

  lemma WalkStart(node: Json)
    ensures Walk(node, []) == node
  {
  }

  lemma ReferenceReads(name: string)
    ensures ReferenceTo(name).JObject?
    ensures Own(ReferenceTo(name).entries, "$ref") == Some(JString("#/components/schemas/" + name))
    ensures IsLocalRef(Own(ReferenceTo(name).entries, "$ref"))
    ensures ("#/components/schemas/" + name)[2..] == "components/schemas/" + name
  {
    var r := "#/components/schemas/" + name;
    assert r[..2] == "#/";
  }

  /** One reference is one step: it resolves as what it names does, one level further on. */
  lemma ReferenceSteps(spec: Json, name: string, s: Json, depth: nat)
    requires Holds(spec, name, s) && '/' !in name && depth <= 20
    ensures Resolve(spec, ReferenceTo(name), depth) == Resolve(spec, s, depth + 1)
  {
    hide Own, Walk, Split, ReferenceTo, Holds;
    ReferenceReads(name);
    PathOf(name);
    WalksThere(spec, name, s);
  }

  lemma PlainResolves(spec: Json, s: Json, depth: nat)
    requires s.JObject? && Own(s.entries, "$ref").None? && depth <= 20
    ensures Resolve(spec, s, depth) == s.entries
  {
  }

  lemma TooDeep(spec: Json, s: Json, depth: nat)
    requires depth > 20
    ensures Resolve(spec, s, depth) == []
  {
  }

  /** The specification holds a chain: each name refers to the next, and the last one to schema `s`. */
  ghost predicate Chain(spec: Json, names: seq<string>, s: Json) {
    && names != [] && (forall n :: n in names ==> '/' !in n)
    && (forall i :: 0 <= i < |names| - 1 ==> Holds(spec, names[i], ReferenceTo(names[i + 1])))
    && Holds(spec, names[|names| - 1], s)
  }

  lemma {:induction false} ChainFrom(spec: Json, names: seq<string>, s: Json, depth: nat)
    requires Chain(spec, names, s) && s.JObject? && Own(s.entries, "$ref").None? && depth <= 20
    ensures Resolve(spec, ReferenceTo(names[0]), depth) == if depth + |names| <= 20 then s.entries else []
    decreases |names|
  {
    hide Own, Resolve, ReferenceTo, Holds;
    if |names| == 1 {
      ReferenceSteps(spec, names[0], s, depth);
      if depth == 20 {
        TooDeep(spec, s, depth + 1);
      } else {
        PlainResolves(spec, s, depth + 1);
      }
    } else {
      ReferenceSteps(spec, names[0], ReferenceTo(names[1]), depth);
      var rest := names[1..];
      assert Chain(spec, rest, s) by {
        assert forall i :: 0 <= i < |rest| ==> rest[i] == names[i + 1];
        assert rest[|rest| - 1] == names[|names| - 1];
      }
      if depth == 20 {
        TooDeep(spec, ReferenceTo(names[1]), depth + 1);
      } else {
        ChainFrom(spec, rest, s, depth + 1);
      }
    }
  }

  /** A chain of references resolves to the schema at its end exactly if it has at most twenty links; a longer
      one resolves to no keywords at all. */
  lemma ChainResolvesIff(spec: Json, names: seq<string>, s: Json)
    requires Chain(spec, names, s) && s.JObject? && Own(s.entries, "$ref").None?
    ensures Resolve(spec, ReferenceTo(names[0]), 0) == if |names| <= 20 then s.entries else []
  {
    ChainFrom(spec, names, s, 0);
  }

  lemma ReachedAlike(spec: Json, names: seq<string>, s: Json)
    requires Chain(spec, names, s) && s.JObject? && Own(s.entries, "$ref").None? && |names| <= 20
    ensures Resolve(spec, ReferenceTo(names[0]), 0) == Resolve(spec, s, 0) == s.entries
  {
    ChainResolvesIff(spec, names, s);
    PlainResolves(spec, s, 0);
  }

  lemma {:induction false} SplitLast(a: string, b: string)
    requires '/' !in b
    ensures var parts := Split(a + "/" + b); parts[|parts| - 1] == b
  {
    var s := a + "/" + b;
    if a == "" {
      assert s[0] == '/' && s[1..] == b;
      SplitWhole(b);
    } else {
      assert s[0] == a[0] && s[1..] == a[1..] + "/" + b;
      SplitLast(a[1..], b);
      SplitTail(a[1..], b);
    }
  }

  lemma {:induction false} SplitTail(a: string, b: string)
    ensures |Split(a + "/" + b)| >= 2
  {
    var s := a + "/" + b;
    if a == "" {
      assert s[0] == '/';
    } else {
      assert s[1..] == a[1..] + "/" + b;
      SplitTail(a[1..], b);
    }
  }

  lemma ErrorCodeReference(name: string)
    requires '/' !in name
    ensures IsErrorCode(ReferenceTo(name)) <==> name == "ErrorCode"
  {
    hide ReferenceTo, Split;
    ReferenceReads(name);
    var r := "#/components/schemas/" + name;
    assert r == "#/components/schemas" + "/" + name;
    SplitLast("#/components/schemas", name);
    var p := |r| - 10;
    if p >= 0 {
      assert "/ErrorCode" == "/" + "ErrorCode";
      if r[p..] == "/ErrorCode" {
        assert r == r[..p] + "/" + "ErrorCode";
        SplitLast(r[..p], "ErrorCode");
      }
    }
    if name == "ErrorCode" {
      assert r[p..] == "/ErrorCode";
    }
  }

  lemma PlainIsNoErrorCode(s: Json)
    requires s.JObject? && Own(s.entries, "$ref").None?
    ensures !IsErrorCode(s)
  {
  }

  /** Comparing two references in a request reports exactly what comparing the schemas they reach does. */
  lemma RequestThroughReferences(bSpec: Json, bNames: seq<string>, s: Json, hSpec: Json, hNames: seq<string>, t: Json, at: string, depth: nat)
    requires Chain(bSpec, bNames, s) && s.JObject? && Own(s.entries, "$ref").None? && |bNames| <= 20
    requires Chain(hSpec, hNames, t) && t.JObject? && Own(t.entries, "$ref").None? && |hNames| <= 20
    ensures Request(bSpec, ReferenceTo(bNames[0]), hSpec, ReferenceTo(hNames[0]), at, depth) == Request(bSpec, s, hSpec, t, at, depth)
  {
    hide *;
    FirstHasNoSlash(bSpec, bNames, s);
    FirstHasNoSlash(hSpec, hNames, t);
    ReachedAlike(bSpec, bNames, s);
    ReachedAlike(hSpec, hNames, t);
    RequestUnfolds(bSpec, ReferenceTo(bNames[0]), hSpec, ReferenceTo(hNames[0]), at, depth);
    RequestUnfolds(bSpec, s, hSpec, t, at, depth);
  }

  /** The same for responses, unless the base refers to the error codes; then what is missing is one finding
      of added enum values at most. */
  lemma ResponseThroughReferences(bSpec: Json, bNames: seq<string>, s: Json, hSpec: Json, hNames: seq<string>, t: Json, at: string, depth: nat)
    requires Chain(bSpec, bNames, s) && s.JObject? && Own(s.entries, "$ref").None? && |bNames| <= 20
    requires Chain(hSpec, hNames, t) && t.JObject? && Own(t.entries, "$ref").None? && |hNames| <= 20
    ensures var whole, seen := Response(bSpec, s, hSpec, t, at, depth),
                               Response(bSpec, ReferenceTo(bNames[0]), hSpec, ReferenceTo(hNames[0]), at, depth);
      && (bNames[0] != "ErrorCode" ==> seen == whole)
      && (seen == whole || exists pre, added, post :: whole == pre + [ResponseEnumGained(at, added)] + post && seen == pre + post)
  {
    hide *;
    FirstHasNoSlash(bSpec, bNames, s);
    FirstHasNoSlash(hSpec, hNames, t);
    ReachedAlike(bSpec, bNames, s);
    ReachedAlike(hSpec, hNames, t);
    var base, head := ReferenceTo(bNames[0]), ReferenceTo(hNames[0]);
    ResponseUnfolds(bSpec, base, hSpec, head, at, depth);
    ResponseUnfolds(bSpec, s, hSpec, t, at, depth);
    ErrorCodeReference(bNames[0]);
    PlainIsNoErrorCode(s);
    if depth <= 10 {
      var b, h := Resolve(bSpec, s, 0), Resolve(hSpec, t, 0);
      HeadsApart(base, s, b, h, at);
      if ResponseHead(base, b, h, at) != ResponseHead(s, b, h, at) {
        var pre, added :| ResponseHead(s, b, h, at) == pre + [ResponseEnumGained(at, added)] && ResponseHead(base, b, h, at) == pre;
        var post := ResponseProperties(bSpec, b, hSpec, h, Properties(b), at, depth);
        assert Response(bSpec, s, hSpec, t, at, depth) == pre + [ResponseEnumGained(at, added)] + post;
      }
    }
  }

  lemma FirstHasNoSlash(spec: Json, names: seq<string>, s: Json)
    requires Chain(spec, names, s)
    ensures names != [] && '/' !in names[0]
  {
    hide Holds;
  }

  lemma HeadsApart(base: Json, s: Json, b: Schema, h: Schema, at: string)
    requires !IsErrorCode(s)
    ensures !IsErrorCode(base) ==> ResponseHead(base, b, h, at) == ResponseHead(s, b, h, at)
    ensures ResponseHead(base, b, h, at) == ResponseHead(s, b, h, at)
         || exists pre, added :: ResponseHead(s, b, h, at) == pre + [ResponseEnumGained(at, added)] && ResponseHead(base, b, h, at) == pre
  {
    hide IsErrorCode, TypesClash, TypeNames, EnumValues, Without;
    var pre := OnlyIf(TypesClash(TypeNames(b), TypeNames(h)), TypeChanged(at, TypeNames(b), TypeNames(h)));
    var be, he := EnumValues(b), EnumValues(h);
    if IsErrorCode(base) && be.Some? && he.Some? && Without(he.value, be.value) != [] {
      var added := Without(he.value, be.value);
      assert ResponseHead(s, b, h, at) == pre + [ResponseEnumGained(at, added)];
      assert ResponseHead(base, b, h, at) == pre + [] == pre;
    }
  }

  /** A value is valid under a reference exactly if it is valid under the schema that it reaches. */
  lemma ValidThroughReferences(spec: Json, names: seq<string>, s: Json, v: Json)
    requires Chain(spec, names, s) && s.JObject? && Own(s.entries, "$ref").None? && |names| <= 20
    ensures Valid(spec, ReferenceTo(names[0]), v) <==> Valid(spec, s, v)
  {
    hide Resolve, TypeOk, EnumOk, RequiredNames, Properties, Own, ReferenceTo, Chain;
    ReachedAlike(spec, names, s);
  }

  // ---------------------------- keywords ----------------------------

  /** `type` with one name admits the values of that type, with a list the values of any of its types. */
  lemma TypeMeans(spec: Json, t: string, ts: seq<Json>, v: Json)
    ensures Valid(spec, Keyword("type", JString(t)), v) <==> HasType(v, t)
    ensures (forall x :: x in ts ==> x.JString?) && ts != [] ==>
      (Valid(spec, Keyword("type", JArray(ts)), v) <==> exists x :: x in ts && HasType(v, x.s))
  {
    hide Valid, HasType, Resolve, Keyword;
    KeywordReads(spec, "type", JString(t));
    KeywordReads(spec, "type", JArray(ts));
    ValidWithoutProperties(spec, Keyword("type", JString(t)), v);
    ValidWithoutProperties(spec, Keyword("type", JArray(ts)), v);
    TypeReads(JString(t));
    TypeReads(JArray(ts));
    assert TypeNames([Entry("type", JString(t))])[0] == t;
    if (forall x :: x in ts ==> x.JString?) && ts != [] {
      var names := TypeNames([Entry("type", JArray(ts))]);
      if x :| x in ts && HasType(v, x.s) {
        var i :| 0 <= i < |ts| && ts[i] == x;
        assert names[i] == x.s;
      }
      if n :| n in names && HasType(v, n) {
        var i :| 0 <= i < |names| && names[i] == n;
        assert ts[i] in ts;
      }
      assert names[0] in names;
    }
  }

  lemma TypeReads(value: Json)
    ensures TypeNames([Entry("type", value)]) == if value.JArray? then Texts(value.items) else [Text(value)]
  {
    assert Own([Entry("type", value)], "type") == Some(value);
  }

  /** `enum` admits the values that are the same instance as a listed one. */
  lemma EnumMeans(spec: Json, xs: seq<Json>, v: Json)
    ensures Valid(spec, Keyword("enum", JArray(xs)), v) <==> exists x :: x in xs && Same(x, v)
  {
    hide Valid, Resolve, Same, Keyword;
    KeywordReads(spec, "enum", JArray(xs));
    ValidWithoutProperties(spec, Keyword("enum", JArray(xs)), v);
    assert Own([Entry("enum", JArray(xs))], "enum") == Some(JArray(xs));
  }

  /** `required` admits the objects that have every listed name, and everything that is no object. */
  lemma RequiredMeans(spec: Json, ns: seq<Json>, v: Json)
    requires forall x :: x in ns ==> x.JString?
    ensures Valid(spec, Keyword("required", JArray(ns)), v)
       <==> (v.JObject? ==> forall x :: x in ns ==> Own(v.entries, x.s).Some?)
  {
    hide Valid, Resolve, Keyword;
    KeywordReads(spec, "required", JArray(ns));
    ValidWithoutProperties(spec, Keyword("required", JArray(ns)), v);
    var s := [Entry("required", JArray(ns))];
    assert Own(s, "required") == Some(JArray(ns));
    var texts := Texts(ns);
    forall n ensures n in RequiredNames(s) <==> exists x :: x in ns && x.s == n {
      if n in RequiredNames(s) {
        var i :| 0 <= i < |texts| && texts[i] == n;
        assert ns[i] in ns;
      }
      if x :| x in ns && x.s == n {
        var i :| 0 <= i < |ns| && ns[i] == x;
        assert texts[i] == n;
      }
    }
  }

  /** Each property of the value that is declared in `ps` is valid for its schema. */
  ghost predicate EachValid(spec: Json, ps: seq<Entry>, v: Json)
    requires v.JObject?
  {
    forall n: string :: Own(ps, n).Some? && Own(v.entries, n).Some? ==> Valid(spec, Own(ps, n).value, Own(v.entries, n).value)
  }

  lemma EachValidIs(spec: Json, schema: Json, v: Json)
    requires v.JObject?
    requires TypeNames(Resolve(spec, schema, 0)) == [] && EnumValues(Resolve(spec, schema, 0)).None? && RequiredNames(Resolve(spec, schema, 0)) == []
    ensures Valid(spec, schema, v) <==> EachValid(spec, Properties(Resolve(spec, schema, 0)), v)
  {
    hide Resolve, Properties, Own, RequiredNames, TypeNames, EnumValues;
    NodeAdmits(Resolve(spec, schema, 0), v);
  }

  /** `properties` asks of each declared property that the value has, that it is valid for its schema. */
  lemma PropertiesMean(spec: Json, ps: seq<Entry>, v: Json)
    ensures Valid(spec, Keyword("properties", JObject(ps)), v) <==> (v.JObject? ==> EachValid(spec, ps, v))
  {
    hide EachValid, Properties, RequiredNames, Resolve, TypeOk, EnumOk;
    PropertiesRead(spec, ps);
    if v.JObject? {
      EachValidIs(spec, Keyword("properties", JObject(ps)), v);
    } else {
      NodeAdmits(Resolve(spec, Keyword("properties", JObject(ps)), 0), v);
    }
  }

  lemma PropertiesRead(spec: Json, ps: seq<Entry>)
    ensures var s := Resolve(spec, Keyword("properties", JObject(ps)), 0);
      TypeNames(s) == [] && EnumValues(s).None? && RequiredNames(s) == [] && Properties(s) == ps
  {
    var s := [Entry("properties", JObject(ps))];
    assert Own(s, "properties") == Some(JObject(ps));
  }

  lemma NodeAdmits(s: Schema, v: Json)
    requires TypeNames(s) == [] && EnumValues(s).None?
    ensures TypeOk(s, v) && EnumOk(s, v)
  {
  }

  // ---------------------------- reading odd schemas ----------------------------

  /** A reference is followed exactly if it is a string that starts with `#/`. */
  lemma LocalReferenceIff(r: string)
    ensures IsLocalRef(Some(JString(r))) <==> exists path: string :: r == "#/" + path
  {
    if "#/" <= r {
      assert r == "#/" + r[2..];
    }
  }

  /** The exemption covers exactly the bases whose own reference ends in `/ErrorCode`. */
  lemma ErrorCodeIff(r: string)
    ensures IsErrorCode(Keyword("$ref", JString(r))) <==> exists path: string :: r == path + "/ErrorCode"
  {
    assert Own([Entry("$ref", JString(r))], "$ref") == Some(JString(r));
    if IsErrorCode(Keyword("$ref", JString(r))) {
      assert r == r[..|r| - 10] + "/ErrorCode";
    }
    if path :| r == path + "/ErrorCode" {
      assert r[|r| - 10..] == "/ErrorCode";
    }
  }

  /** What JavaScript prints for the elements of a type list. */
  lemma TextIsJavaScript(xs: seq<Json>, x: Json)
    ensures Text(JNull) == "null" && Text(JBool(true)) == "true" && Text(JBool(false)) == "false"
    ensures Text(JObject([])) == "[object Object]" && Text(JArray([])) == ""
    ensures Text(JArray(xs + [x]))
         == (if xs == [] then "" else Text(JArray(xs)) + ",") + (if x == JNull then "" else Text(x))
  {
    assert (xs + [x])[..|xs|] == xs;
  }

  // ---------------------------- keywords that are added ----------------------------

  /** A head that adds a lone `type`, `enum` or `required` to a response is never reported: it promises more. */
  lemma AddingToResponseIsSilent(spec: Json, name: string, value: Json, at: string, depth: nat)
    requires name in {"type", "enum", "required"}
    ensures Response(spec, JObject([]), spec, Keyword(name, value), at, depth) == []
    ensures LosesNothing(spec, JObject([]), Keyword(name, value))
  {
    hide Response, Resolve, TypeNames, EnumValues, RequiredNames, IsErrorCode, Keyword;
    SilentIffProvides(spec, JObject([]), spec, Keyword(name, value), at, depth);
    KeywordReads(spec, name, value);
    EmptyReads();
    forall v ensures Valid(spec, JObject([]), v) {
      EmptySchemaAdmitsAll(spec, v);
    }
  }

  /** A head that drops a lone `type`, `enum` or `required` from a request is never reported: it accepts more. */
  lemma DroppingFromRequestIsSilent(spec: Json, name: string, value: Json, at: string, depth: nat)
    requires name in {"type", "enum", "required"}
    ensures Request(spec, Keyword(name, value), spec, JObject([]), at, depth) == []
    ensures LosesNothing(spec, JObject([]), Keyword(name, value))
  {
    hide Request, Resolve, TypeNames, EnumValues, RequiredNames, Keyword;
    SilentIffAccepts(spec, Keyword(name, value), spec, JObject([]), at, depth);
    KeywordReads(spec, name, value);
    EmptyReads();
    forall v ensures Valid(spec, JObject([]), v) {
      EmptySchemaAdmitsAll(spec, v);
    }
  }

  /** A head that adds a lone keyword to a request: a `required` is reported exactly if it names something, a
      `type` or an `enum` never, although it loses requests unless it lists every type or is no list. */
  lemma AddedRequestKeyword(spec: Json, name: string, value: Json, at: string, depth: nat)
    requires name in {"type", "enum", "required"} && depth <= 10
    ensures var s := Resolve(spec, Keyword(name, value), 0);
      && (Request(spec, JObject([]), spec, Keyword(name, value), at, depth) == [] <==> RequiredNames(s) == [])
      && (LosesNothing(spec, Keyword(name, value), JObject([]))
          <==> (TypeNames(s) == [] || ListsEveryType(s)) && EnumValues(s).None? && RequiredNames(s) == [])
  {
    hide Request, Resolve, TypeNames, EnumValues, RequiredNames, Keyword, ListsEveryType, Properties, LosesNothing;
    var s := Resolve(spec, Keyword(name, value), 0);
    SilentIffAccepts(spec, JObject([]), spec, Keyword(name, value), at, depth);
    DroppedKeywordIsHarmlessIff(spec, name, value, at, depth);
    KeywordReads(spec, name, value);
    EmptyReads();
    assert RequiredNames(s) != [] ==> RequiredNames(s)[0] in RequiredNames(s);
  }

  // ---------------------------- what a finding says ----------------------------

  /** Every finding of a response comparison names its path and says what both sides had there. */
  lemma ResponseFindingsSay(bSpec: Json, base: Json, hSpec: Json, head: Json, at: string, depth: nat)
    requires depth <= 10
    ensures var b, h := Resolve(bSpec, base, 0), Resolve(hSpec, head, 0);
      var all := Response(bSpec, base, hSpec, head, at, depth);
      && (TypeNames(b) != [] && TypeNames(h) != [] && (exists t :: t in TypeNames(h) && t !in TypeNames(b)) ==>
            |all| > 0 && all[0] == TypeChanged(at, TypeNames(b), TypeNames(h)))
      && (!IsErrorCode(base) && EnumValues(b).Some? && EnumValues(h).Some?
          && (exists x :: x in EnumValues(h).value && x !in EnumValues(b).value) ==>
            exists added :: ResponseEnumGained(at, added) in all && forall x :: x in added <==> x in EnumValues(h).value && x !in EnumValues(b).value)
  {
    hide Resolve, TypeNames, EnumValues, IsErrorCode, ResponseProperties, Response, Without;
    var b, h := Resolve(bSpec, base, 0), Resolve(hSpec, head, 0);
    ResponseUnfolds(bSpec, base, hSpec, head, at, depth);
    if EnumValues(b).Some? && EnumValues(h).Some? {
      WithoutAre(EnumValues(h).value, EnumValues(b).value);
    }
  }

  lemma {:induction false} WithoutAre(xs: seq<Json>, ys: seq<Json>)
    ensures forall x :: x in Without(xs, ys) <==> x in xs && x !in ys
  {
    if xs != [] {
      assert xs == [xs[0]] + xs[1..];
      WithoutAre(xs[1..], ys);
    }
  }

  /** The same for a request comparison. */
  lemma RequestFindingsSay(bSpec: Json, base: Json, hSpec: Json, head: Json, at: string, depth: nat, n: string)
    requires depth <= 10
    ensures var b, h := Resolve(bSpec, base, 0), Resolve(hSpec, head, 0);
      var all := Request(bSpec, base, hSpec, head, at, depth);
      && (TypeNames(b) != [] && TypeNames(h) != [] && (exists t :: t in TypeNames(b) && t !in TypeNames(h)) ==>
            |all| > 0 && all[0] == RequestTypeNarrowed(at, TypeNames(b), TypeNames(h)))
      && (EnumValues(b).Some? && EnumValues(h).Some? && (exists x :: x in EnumValues(b).value && x !in EnumValues(h).value) ==>
            exists removed :: RequestEnumLost(at, removed) in all && forall x :: x in removed <==> x in EnumValues(b).value && x !in EnumValues(h).value)
      && (n in RequiredNames(h) && n !in RequiredNames(b) ==> RequestPropertyNewlyRequired(at + "." + n) in all)
  {
    hide Resolve, TypeNames, EnumValues, RequestProperties, Request, RequiredNames, Without;
    var b, h := Resolve(bSpec, base, 0), Resolve(hSpec, head, 0);
    RequestUnfolds(bSpec, base, hSpec, head, at, depth);
    if EnumValues(b).Some? && EnumValues(h).Some? {
      WithoutAre(EnumValues(b).value, EnumValues(h).value);
    }
    if n in RequiredNames(h) && n !in RequiredNames(b) {
      NewlyRequiredSays(RequiredNames(h), RequiredNames(b), at, n);
    }
  }

  lemma {:induction false} NewlyRequiredSays(hreq: seq<string>, breq: seq<string>, at: string, n: string)
    requires n in hreq && n !in breq
    ensures RequestPropertyNewlyRequired(at + "." + n) in NewlyRequired(hreq, breq, at)
  {
    var k := |hreq| - 1;
    assert hreq == hreq[..k] + [hreq[k]];
    if hreq[k] != n {
      NewlyRequiredSays(hreq[..k], breq, at, n);
    }
  }

  /** A declared property that the base always has and the head does not is reported as such, if the head has it at all. */
  lemma PresenceIsReported(bSpec: Json, base: Json, hSpec: Json, head: Json, at: string, depth: nat, name: string)
    requires depth <= 10
    requires var b, h := Resolve(bSpec, base, 0), Resolve(hSpec, head, 0);
      Own(Properties(b), name).Some? && Own(Properties(h), name).Some? && name in RequiredNames(b) && name !in RequiredNames(h)
    ensures ResponsePropertyNotAlwaysPresent(at + "." + name) in Response(bSpec, base, hSpec, head, at, depth)
  {
    hide Resolve, Properties, Response, ResponseProperty, ResponseProperties, ResponseHead, Own, RequiredNames;
    var b, h := Resolve(bSpec, base, 0), Resolve(hSpec, head, 0);
    OwnIsEntry(Properties(b), name);
    OwnIsEntry(Properties(h), name);
    var e := Entry(name, Own(Properties(b), name).value);
    var f := ResponsePropertyNotAlwaysPresent(at + "." + name);
    ResponseUnfolds(bSpec, base, hSpec, head, at, depth);
    PropertiesUnfold(bSpec, b, hSpec, h, e, at, depth);
    FindingsOfProperties(bSpec, b, hSpec, h, Properties(b), at, depth, f);
  }
}
