/** Where the checker reports nothing although something was taken away: which removals, and whether they matter. */
module OpenApiGaps {
  import opened Types
  import opened OpenApiCompat
  import opened OpenApiSoundness

  // ---------------------------- removed properties ----------------------------

  lemma {:induction false} FindingsOfProperties(bSpec: Json, b: Schema, hSpec: Json, h: Schema, es: seq<Entry>, at: string, depth: nat, f: Finding)
    requires depth <= 10
    ensures f in ResponseProperties(bSpec, b, hSpec, h, es, at, depth)
       <==> exists e :: e in es && f in ResponseProperty(bSpec, b, hSpec, h, e, at, depth)
  {
    hide ResponseProperty;
    if es != [] {
      var n := |es| - 1;
      FindingsOfProperties(bSpec, b, hSpec, h, es[..n], at, depth, f);
      assert es[..n + 1] == es;
      ResponsePropertiesStep(bSpec, b, hSpec, h, es, n, at, depth);
      assert forall e :: e in es <==> e in es[..n] || e == es[n];
    }
  }

  lemma HeadRemovesNothing(base: Json, b: Schema, h: Schema, at: string, w: string)
    ensures ResponsePropertyRemoved(w) !in ResponseHead(base, b, h, at)
  {
  }

  /** A removal is found at a property of this level or below one. */
  lemma RemovalFoundAt(bSpec: Json, base: Json, hSpec: Json, head: Json, at: string, depth: nat, w: string) returns (e: Entry)
    requires ResponsePropertyRemoved(w) in Response(bSpec, base, hSpec, head, at, depth)
    ensures depth <= 10
    ensures var b, h := Resolve(bSpec, base, 0), Resolve(hSpec, head, 0);
      && e in Properties(b)
      && var hp := Member(Properties(h), e.name);
         if hp.None? then w == at + "." + e.name
         else ResponsePropertyRemoved(w) in Response(bSpec, e.value, hSpec, hp.value, at + "." + e.name, depth + 1)
  {
    hide *;
    ResponseUnfolds(bSpec, base, hSpec, head, at, depth);
    assert depth <= 10;
    var b, h := Resolve(bSpec, base, 0), Resolve(hSpec, head, 0);
    HeadRemovesNothing(base, b, h, at, w);
    var f := ResponsePropertyRemoved(w);
    FindingsOfProperties(bSpec, b, hSpec, h, Properties(b), at, depth, f);
    e :| e in Properties(b) && f in ResponseProperty(bSpec, b, hSpec, h, e, at, depth);
    PropertiesUnfold(bSpec, b, hSpec, h, e, at, depth);
  }

  /** Every removal is named by a path that continues the path of the comparison. */
  lemma {:induction false} RemovalBelow(bSpec: Json, base: Json, hSpec: Json, head: Json, at: string, depth: nat, w: string)
    requires ResponsePropertyRemoved(w) in Response(bSpec, base, hSpec, head, at, depth)
    ensures at + "." <= w
    decreases 11 - depth
  {
    hide *;
    var e := RemovalFoundAt(bSpec, base, hSpec, head, at, depth, w);
    var hp := Member(Properties(Resolve(hSpec, head, 0)), e.name);
    if hp.Some? {
      RemovalBelow(bSpec, e.value, hSpec, hp.value, at + "." + e.name, depth + 1, w);
      PathContinues(at, e.name, w);
    }
  }

  lemma PathContinues(at: string, name: string, w: string)
    requires at + "." + name + "." <= w
    ensures at + "." <= w
  {
    assert (at + "." + name + ".")[..|at| + 1] == at + ".";
  }

  lemma InheritedHaveNoDot(name: string)
    requires name in INHERITED
    ensures '.' !in name
  {
  }

  lemma SamePath(at: string, a: string, b: string)
    requires at + "." + a == at + "." + b
    ensures a == b
  {
    assert (at + "." + a)[|at| + 1..] == a && (at + "." + b)[|at| + 1..] == b;
  }

  lemma DotInside(at: string, a: string, b: string)
    requires at + "." + a + "." <= at + "." + b
    ensures '.' in b
  {
    var w := at + "." + b;
    assert w[|at| + 1..] == b;
    assert w[|at| + 1 + |a|] == (at + "." + a + ".")[|at| + 1 + |a|] == '.';
    assert b[|a|] == '.';
  }

  /** Any two schemas above the depth cut: a property that the base declares and the head does not own is
      reported as removed exactly when JavaScript objects do not inherit its name. */
  lemma RemovalIsReportedIff(bSpec: Json, base: Json, hSpec: Json, head: Json, at: string, depth: nat, name: string)
    requires depth <= 10
    requires Own(Properties(Resolve(bSpec, base, 0)), name).Some?
    requires Own(Properties(Resolve(hSpec, head, 0)), name).None?
    ensures ResponsePropertyRemoved(at + "." + name) in Response(bSpec, base, hSpec, head, at, depth) <==> name !in INHERITED
  {
    hide Resolve, Properties, Response, ResponseProperty, ResponseProperties, ResponseHead, Own;
    var b, h := Resolve(bSpec, base, 0), Resolve(hSpec, head, 0);
    var w := at + "." + name;
    var f := ResponsePropertyRemoved(w);
    if name !in INHERITED {
      OwnIsEntry(Properties(b), name);
      var e := Entry(name, Own(Properties(b), name).value);
      ResponseUnfolds(bSpec, base, hSpec, head, at, depth);
      PropertiesUnfold(bSpec, b, hSpec, h, e, at, depth);
      FindingsOfProperties(bSpec, b, hSpec, h, Properties(b), at, depth, f);
    } else if f in Response(bSpec, base, hSpec, head, at, depth) {
      InheritedHaveNoDot(name);
      hide INHERITED;
      var e := RemovalFoundAt(bSpec, base, hSpec, head, at, depth, w);
      var hp := Member(Properties(h), e.name);
      if hp.None? {
        SamePath(at, e.name, name);
      } else {
        RemovalBelow(bSpec, e.value, hSpec, hp.value, at + "." + e.name, depth + 1, w);
        DotInside(at, e.name, name);
      }
    }
  }

  /** Whatever is found below a property that both sides have is found in the whole. */
  lemma FindingsArePassedOn(bSpec: Json, base: Json, hSpec: Json, head: Json, at: string, depth: nat, e: Entry, f: Finding)
    requires depth <= 10 && e in Properties(Resolve(bSpec, base, 0)) && Member(Properties(Resolve(hSpec, head, 0)), e.name).Some?
    requires f in Response(bSpec, e.value, hSpec, Member(Properties(Resolve(hSpec, head, 0)), e.name).value, at + "." + e.name, depth + 1)
    ensures f in Response(bSpec, base, hSpec, head, at, depth)
  {
    hide *;
    var b, h := Resolve(bSpec, base, 0), Resolve(hSpec, head, 0);
    ResponseUnfolds(bSpec, base, hSpec, head, at, depth);
    PropertiesUnfold(bSpec, b, hSpec, h, e, at, depth);
    FindingsOfProperties(bSpec, b, hSpec, h, Properties(b), at, depth, f);
  }

  // ---------------------------- types ----------------------------

  const ALL_TYPES: set<string> := {"null", "boolean", "number", "string", "array", "object"}

  ghost predicate ListsEveryType(s: Schema) {
    forall t :: t in ALL_TYPES ==> t in TypeNames(s)
  }

  lemma CoversEverything(v: Json)
    ensures exists t :: t in ALL_TYPES && HasType(v, t)
  {
    var t := match v
      case JNull => "null"
      case JBool(_) => "boolean"
      case JNumber(_) => "number"
      case JString(_) => "string"
      case JArray(_) => "array"
      case JObject(_) => "object";
    assert t in ALL_TYPES && HasType(v, t);
  }

  lemma OnlyTypeOf(t: string) returns (v: Json)
    requires t in ALL_TYPES
    ensures forall u :: HasType(v, u) <==> u == t
  {
    assert t == "null" || t == "boolean" || t == "number" || t == "string" || t == "array" || t == "object";
    v := if t == "null" then JNull else if t == "boolean" then JBool(true) else if t == "number" then JNumber("1.5")
         else if t == "string" then JString("") else if t == "array" then JArray([]) else JObject([]);
    assert !Whole("1.5") by {
      assert "1.5"[1] == '.';
    }
  }

  /** When the checker finds no clash of types, the change of `type` is harmless exactly if the base gives no
      type, or the head gives one, or the base lists every type there is. */
  lemma SilentTypeIsHarmlessIff(b: Schema, h: Schema)
    requires !TypesClash(TypeNames(b), TypeNames(h))
    ensures (forall v :: TypeOk(h, v) ==> TypeOk(b, v))
       <==> TypeNames(b) == [] || TypeNames(h) != [] || ListsEveryType(b)
  {
    hide TypeNames, HasType, ALL_TYPES;
    if ListsEveryType(b) {
      forall v ensures TypeOk(b, v) {
        CoversEverything(v);
      }
    } else if TypeNames(b) != [] && TypeNames(h) == [] {
      var t :| t in ALL_TYPES && t !in TypeNames(b);
      var v := OnlyTypeOf(t);
      assert TypeOk(h, v) && !TypeOk(b, v);
    }
  }

  // ---------------------------- enums ----------------------------

  lemma {:induction false} SameIsReflexive(a: Json)
    ensures Same(a, a)
    decreases a
  {
    if a.JArray? {
      forall i | 0 <= i < |a.items| ensures Same(a.items[i], a.items[i]) {
        SameIsReflexive(a.items[i]);
      }
    } else if a.JObject? {
      forall n: string | Own(a.entries, n).Some? ensures Same(Own(a.entries, n).value, Own(a.entries, n).value) {
        OwnIsSmaller(a, n);
        SameIsReflexive(Own(a.entries, n).value);
      }
    }
  }

  lemma {:induction false} SameIsTransitive(a: Json, b: Json, c: Json)
    requires Same(a, b) && Same(b, c)
    ensures Same(a, c)
    decreases a
  {
    hide Own;
    if a.JArray? && b.JArray? && c.JArray? {
      forall i | 0 <= i < |a.items| ensures Same(a.items[i], c.items[i]) {
        SameIsTransitive(a.items[i], b.items[i], c.items[i]);
      }
    } else if a.JObject? && b.JObject? && c.JObject? {
      forall n: string
        ensures Own(a.entries, n).Some? == Own(c.entries, n).Some?
        ensures Own(a.entries, n).Some? && Own(c.entries, n).Some? ==> Same(Own(a.entries, n).value, Own(c.entries, n).value)
      {
        assert Own(a.entries, n).Some? == Own(b.entries, n).Some? == Own(c.entries, n).Some?;
        if Own(a.entries, n).Some? {
          OwnIsSmaller(a, n);
          SameIsTransitive(Own(a.entries, n).value, Own(b.entries, n).value, Own(c.entries, n).value);
        }
      }
    }
  }

  /** A string longer than every string in the list. */
  function Longer(xs: seq<Json>): (s: string)
    ensures forall x :: x in xs && x.JString? ==> |x.s| < |s|
  {
    if xs == [] then ""
    else
      assert xs == [xs[0]] + xs[1..];
      Longer(xs[1..]) + "x" + (if xs[0].JString? then xs[0].s else "")
  }

  /** The change of `enum` is harmless exactly if the base has none, or the head has one whose every value the
      base lists; with the error-code exemption the checker does not ask. */
  lemma EnumIsHarmlessIff(b: Schema, h: Schema)
    ensures (forall v :: EnumOk(h, v) ==> EnumOk(b, v))
       <==> EnumValues(b).None? || (EnumValues(h).Some? && forall x :: x in EnumValues(h).value ==> EnumOk(b, x))
  {
    hide EnumValues, Same;
    var be, he := EnumValues(b), EnumValues(h);
    if be.Some? && he.None? {
      var v := JString(Longer(be.value));
      if EnumOk(b, v) {
        var x :| x in be.value && Same(x, v);
        SameAsString(x, v.s);
      }
      assert EnumOk(h, v) && !EnumOk(b, v);
    } else if be.Some? {
      if forall x :: x in he.value ==> EnumOk(b, x) {
        forall v | EnumOk(h, v) ensures EnumOk(b, v) {
          var x :| x in he.value && Same(x, v);
          var y :| y in be.value && Same(y, x);
          SameIsTransitive(y, x, v);
        }
      } else {
        var x :| x in he.value && !EnumOk(b, x);
        SameIsReflexive(x);
        assert EnumOk(h, x);
      }
    }
  }

  lemma SameAsString(x: Json, s: string)
    requires Same(x, JString(s))
    ensures x == JString(s)
  {
  }

  /** When the checker finds no added value, the change is harmless exactly if the base has no `enum` or the
      head has one. */
  lemma SilentEnumIsHarmlessIff(b: Schema, h: Schema)
    requires EnumValues(b).Some? && EnumValues(h).Some? ==> forall x :: x in EnumValues(h).value ==> x in EnumValues(b).value
    ensures (forall v :: EnumOk(h, v) ==> EnumOk(b, v)) <==> EnumValues(b).None? || EnumValues(h).Some?
  {
    hide EnumValues, Same;
    EnumIsHarmlessIff(b, h);
    if EnumValues(b).Some? && EnumValues(h).Some? {
      forall x | x in EnumValues(h).value ensures EnumOk(b, x) {
        SameIsReflexive(x);
      }
    }
  }

  // ---------------------------- required ----------------------------

  predicate RequiredOk(s: Schema, v: Json) {
    v.JObject? ==> forall n :: n in RequiredNames(s) ==> Own(v.entries, n).Some?
  }

  /** An object with just these names. */
  function Naming(ns: seq<string>): (es: seq<Entry>)
    ensures forall n: string :: Own(es, n).Some? <==> n in ns
  {
    if ns == [] then []
    else
      assert ns == [ns[0]] + ns[1..];
      var rest := Naming(ns[1..]);
      var es := [Entry(ns[0], JNull)] + rest;
      assert es[1..] == rest;
      es
  }

  /** The change of `required` is harmless exactly if the head requires whatever the base did. */
  lemma RequiredIsHarmlessIff(b: Schema, h: Schema)
    ensures (forall v :: RequiredOk(h, v) ==> RequiredOk(b, v))
       <==> forall n :: n in RequiredNames(b) ==> n in RequiredNames(h)
  {
    hide RequiredNames, Own;
    var v := JObject(Naming(RequiredNames(h)));
    assert RequiredOk(h, v);
    if RequiredOk(b, v) {
      forall n | n in RequiredNames(b) ensures n in RequiredNames(h) {
        assert Own(v.entries, n).Some?;
      }
    }
  }

  /** When the checker finds every declared required property still required, the change is harmless exactly
      if the head also requires those that the base did not declare. */
  lemma SilentRequiredIsHarmlessIff(b: Schema, h: Schema)
    requires forall e :: e in Properties(b) ==> (e.name in RequiredNames(b) ==> e.name in RequiredNames(h))
    ensures (forall v :: RequiredOk(h, v) ==> RequiredOk(b, v))
       <==> forall n :: n in RequiredNames(b) && Own(Properties(b), n).None? ==> n in RequiredNames(h)
  {
    hide RequiredNames, Properties, RequiredOk;
    RequiredIsHarmlessIff(b, h);
    forall n | n in RequiredNames(b) && Own(Properties(b), n).Some? ensures n in RequiredNames(h) {
      OwnIsEntry(Properties(b), n);
    }
  }

  // ---------------------------- a whole schema that loses a keyword ----------------------------

  function Keyword(name: string, value: Json): Json {
    JObject([Entry(name, value)])
  }

  lemma KeywordReads(spec: Json, name: string, value: Json)
    requires name in {"type", "enum", "required"}
    ensures var s := Resolve(spec, Keyword(name, value), 0);
      && s == [Entry(name, value)] && Properties(s) == []
      && (name != "type" ==> TypeNames(s) == []) && (name != "enum" ==> EnumValues(s).None?)
      && (name != "required" ==> RequiredNames(s) == [])
    ensures Resolve(spec, JObject([]), 0) == []
  {
  }

  lemma DroppingIsSilent(spec: Json, name: string, value: Json, at: string, depth: nat)
    requires name in {"type", "enum", "required"}
    ensures Response(spec, Keyword(name, value), spec, JObject([]), at, depth) == []
  {
    hide Response, Resolve, TypeNames, EnumValues, RequiredNames, IsErrorCode, Keyword;
    SilentIffProvides(spec, Keyword(name, value), spec, JObject([]), at, depth);
    KeywordReads(spec, name, value);
    EmptyReads();
  }

  lemma EmptyReads()
    ensures TypeNames([]) == [] && EnumValues([]).None? && RequiredNames([]) == [] && Properties([]) == []
  {
  }

  lemma ValidWithoutProperties(spec: Json, schema: Json, v: Json)
    requires Properties(Resolve(spec, schema, 0)) == []
    ensures var s := Resolve(spec, schema, 0);
      Valid(spec, schema, v) <==> TypeOk(s, v) && EnumOk(s, v) && RequiredOk(s, v)
  {
    hide Resolve, TypeOk, EnumOk, RequiredNames, Properties;
  }

  /** Every value valid under the head is valid under the base. */
  ghost predicate LosesNothing(spec: Json, base: Json, head: Json) {
    forall v :: Valid(spec, head, v) ==> Valid(spec, base, v)
  }

  lemma NothingLostIff(spec: Json, base: Json)
    requires Properties(Resolve(spec, base, 0)) == []
    ensures var s := Resolve(spec, base, 0);
      LosesNothing(spec, base, JObject([])) <==> forall v :: TypeOk(s, v) && EnumOk(s, v) && RequiredOk(s, v)
  {
    hide Resolve, Properties, TypeOk, EnumOk, RequiredOk;
    var s := Resolve(spec, base, 0);
    forall v ensures Valid(spec, JObject([]), v) && (Valid(spec, base, v) <==> TypeOk(s, v) && EnumOk(s, v) && RequiredOk(s, v)) {
      EmptySchemaAdmitsAll(spec, v);
      ValidWithoutProperties(spec, base, v);
    }
  }

  /** Dropping a lone `type`, `enum` or `required` is never reported. It loses nothing exactly if the types
      were missing or all there, the enum was no list, or no name was required. */
  lemma DroppedKeywordIsHarmlessIff(spec: Json, name: string, value: Json, at: string, depth: nat)
    requires name in {"type", "enum", "required"}
    ensures Response(spec, Keyword(name, value), spec, JObject([]), at, depth) == []
    ensures var s := Resolve(spec, Keyword(name, value), 0);
      LosesNothing(spec, Keyword(name, value), JObject([]))
      <==> (TypeNames(s) == [] || ListsEveryType(s)) && EnumValues(s).None? && RequiredNames(s) == []
  {
    hide *;
    DroppingIsSilent(spec, name, value, at, depth);
    KeywordReads(spec, name, value);
    NothingLostIff(spec, Keyword(name, value));
    AlwaysOk(Resolve(spec, Keyword(name, value), 0));
  }

  /** When each keyword admits every value. */
  lemma AlwaysOk(s: Schema)
    ensures (forall v :: TypeOk(s, v)) <==> TypeNames(s) == [] || ListsEveryType(s)
    ensures (forall v :: EnumOk(s, v)) <==> EnumValues(s).None?
    ensures (forall v :: RequiredOk(s, v)) <==> RequiredNames(s) == []
  {
    hide *;
    EmptyReads();
    forall v ensures TypeOk([], v) && EnumOk([], v) && RequiredOk([], v) {
      EmptyAdmits(v);
    }
    NoClashWithNothing(TypeNames(s));
    SilentTypeIsHarmlessIff(s, []);
    SilentEnumIsHarmlessIff(s, []);
    RequiredIsHarmlessIff(s, []);
    assert RequiredNames(s) != [] ==> RequiredNames(s)[0] in RequiredNames(s);
  }

  lemma EmptyAdmits(v: Json)
    ensures TypeOk([], v) && EnumOk([], v) && RequiredOk([], v)
  {
  }

  lemma NoClashWithNothing(ts: seq<string>)
    ensures !TypesClash(ts, [])
  {
  }
}
