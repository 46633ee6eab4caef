/** What a silent comparison guarantees, and where its silence promises nothing. */
module OpenApiSoundness {
  import opened Types
  import opened OpenApiCompat

  // ---------------------------- silence, stated as a relation ----------------------------

  /** A clause of the response policy for each level down to the tenth. */
  ghost predicate Provides(bSpec: Json, base: Json, hSpec: Json, head: Json, depth: nat)
    decreases 11 - depth, 0
  {
    depth > 10 ||
    var b, h := Resolve(bSpec, base, 0), Resolve(hSpec, head, 0);
    && !TypesClash(TypeNames(b), TypeNames(h))
    && (EnumValues(b).Some? && EnumValues(h).Some? && !IsErrorCode(base) ==>
          forall x :: x in EnumValues(h).value ==> x in EnumValues(b).value)
    && ProvidesProperties(bSpec, b, hSpec, h, depth)
  }

  ghost predicate ProvidesProperties(bSpec: Json, b: Schema, hSpec: Json, h: Schema, depth: nat)
    requires depth <= 10
    decreases 10 - depth, 1
  {
    forall e :: e in Properties(b) ==>
      && Member(Properties(h), e.name).Some?
      && (e.name in RequiredNames(b) ==> e.name in RequiredNames(h))
      && Provides(bSpec, e.value, hSpec, Member(Properties(h), e.name).value, depth + 1)
  }

  ghost predicate Accepts(bSpec: Json, base: Json, hSpec: Json, head: Json, depth: nat)
    decreases 11 - depth, 0
  {
    depth > 10 ||
    var b, h := Resolve(bSpec, base, 0), Resolve(hSpec, head, 0);
    && !TypesClash(TypeNames(h), TypeNames(b))
    && (EnumValues(b).Some? && EnumValues(h).Some? ==>
          forall x :: x in EnumValues(b).value ==> x in EnumValues(h).value)
    && (forall n :: n in RequiredNames(h) ==> n in RequiredNames(b))
    && AcceptsProperties(bSpec, b, hSpec, h, depth)
  }

  ghost predicate AcceptsProperties(bSpec: Json, b: Schema, hSpec: Json, h: Schema, depth: nat)
    requires depth <= 10
    decreases 10 - depth, 1
  {
    forall e :: e in Properties(b) ==> (Member(Properties(h), e.name).Some? ==>
      Accepts(bSpec, e.value, hSpec, Member(Properties(h), e.name).value, depth + 1))
  }

  lemma NothingInEither(a: seq<Finding>, b: seq<Finding>)
    ensures a + b == [] <==> a == [] && b == []
  {
  }

  lemma {:induction false} PropertiesSilent(bSpec: Json, b: Schema, hSpec: Json, h: Schema, es: seq<Entry>, at: string, depth: nat)
    requires depth <= 10
    ensures ResponseProperties(bSpec, b, hSpec, h, es, at, depth) == []
       <==> forall e :: e in es ==> ResponseProperty(bSpec, b, hSpec, h, e, at, depth) == []
  {
    hide ResponseProperty;
    if es != [] {
      var n := |es| - 1;
      assert es == es[..n] + [es[n]];
      assert forall e :: e in es <==> e in es[..n] || e == es[n];
      PropertiesSilent(bSpec, b, hSpec, h, es[..n], at, depth);
      assert es[..n + 1] == es;
      ResponsePropertiesStep(bSpec, b, hSpec, h, es, n, at, depth);
      NothingInEither(ResponseProperties(bSpec, b, hSpec, h, es[..n], at, depth), ResponseProperty(bSpec, b, hSpec, h, es[n], at, depth));
    }
  }

  lemma {:induction false} RequestPropertiesSilent(bSpec: Json, hSpec: Json, h: Schema, es: seq<Entry>, at: string, depth: nat)
    requires depth <= 10
    ensures RequestProperties(bSpec, hSpec, h, es, at, depth) == []
       <==> forall e :: e in es ==> RequestProperty(bSpec, hSpec, h, e, at, depth) == []
  {
    hide RequestProperty;
    if es != [] {
      var n := |es| - 1;
      assert es == es[..n] + [es[n]];
      assert forall e :: e in es <==> e in es[..n] || e == es[n];
      RequestPropertiesSilent(bSpec, hSpec, h, es[..n], at, depth);
      assert es[..n + 1] == es;
      RequestPropertiesStep(bSpec, hSpec, h, es, n, at, depth);
      NothingInEither(RequestProperties(bSpec, hSpec, h, es[..n], at, depth), RequestProperty(bSpec, hSpec, h, es[n], at, depth));
    }
  }

  lemma HeadSilent(base: Json, b: Schema, h: Schema, at: string)
    ensures ResponseHead(base, b, h, at) == []
       <==> && !TypesClash(TypeNames(b), TypeNames(h))
            && (EnumValues(b).Some? && EnumValues(h).Some? && !IsErrorCode(base) ==>
                  forall x :: x in EnumValues(h).value ==> x in EnumValues(b).value)
    ensures RequestHead(b, h, at) == []
       <==> && !TypesClash(TypeNames(h), TypeNames(b))
            && (EnumValues(b).Some? && EnumValues(h).Some? ==>
                  forall x :: x in EnumValues(b).value ==> x in EnumValues(h).value)
            && (forall n :: n in RequiredNames(h) ==> n in RequiredNames(b))
  {
    hide TypesClash, TypeNames, EnumValues, IsErrorCode, RequiredNames;
  }

  /** The response comparison reports nothing exactly when every clause of the policy holds. */
  lemma {:induction false} SilentIffProvides(bSpec: Json, base: Json, hSpec: Json, head: Json, at: string, depth: nat)
    ensures Response(bSpec, base, hSpec, head, at, depth) == [] <==> Provides(bSpec, base, hSpec, head, depth)
    decreases 11 - depth
  {
    hide *;
    ResponseUnfolds(bSpec, base, hSpec, head, at, depth);
    ProvidesUnfolds(bSpec, base, hSpec, head, depth);
    if depth <= 10 {
      var b, h := Resolve(bSpec, base, 0), Resolve(hSpec, head, 0);
      HeadSilent(base, b, h, at);
      ProvidesEach(bSpec, b, hSpec, h, depth);
      PropertiesSilent(bSpec, b, hSpec, h, Properties(b), at, depth);
      forall e | e in Properties(b)
        ensures ResponseProperty(bSpec, b, hSpec, h, e, at, depth) == []
           <==> && Member(Properties(h), e.name).Some?
                && (e.name in RequiredNames(b) ==> e.name in RequiredNames(h))
                && Provides(bSpec, e.value, hSpec, Member(Properties(h), e.name).value, depth + 1)
      {
        PropertiesUnfold(bSpec, b, hSpec, h, e, at, depth);
        if Member(Properties(h), e.name).Some? {
          SilentIffProvides(bSpec, e.value, hSpec, Member(Properties(h), e.name).value, at + "." + e.name, depth + 1);
        }
      }
      NothingInEither(ResponseHead(base, b, h, at), ResponseProperties(bSpec, b, hSpec, h, Properties(b), at, depth));
    }
  }

  lemma ProvidesUnfolds(bSpec: Json, base: Json, hSpec: Json, head: Json, depth: nat)
    ensures var b, h := Resolve(bSpec, base, 0), Resolve(hSpec, head, 0);
      Provides(bSpec, base, hSpec, head, depth)
      <==> (depth > 10 ||
            (&& !TypesClash(TypeNames(b), TypeNames(h))
             && (EnumValues(b).Some? && EnumValues(h).Some? && !IsErrorCode(base) ==>
                   forall x :: x in EnumValues(h).value ==> x in EnumValues(b).value)
             && ProvidesProperties(bSpec, b, hSpec, h, depth)))
  {
    hide Resolve, TypeNames, EnumValues, TypesClash, IsErrorCode, RequiredNames, ProvidesProperties;
  }

  lemma ProvidesEach(bSpec: Json, b: Schema, hSpec: Json, h: Schema, depth: nat)
    requires depth <= 10
    ensures ProvidesProperties(bSpec, b, hSpec, h, depth)
       <==> forall e :: e in Properties(b) ==>
              && Member(Properties(h), e.name).Some?
              && (e.name in RequiredNames(b) ==> e.name in RequiredNames(h))
              && Provides(bSpec, e.value, hSpec, Member(Properties(h), e.name).value, depth + 1)
  {
    hide Properties, Member, Provides, RequiredNames;
  }

  /** The request comparison reports nothing exactly when every clause of the policy holds. */
  lemma {:induction false} SilentIffAccepts(bSpec: Json, base: Json, hSpec: Json, head: Json, at: string, depth: nat)
    ensures Request(bSpec, base, hSpec, head, at, depth) == [] <==> Accepts(bSpec, base, hSpec, head, depth)
    decreases 11 - depth
  {
    hide *;
    RequestUnfolds(bSpec, base, hSpec, head, at, depth);
    AcceptsUnfolds(bSpec, base, hSpec, head, depth);
    if depth <= 10 {
      var b, h := Resolve(bSpec, base, 0), Resolve(hSpec, head, 0);
      HeadSilent(base, b, h, at);
      AcceptsEach(bSpec, b, hSpec, h, depth);
      RequestPropertiesSilent(bSpec, hSpec, h, Properties(b), at, depth);
      forall e | e in Properties(b)
        ensures RequestProperty(bSpec, hSpec, h, e, at, depth) == []
           <==> (Member(Properties(h), e.name).Some? ==> Accepts(bSpec, e.value, hSpec, Member(Properties(h), e.name).value, depth + 1))
      {
        PropertiesUnfold(bSpec, b, hSpec, h, e, at, depth);
        if Member(Properties(h), e.name).Some? {
          SilentIffAccepts(bSpec, e.value, hSpec, Member(Properties(h), e.name).value, at + "." + e.name, depth + 1);
        }
      }
      NothingInEither(RequestHead(b, h, at), RequestProperties(bSpec, hSpec, h, Properties(b), at, depth));
    }
  }

  lemma AcceptsUnfolds(bSpec: Json, base: Json, hSpec: Json, head: Json, depth: nat)
    ensures var b, h := Resolve(bSpec, base, 0), Resolve(hSpec, head, 0);
      Accepts(bSpec, base, hSpec, head, depth)
      <==> (depth > 10 ||
            (&& !TypesClash(TypeNames(h), TypeNames(b))
             && (EnumValues(b).Some? && EnumValues(h).Some? ==>
                   forall x :: x in EnumValues(b).value ==> x in EnumValues(h).value)
             && (forall n :: n in RequiredNames(h) ==> n in RequiredNames(b))
             && AcceptsProperties(bSpec, b, hSpec, h, depth)))
  {
    hide Resolve, TypeNames, EnumValues, TypesClash, RequiredNames, AcceptsProperties;
  }

  lemma AcceptsEach(bSpec: Json, b: Schema, hSpec: Json, h: Schema, depth: nat)
    requires depth <= 10
    ensures AcceptsProperties(bSpec, b, hSpec, h, depth)
       <==> forall e :: e in Properties(b) ==> (Member(Properties(h), e.name).Some? ==>
              Accepts(bSpec, e.value, hSpec, Member(Properties(h), e.name).value, depth + 1))
  {
    hide Properties, Member, Accepts;
  }

  // ---------------------------- what the schemas must say for silence to mean anything ----------------------------

  /** The head speaks wherever the base does: typed where the base is typed, enumerated where the base is
      (and not as an error code); and the base requires only properties it declares. */
  ghost predicate HeadSpeaks(bSpec: Json, base: Json, hSpec: Json, head: Json, depth: nat)
    decreases 11 - depth
  {
    depth > 10 ||
    var b, h := Resolve(bSpec, base, 0), Resolve(hSpec, head, 0);
    && (TypeNames(b) != [] ==> TypeNames(h) != [])
    && (EnumValues(b).Some? ==> EnumValues(h).Some? && !IsErrorCode(base))
    && (forall n :: n in RequiredNames(b) ==> Own(Properties(b), n).Some?)
    && forall e :: e in Properties(b) && Member(Properties(h), e.name).Some? ==>
         HeadSpeaks(bSpec, e.value, hSpec, Member(Properties(h), e.name).value, depth + 1)
  }

  /** The base speaks wherever the head does. */
  ghost predicate BaseSpeaks(bSpec: Json, base: Json, hSpec: Json, head: Json, depth: nat)
    decreases 11 - depth
  {
    depth > 10 ||
    var b, h := Resolve(bSpec, base, 0), Resolve(hSpec, head, 0);
    && (TypeNames(h) != [] ==> TypeNames(b) != [])
    && (EnumValues(h).Some? ==> EnumValues(b).Some?)
    && forall e :: e in Properties(b) && Member(Properties(h), e.name).Some? ==>
         BaseSpeaks(bSpec, e.value, hSpec, Member(Properties(h), e.name).value, depth + 1)
  }

  lemma EmptySchemaAdmitsAll(spec: Json, v: Json)
    ensures Valid(spec, JObject([]), v)
  {
  }

  lemma OwnIsEntry(es: seq<Entry>, n: string)
    requires Own(es, n).Some?
    ensures Entry(n, Own(es, n).value) in es && Member(es, n) == Own(es, n)
  {
  }

  /** Response soundness: when the comparison is silent, whatever the head can send is what the base promised. */
  lemma {:induction false} ResponseSound(bSpec: Json, base: Json, hSpec: Json, head: Json, v: Json, at: string, depth: nat)
    requires depth <= 10
    requires Response(bSpec, base, hSpec, head, at, depth) == []
    requires HeadSpeaks(bSpec, base, hSpec, head, depth)
    requires Within(bSpec, base, v, 10 - depth)
    requires Valid(hSpec, head, v)
    ensures Valid(bSpec, base, v)
    decreases v
  {
    hide *;
    SilentIffProvides(bSpec, base, hSpec, head, at, depth);
    ProvidedIsPromised(bSpec, base, hSpec, head, v, depth);
  }

  lemma {:induction false} ProvidedIsPromised(bSpec: Json, base: Json, hSpec: Json, head: Json, v: Json, depth: nat)
    requires depth <= 10
    requires Provides(bSpec, base, hSpec, head, depth) && HeadSpeaks(bSpec, base, hSpec, head, depth)
    requires Within(bSpec, base, v, 10 - depth) && Valid(hSpec, head, v)
    ensures Valid(bSpec, base, v)
    decreases v
  {
    hide *;
    var b, h := Resolve(bSpec, base, 0), Resolve(hSpec, head, 0);
    PromisedHere(bSpec, base, hSpec, head, v, depth);
    if v.JObject? {
      forall n: string | Own(Properties(b), n).Some? && Own(v.entries, n).Some?
        ensures Valid(bSpec, Own(Properties(b), n).value, Own(v.entries, n).value)
      {
        var bp, vp := Own(Properties(b), n).value, Own(v.entries, n).value;
        WithinChild(bSpec, base, v, 10 - depth, n);
        ProvidesChild(bSpec, base, hSpec, head, depth, n);
        HeadMember(hSpec, head, n, v);
        OwnIsSmaller(v, n);
        ProvidedIsPromised(bSpec, bp, hSpec, Member(Properties(h), n).value, vp, depth + 1);
      }
    }
    ValidFolds(bSpec, base, v);
  }

  /** The keywords of one node. */
  lemma PromisedHere(bSpec: Json, base: Json, hSpec: Json, head: Json, v: Json, depth: nat)
    requires depth <= 10
    requires Provides(bSpec, base, hSpec, head, depth) && HeadSpeaks(bSpec, base, hSpec, head, depth)
    requires Valid(hSpec, head, v)
    ensures var b := Resolve(bSpec, base, 0);
      TypeOk(b, v) && EnumOk(b, v) && (v.JObject? ==> forall n :: n in RequiredNames(b) ==> Own(v.entries, n).Some?)
  {
    hide Resolve, TypeNames, EnumValues, IsErrorCode, RequiredNames, Properties, Member, Own, HasType, Same;
    var b, h := Resolve(bSpec, base, 0), Resolve(hSpec, head, 0);
    if v.JObject? {
      forall n | n in RequiredNames(b) ensures Own(v.entries, n).Some? {
        OwnIsEntry(Properties(b), n);
      }
    }
  }

  lemma ProvidesChild(bSpec: Json, base: Json, hSpec: Json, head: Json, depth: nat, n: string)
    requires depth <= 10
    requires Provides(bSpec, base, hSpec, head, depth) && HeadSpeaks(bSpec, base, hSpec, head, depth)
    requires Own(Properties(Resolve(bSpec, base, 0)), n).Some?
    ensures var bp, hp := Own(Properties(Resolve(bSpec, base, 0)), n).value, Member(Properties(Resolve(hSpec, head, 0)), n);
      hp.Some? && Provides(bSpec, bp, hSpec, hp.value, depth + 1) && HeadSpeaks(bSpec, bp, hSpec, hp.value, depth + 1)
  {
    hide Resolve, TypeNames, EnumValues, IsErrorCode, RequiredNames, Properties, Member, Own, TypesClash;
    OwnIsEntry(Properties(Resolve(bSpec, base, 0)), n);
  }

  lemma AcceptsChild(bSpec: Json, base: Json, hSpec: Json, head: Json, depth: nat, n: string)
    requires depth <= 10
    requires Accepts(bSpec, base, hSpec, head, depth) && BaseSpeaks(bSpec, base, hSpec, head, depth)
    requires Own(Properties(Resolve(bSpec, base, 0)), n).Some? && Own(Properties(Resolve(hSpec, head, 0)), n).Some?
    ensures var bp, hp := Own(Properties(Resolve(bSpec, base, 0)), n).value, Own(Properties(Resolve(hSpec, head, 0)), n).value;
      Accepts(bSpec, bp, hSpec, hp, depth + 1) && BaseSpeaks(bSpec, bp, hSpec, hp, depth + 1)
  {
    hide Resolve, TypeNames, EnumValues, RequiredNames, Properties, Member, Own, TypesClash;
    OwnIsEntry(Properties(Resolve(bSpec, base, 0)), n);
    OwnIsEntry(Properties(Resolve(hSpec, head, 0)), n);
  }

  lemma WithinChild(spec: Json, schema: Json, v: Json, levels: nat, n: string)
    requires Within(spec, schema, v, levels) && v.JObject?
    requires Own(Properties(Resolve(spec, schema, 0)), n).Some? && Own(v.entries, n).Some?
    ensures levels > 0 && Within(spec, Own(Properties(Resolve(spec, schema, 0)), n).value, Own(v.entries, n).value, levels - 1)
  {
    hide Resolve, Properties, Own;
  }

  lemma DeclaredChild(spec: Json, schema: Json, v: Json, n: string)
    requires OnlyDeclared(spec, schema, v) && v.JObject? && Own(v.entries, n).Some?
    ensures var declared := Own(Properties(Resolve(spec, schema, 0)), n);
      declared.Some? && OnlyDeclared(spec, declared.value, Own(v.entries, n).value)
  {
    hide Resolve, Properties, Own;
  }

  lemma OwnIsSmaller(v: Json, n: string)
    requires v.JObject? && Own(v.entries, n).Some?
    ensures Own(v.entries, n).value < v
  {
  }

  lemma ValidChild(spec: Json, schema: Json, v: Json, n: string)
    requires Valid(spec, schema, v) && v.JObject?
    requires Own(Properties(Resolve(spec, schema, 0)), n).Some? && Own(v.entries, n).Some?
    ensures Valid(spec, Own(Properties(Resolve(spec, schema, 0)), n).value, Own(v.entries, n).value)
  {
    hide Resolve, Properties, Own, TypeOk, EnumOk, RequiredNames;
  }

  lemma ValidFolds(spec: Json, schema: Json, v: Json)
    requires var s := Resolve(spec, schema, 0);
      && TypeOk(s, v) && EnumOk(s, v)
      && (v.JObject? ==>
           && (forall n :: n in RequiredNames(s) ==> Own(v.entries, n).Some?)
           && forall n: string :: Own(Properties(s), n).Some? && Own(v.entries, n).Some? ==>
                Valid(spec, Own(Properties(s), n).value, Own(v.entries, n).value))
    ensures Valid(spec, schema, v)
  {
    hide Resolve, Properties, Own, TypeOk, EnumOk, RequiredNames;
  }

  /** What `in` finds in the head is a declared property, or an inherited name that constrains nothing. */
  lemma HeadMember(hSpec: Json, head: Json, n: string, v: Json)
    requires v.JObject? && Own(v.entries, n).Some? && Valid(hSpec, head, v)
    requires Member(Properties(Resolve(hSpec, head, 0)), n).Some?
    ensures Valid(hSpec, Member(Properties(Resolve(hSpec, head, 0)), n).value, Own(v.entries, n).value)
  {
    hide Valid, Properties, Resolve, Own;
    var declared := Own(Properties(Resolve(hSpec, head, 0)), n);
    if declared.Some? {
      ValidChild(hSpec, head, v, n);
    } else {
      EmptySchemaAdmitsAll(hSpec, Own(v.entries, n).value);
    }
  }

  /** Request soundness: when the comparison is silent, the head takes every request that was valid under
      the base and stays with the properties the base declares. */
  lemma {:induction false} RequestSound(bSpec: Json, base: Json, hSpec: Json, head: Json, v: Json, at: string, depth: nat)
    requires depth <= 10
    requires Request(bSpec, base, hSpec, head, at, depth) == []
    requires BaseSpeaks(bSpec, base, hSpec, head, depth)
    requires Within(bSpec, base, v, 10 - depth) && OnlyDeclared(bSpec, base, v)
    requires Valid(bSpec, base, v)
    ensures Valid(hSpec, head, v)
  {
    hide *;
    SilentIffAccepts(bSpec, base, hSpec, head, at, depth);
    AcceptedStaysValid(bSpec, base, hSpec, head, v, depth);
  }

  lemma {:induction false} AcceptedStaysValid(bSpec: Json, base: Json, hSpec: Json, head: Json, v: Json, depth: nat)
    requires depth <= 10
    requires Accepts(bSpec, base, hSpec, head, depth) && BaseSpeaks(bSpec, base, hSpec, head, depth)
    requires Within(bSpec, base, v, 10 - depth) && OnlyDeclared(bSpec, base, v) && Valid(bSpec, base, v)
    ensures Valid(hSpec, head, v)
    decreases v
  {
    hide *;
    var b, h := Resolve(bSpec, base, 0), Resolve(hSpec, head, 0);
    AcceptedHere(bSpec, base, hSpec, head, v, depth);
    if v.JObject? {
      forall n: string | Own(Properties(h), n).Some? && Own(v.entries, n).Some?
        ensures Valid(hSpec, Own(Properties(h), n).value, Own(v.entries, n).value)
      {
        DeclaredChild(bSpec, base, v, n);
        WithinChild(bSpec, base, v, 10 - depth, n);
        ValidChild(bSpec, base, v, n);
        AcceptsChild(bSpec, base, hSpec, head, depth, n);
        OwnIsSmaller(v, n);
        AcceptedStaysValid(bSpec, Own(Properties(b), n).value, hSpec, Own(Properties(h), n).value, Own(v.entries, n).value, depth + 1);
      }
    }
    ValidFolds(hSpec, head, v);
  }

  lemma AcceptedHere(bSpec: Json, base: Json, hSpec: Json, head: Json, v: Json, depth: nat)
    requires depth <= 10
    requires Accepts(bSpec, base, hSpec, head, depth) && BaseSpeaks(bSpec, base, hSpec, head, depth)
    requires Valid(bSpec, base, v)
    ensures var h := Resolve(hSpec, head, 0);
      TypeOk(h, v) && EnumOk(h, v) && (v.JObject? ==> forall n :: n in RequiredNames(h) ==> Own(v.entries, n).Some?)
  {
    hide Resolve, TypeNames, EnumValues, RequiredNames, Properties, Member, Own, HasType, Same;
  }

  // ---------------------------- how deep the checker looks ----------------------------

  /** The schema declares properties at most `levels` deep. */
  ghost predicate NestsWithin(spec: Json, schema: Json, levels: nat)
    decreases levels
  {
    forall e :: e in Properties(Resolve(spec, schema, 0)) ==> levels > 0 && NestsWithin(spec, e.value, levels - 1)
  }

  lemma {:induction false} ShallowSchema(spec: Json, schema: Json, v: Json, levels: nat)
    requires NestsWithin(spec, schema, levels)
    ensures Within(spec, schema, v, levels)
    decreases levels
  {
    hide Resolve, Properties;
    if v.JObject? {
      var s := Resolve(spec, schema, 0);
      forall n: string | Own(Properties(s), n).Some? && Own(v.entries, n).Some?
        ensures levels > 0 && Within(spec, Own(Properties(s), n).value, Own(v.entries, n).value, levels - 1)
      {
        OwnIsEntry(Properties(s), n);
        assert Entry(n, Own(Properties(s), n).value) in Properties(s);
        ShallowSchema(spec, Own(Properties(s), n).value, Own(v.entries, n).value, levels - 1);
      }
    }
  }

  /** Objects nest at most `levels` deep in the value, so a recursive schema is fine. */
  ghost predicate ValueNests(v: Json, levels: nat)
    decreases v
  {
    v.JObject? ==> forall e :: e in v.entries ==> levels > 0 && ValueNests(e.value, levels - 1)
  }

  lemma {:induction false} ShallowValue(spec: Json, schema: Json, v: Json, levels: nat)
    requires ValueNests(v, levels)
    ensures Within(spec, schema, v, levels)
    decreases levels
  {
    hide Resolve, Properties;
    if v.JObject? {
      var s := Resolve(spec, schema, 0);
      forall n: string | Own(Properties(s), n).Some? && Own(v.entries, n).Some?
        ensures levels > 0 && Within(spec, Own(Properties(s), n).value, Own(v.entries, n).value, levels - 1)
      {
        OwnIsEntry(v.entries, n);
        assert Entry(n, Own(v.entries, n).value) in v.entries;
        ShallowValue(spec, Own(Properties(s), n).value, Own(v.entries, n).value, levels - 1);
      }
    }
  }

  // ---------------------------- no change, no finding ----------------------------

  predicate DistinctNames(es: seq<Entry>) {
    forall i, j :: 0 <= i < j < |es| ==> es[i].name != es[j].name
  }

  /** No object of the document repeats a name, which parsed JSON never does. */
  predicate Proper(v: Json) {
    match v
    case JArray(items) => forall x :: x in items ==> Proper(x)
    case JObject(entries) => DistinctNames(entries) && forall e :: e in entries ==> Proper(e.value)
    case _ => true
  }

  lemma {:induction false} WalkStaysProper(node: Json, parts: seq<string>)
    requires Proper(node)
    ensures Proper(Walk(node, parts))
  {
    if parts != [] {
      var last := |parts| - 1;
      WalkStaysProper(node, parts[..last]);
    }
  }

  lemma {:induction false} ResolveStaysProper(spec: Json, schema: Json, depth: nat)
    requires Proper(spec) && Proper(schema)
    ensures Proper(JObject(Resolve(spec, schema, depth)))
    decreases 21 - depth
  {
    if schema.JObject? && depth <= 20 {
      var ref := Own(schema.entries, "$ref");
      if IsLocalRef(ref) {
        var parts := Split(ref.value.s[2..]);
        WalkStaysProper(spec, parts);
        ResolveStaysProper(spec, Walk(spec, parts), depth + 1);
      }
    }
  }

  /** A contract compared with itself raises nothing, whatever it contains. */
  lemma {:induction false} NoChangeIsSilent(spec: Json, schema: Json, at: string, depth: nat)
    requires Proper(spec) && Proper(schema)
    ensures Response(spec, schema, spec, schema, at, depth) == []
    ensures Request(spec, schema, spec, schema, at, depth) == []
    decreases 11 - depth
  {
    hide *;
    SilentIffProvides(spec, schema, spec, schema, at, depth);
    SilentIffAccepts(spec, schema, spec, schema, at, depth);
    ProvidesUnfolds(spec, schema, spec, schema, depth);
    AcceptsUnfolds(spec, schema, spec, schema, depth);
    if depth <= 10 {
      var s := Resolve(spec, schema, 0);
      ResolveStaysProper(spec, schema, 0);
      ProperProperties(s);
      NoClashWithItself(TypeNames(s));
      ProvidesEach(spec, s, spec, s, depth);
      AcceptsEach(spec, s, spec, s, depth);
      forall e | e in Properties(s)
        ensures Member(Properties(s), e.name) == Some(e.value)
             && Provides(spec, e.value, spec, e.value, depth + 1) && Accepts(spec, e.value, spec, e.value, depth + 1)
      {
        NoChangeIsSilent(spec, e.value, at, depth + 1);
        SilentIffProvides(spec, e.value, spec, e.value, at, depth + 1);
        SilentIffAccepts(spec, e.value, spec, e.value, at, depth + 1);
      }
    }
  }

  lemma NoClashWithItself(ts: seq<string>)
    ensures !TypesClash(ts, ts)
  {
  }

  lemma ProperProperties(s: Schema)
    requires Proper(JObject(s))
    ensures forall e :: e in Properties(s) ==> Proper(e.value) && Member(Properties(s), e.name) == Some(e.value)
  {
    var p := Own(s, "properties");
    if p.Some? && p.value.JObject? {
      OwnIsEntry(s, "properties");
      assert Proper(p.value);
      var es := p.value.entries;
      forall e | e in es ensures Own(es, e.name) == Some(e.value) {
        OwnIsEntry(es, e.name);
      }
    }
  }
}
