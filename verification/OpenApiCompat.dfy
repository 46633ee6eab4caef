/** The OpenAPI breaking-change check: what its silence says about the JSON values of the two contracts. */
module OpenApiCompat {
  import opened Types

  // ---------------------------- JSON as JavaScript holds it ----------------------------

  /** An object lists its own entries in `Object.entries` order; a number is the text JavaScript prints
      for it. Two values have the same `JSON.stringify` text exactly when they are equal here. */
  datatype Json =
    | JNull
    | JBool(value: bool)
    | JNumber(text: string)
    | JString(s: string)
    | JArray(items: seq<Json>)
    | JObject(entries: seq<Entry>)

  datatype Entry = Entry(name: string, value: Json)

  type Schema = seq<Entry>

  /** Names every JavaScript object inherits; `in` and indexing see them. */
  const INHERITED: set<string> := {
    "constructor", "toString", "toLocaleString", "valueOf", "hasOwnProperty", "isPrototypeOf",
    "propertyIsEnumerable", "__proto__", "__defineGetter__", "__defineSetter__", "__lookupGetter__", "__lookupSetter__"
  }

  function Own(entries: seq<Entry>, name: string): (r: Option<Json>)
    ensures r.Some? ==> exists i :: 0 <= i < |entries| && entries[i].name == name && entries[i].value == r.value
    ensures r.None? ==> forall i :: 0 <= i < |entries| ==> entries[i].name != name
  {
    if entries == [] then None
    else if entries[0].name == name then Some(entries[0].value)
    else
      var r := Own(entries[1..], name);
      assert forall i :: 0 < i < |entries| ==> entries[i] == entries[1..][i - 1];
      r
  }

  /** `o[name]`; what is inherited has no schema keyword of its own and reads as `{}`. */
  function Member(entries: seq<Entry>, name: string): Option<Json> {
    var own := Own(entries, name);
    if own.Some? then own
    else if name in INHERITED then Some(JObject([]))
    else None
  }

  /** `String(v)` */
  function Text(v: Json): string
    decreases v, 1
  {
    match v
    case JNull => "null"
    case JBool(b) => if b then "true" else "false"
    case JNumber(t) => t
    case JString(s) => s
    case JArray(items) => Joined(items)
    case JObject(_) => "[object Object]"
  }

  /** An array prints its elements with commas between them, `null` as nothing. */
  function Joined(items: seq<Json>): string
    decreases items, 0
  {
    if items == [] then ""
    else
      var n := |items| - 1;
      Joined(items[..n]) + (if n == 0 then "" else ",") + (if items[n] == JNull then "" else Text(items[n]))
  }

  function Texts(items: seq<Json>): (r: seq<string>)
    ensures |r| == |items| && forall i :: 0 <= i < |items| ==> r[i] == Text(items[i])
  {
    if items == [] then [] else [Text(items[0])] + Texts(items[1..])
  }

  // ---------------------------- reading a schema ----------------------------

  function Split(s: string): (parts: seq<string>)
    ensures |parts| > 0
  {
    if s == "" then [""]
    else
      var rest := Split(s[1..]);
      if s[0] == '/' then [""] + rest else [[s[0]] + rest[0]] + rest[1..]
  }

  /** Following a path from a node; `JNull` stands for `undefined` too, which no step below tells apart. */
  function Walk(node: Json, parts: seq<string>): Json {
    if parts == [] then node
    else
      var last := |parts| - 1;
      var before := Walk(node, parts[..last]);
      if before.JObject? && Member(before.entries, parts[last]).Some? then Member(before.entries, parts[last]).value else JNull
  }

  predicate IsLocalRef(ref: Option<Json>) {
    ref.Some? && ref.value.JString? && "#/" <= ref.value.s
  }

  /** `resolve` */
  function Resolve(spec: Json, schema: Json, depth: nat): Schema
    decreases 21 - depth
  {
    if !schema.JObject? || depth > 20 then []
    else
      var ref := Own(schema.entries, "$ref");
      if IsLocalRef(ref) then Resolve(spec, Walk(spec, Split(ref.value.s[2..])), depth + 1)
      else schema.entries
  }

  method ResolveSchema(spec: Json, schema: Json, depth: nat) returns (r: Schema)
    ensures r == Resolve(spec, schema, depth)
    decreases 21 - depth
  {
    if !schema.JObject? || depth > 20 {
      return [];
    }
    var ref := Own(schema.entries, "$ref");
    if IsLocalRef(ref) {
      var parts := Split(ref.value.s[2..]);
      var node := spec;
      for i := 0 to |parts|
        invariant node == Walk(spec, parts[..i])
      {
        assert parts[..i + 1][..i] == parts[..i];
        node := if node.JObject? && Member(node.entries, parts[i]).Some? then Member(node.entries, parts[i]).value else JNull;
      }
      assert parts[..|parts|] == parts;
      r := ResolveSchema(spec, node, depth + 1);
      return;
    }
    return schema.entries;
  }

  /** `types`; its sorting is seen only in the wording of a message. */
  function TypeNames(s: Schema): seq<string> {
    var t := Own(s, "type");
    if t.None? then [] else if t.value.JArray? then Texts(t.value.items) else [Text(t.value)]
  }

  function EnumValues(s: Schema): Option<seq<Json>> {
    var e := Own(s, "enum");
    if e.Some? && e.value.JArray? then Some(e.value.items) else None
  }

  /** A JavaScript `Set` of strings: insertion order, each once. */
  function Distinct(s: seq<string>): (r: seq<string>)
    ensures forall x :: x in r <==> x in s
  {
    if s == [] then []
    else
      var n := |s| - 1;
      var before := Distinct(s[..n]);
      assert s == s[..n] + [s[n]];
      if s[n] in before then before else before + [s[n]]
  }

  function RequiredNames(s: Schema): seq<string> {
    var r := Own(s, "required");
    if r.Some? && r.value.JArray? then Distinct(Texts(r.value.items)) else []
  }

  function Properties(s: Schema): seq<Entry> {
    var p := Own(s, "properties");
    if p.Some? && p.value.JObject? then p.value.entries else []
  }

  /** The base refers to the shared error codes, whose enum is exempt by policy. */
  predicate IsErrorCode(base: Json) {
    base.JObject?
    && var ref := Own(base.entries, "$ref");
       ref.Some? && ref.value.JString?
       && var s := ref.value.s;
          |s| >= 10 && s[|s| - 10..] == "/ErrorCode"
  }

  function Without(xs: seq<Json>, ys: seq<Json>): (r: seq<Json>)
    ensures r == [] <==> forall x :: x in xs ==> x in ys
  {
    if xs == [] then []
    else
      assert xs == [xs[0]] + xs[1..];
      (if xs[0] in ys then [] else [xs[0]]) + Without(xs[1..], ys)
  }

  // ---------------------------- findings ----------------------------

  datatype Finding =
    | TypeChanged(where_: string, from: seq<string>, to: seq<string>)
    | ResponseEnumGained(where_: string, added: seq<Json>)
    | ResponsePropertyRemoved(where_: string)
    | ResponsePropertyNotAlwaysPresent(where_: string)
    | RequestTypeNarrowed(where_: string, from: seq<string>, to: seq<string>)
    | RequestEnumLost(where_: string, removed: seq<Json>)
    | RequestPropertyNewlyRequired(where_: string)

  function OnlyIf(c: bool, f: Finding): seq<Finding> {
    if c then [f] else []
  }

  predicate TypesClash(wide: seq<string>, narrow: seq<string>) {
    |wide| > 0 && |narrow| > 0 && exists t :: t in narrow && t !in wide
  }

  /** The findings of `compareResponse`, in the order in which they are pushed. */
  function Response(bSpec: Json, base: Json, hSpec: Json, head: Json, at: string, depth: nat): seq<Finding>
    decreases 11 - depth, 0, 0
  {
    if depth > 10 then []
    else
      var b, h := Resolve(bSpec, base, 0), Resolve(hSpec, head, 0);
      ResponseHead(base, b, h, at) + ResponseProperties(bSpec, b, hSpec, h, Properties(b), at, depth)
  }

  function ResponseHead(base: Json, b: Schema, h: Schema, at: string): seq<Finding> {
    var be, he := EnumValues(b), EnumValues(h);
    var added := if be.Some? && he.Some? && !IsErrorCode(base) then Without(he.value, be.value) else [];
    OnlyIf(TypesClash(TypeNames(b), TypeNames(h)), TypeChanged(at, TypeNames(b), TypeNames(h)))
    + OnlyIf(added != [], ResponseEnumGained(at, added))
  }

  function ResponseProperties(bSpec: Json, b: Schema, hSpec: Json, h: Schema, es: seq<Entry>, at: string, depth: nat): seq<Finding>
    requires depth <= 10
    decreases 10 - depth, 1, |es|
  {
    if es == [] then []
    else
      var n := |es| - 1;
      ResponseProperties(bSpec, b, hSpec, h, es[..n], at, depth) + ResponseProperty(bSpec, b, hSpec, h, es[n], at, depth)
  }

  function ResponseProperty(bSpec: Json, b: Schema, hSpec: Json, h: Schema, e: Entry, at: string, depth: nat): seq<Finding>
    requires depth <= 10
    decreases 10 - depth, 1, 0
  {
    var hp := Member(Properties(h), e.name);
    var here := at + "." + e.name;
    if hp.None? then [ResponsePropertyRemoved(here)]
    else
      OnlyIf(e.name in RequiredNames(b) && e.name !in RequiredNames(h), ResponsePropertyNotAlwaysPresent(here))
      + Response(bSpec, e.value, hSpec, hp.value, here, depth + 1)
  }

  /** The findings of `compareRequest`, in the order in which they are pushed. */
  function Request(bSpec: Json, base: Json, hSpec: Json, head: Json, at: string, depth: nat): seq<Finding>
    decreases 11 - depth, 0, 0
  {
    if depth > 10 then []
    else
      var b, h := Resolve(bSpec, base, 0), Resolve(hSpec, head, 0);
      RequestHead(b, h, at) + RequestProperties(bSpec, hSpec, h, Properties(b), at, depth)
  }

  function RequestHead(b: Schema, h: Schema, at: string): seq<Finding> {
    var be, he := EnumValues(b), EnumValues(h);
    var removed := if be.Some? && he.Some? then Without(be.value, he.value) else [];
    OnlyIf(TypesClash(TypeNames(h), TypeNames(b)), RequestTypeNarrowed(at, TypeNames(b), TypeNames(h)))
    + OnlyIf(removed != [], RequestEnumLost(at, removed))
    + NewlyRequired(RequiredNames(h), RequiredNames(b), at)
  }

  function NewlyRequired(hreq: seq<string>, breq: seq<string>, at: string): (r: seq<Finding>)
    ensures r == [] <==> forall n :: n in hreq ==> n in breq
  {
    if hreq == [] then []
    else
      var n := |hreq| - 1;
      assert hreq == hreq[..n] + [hreq[n]];
      NewlyRequired(hreq[..n], breq, at) + OnlyIf(hreq[n] !in breq, RequestPropertyNewlyRequired(at + "." + hreq[n]))
  }

  function RequestProperties(bSpec: Json, hSpec: Json, h: Schema, es: seq<Entry>, at: string, depth: nat): seq<Finding>
    requires depth <= 10
    decreases 10 - depth, 1, |es|
  {
    if es == [] then []
    else
      var n := |es| - 1;
      RequestProperties(bSpec, hSpec, h, es[..n], at, depth) + RequestProperty(bSpec, hSpec, h, es[n], at, depth)
  }

  function RequestProperty(bSpec: Json, hSpec: Json, h: Schema, e: Entry, at: string, depth: nat): seq<Finding>
    requires depth <= 10
    decreases 10 - depth, 1, 0
  {
    var hp := Member(Properties(h), e.name);
    if hp.Some? then Request(bSpec, e.value, hSpec, hp.value, at + "." + e.name, depth + 1) else []
  }

  lemma ResponsePropertiesStep(bSpec: Json, b: Schema, hSpec: Json, h: Schema, es: seq<Entry>, i: nat, at: string, depth: nat)
    requires depth <= 10 && i < |es|
    ensures ResponseProperties(bSpec, b, hSpec, h, es[..i + 1], at, depth)
         == ResponseProperties(bSpec, b, hSpec, h, es[..i], at, depth) + ResponseProperty(bSpec, b, hSpec, h, es[i], at, depth)
  {
    hide ResponseProperty;
    assert es[..i + 1][..i] == es[..i];
  }

  lemma RequestPropertiesStep(bSpec: Json, hSpec: Json, h: Schema, es: seq<Entry>, i: nat, at: string, depth: nat)
    requires depth <= 10 && i < |es|
    ensures RequestProperties(bSpec, hSpec, h, es[..i + 1], at, depth)
         == RequestProperties(bSpec, hSpec, h, es[..i], at, depth) + RequestProperty(bSpec, hSpec, h, es[i], at, depth)
  {
    hide RequestProperty;
    assert es[..i + 1][..i] == es[..i];
  }

  lemma NewlyRequiredStep(hreq: seq<string>, breq: seq<string>, i: nat, at: string)
    requires i < |hreq|
    ensures NewlyRequired(hreq[..i + 1], breq, at)
         == NewlyRequired(hreq[..i], breq, at) + (if hreq[i] !in breq then [RequestPropertyNewlyRequired(at + "." + hreq[i])] else [])
  {
    assert hreq[..i + 1][..i] == hreq[..i];
  }

  /** The whole comparison, from the parts in which the checker works it off. */
  lemma ResponseUnfolds(bSpec: Json, base: Json, hSpec: Json, head: Json, at: string, depth: nat)
    ensures depth > 10 ==> Response(bSpec, base, hSpec, head, at, depth) == []
    ensures depth <= 10 ==>
      var b, h := Resolve(bSpec, base, 0), Resolve(hSpec, head, 0);
      Response(bSpec, base, hSpec, head, at, depth)
        == ResponseHead(base, b, h, at) + ResponseProperties(bSpec, b, hSpec, h, Properties(b), at, depth)
  {
    hide Resolve, ResponseHead, ResponseProperties, Properties;
  }

  lemma RequestUnfolds(bSpec: Json, base: Json, hSpec: Json, head: Json, at: string, depth: nat)
    ensures depth > 10 ==> Request(bSpec, base, hSpec, head, at, depth) == []
    ensures depth <= 10 ==>
      var b, h := Resolve(bSpec, base, 0), Resolve(hSpec, head, 0);
      Request(bSpec, base, hSpec, head, at, depth)
        == RequestHead(b, h, at) + RequestProperties(bSpec, hSpec, h, Properties(b), at, depth)
  {
    hide Resolve, RequestHead, RequestProperties, Properties, RequiredNames, NewlyRequired;
  }

  lemma HeadsUnfold(base: Json, b: Schema, h: Schema, at: string)
    ensures var be, he := EnumValues(b), EnumValues(h);
      var added := if be.Some? && he.Some? && !IsErrorCode(base) then Without(he.value, be.value) else [];
      ResponseHead(base, b, h, at)
        == (if TypesClash(TypeNames(b), TypeNames(h)) then [TypeChanged(at, TypeNames(b), TypeNames(h))] else [])
         + (if added != [] then [ResponseEnumGained(at, added)] else [])
    ensures var be, he := EnumValues(b), EnumValues(h);
      var removed := if be.Some? && he.Some? then Without(be.value, he.value) else [];
      RequestHead(b, h, at)
        == (if TypesClash(TypeNames(h), TypeNames(b)) then [RequestTypeNarrowed(at, TypeNames(b), TypeNames(h))] else [])
         + (if removed != [] then [RequestEnumLost(at, removed)] else [])
         + NewlyRequired(RequiredNames(h), RequiredNames(b), at)
  {
    hide RequiredNames, NewlyRequired, EnumValues, TypeNames, TypesClash, Without, IsErrorCode;
  }

  lemma PropertiesUnfold(bSpec: Json, b: Schema, hSpec: Json, h: Schema, e: Entry, at: string, depth: nat)
    requires depth <= 10
    ensures var hp, here := Member(Properties(h), e.name), at + "." + e.name;
      && ResponseProperty(bSpec, b, hSpec, h, e, at, depth)
        == (if hp.None? then [ResponsePropertyRemoved(here)]
            else (if e.name in RequiredNames(b) && e.name !in RequiredNames(h) then [ResponsePropertyNotAlwaysPresent(here)] else [])
                 + Response(bSpec, e.value, hSpec, hp.value, here, depth + 1))
      && RequestProperty(bSpec, hSpec, h, e, at, depth)
        == (if hp.Some? then Request(bSpec, e.value, hSpec, hp.value, here, depth + 1) else [])
  {
    hide Member, Properties, RequiredNames, Response, Request;
  }

  lemma Assoc(a: seq<Finding>, b: seq<Finding>, c: seq<Finding>)
    ensures a + b + c == a + (b + c)
  {
  }

  lemma NothingRequired(breq: seq<string>, at: string)
    ensures NewlyRequired([], breq, at) == []
  {
  }

  lemma NothingYet(bSpec: Json, b: Schema, hSpec: Json, h: Schema, at: string, depth: nat)
    requires depth <= 10
    ensures ResponseProperties(bSpec, b, hSpec, h, [], at, depth) == []
    ensures RequestProperties(bSpec, hSpec, h, [], at, depth) == []
  {
  }

  // ---------------------------- the checker as it runs ----------------------------

  /** The `out` array that every level of the comparison pushes onto. */
  class Report {
    var findings: seq<Finding>

    constructor ()
      ensures findings == []
    {
      findings := [];
    }

    method Push(f: Finding)
      modifies this
      ensures findings == old(findings) + [f]
    {
      findings := findings + [f];
    }

    /** The checks of one response schema before its properties. */
    method ResponseTypeAndEnum(base: Json, b: Schema, h: Schema, at: string)
      modifies this
      ensures findings == old(findings) + ResponseHead(base, b, h, at)
    {
      hide *;
      HeadsUnfold(base, b, h, at);
      var bt, ht := TypeNames(b), TypeNames(h);
      if TypesClash(bt, ht) {
        Push(TypeChanged(at, bt, ht));
      }
      var be, he := EnumValues(b), EnumValues(h);
      if be.Some? && he.Some? && !IsErrorCode(base) {
        var added := Without(he.value, be.value);
        if |added| > 0 {
          Push(ResponseEnumGained(at, added));
        }
      }
    }

    method CompareResponse(bSpec: Json, base: Json, hSpec: Json, head: Json, at: string, depth: nat)
      modifies this
      ensures findings == old(findings) + Response(bSpec, base, hSpec, head, at, depth)
      decreases 11 - depth
    {
      hide *;
      ResponseUnfolds(bSpec, base, hSpec, head, at, depth);
      var b := ResolveSchema(bSpec, base, 0);
      var h := ResolveSchema(hSpec, head, 0);
      if depth > 10 {
        return;
      }
      ResponseTypeAndEnum(base, b, h, at);
      var breq, hreq, hprops, es := RequiredNames(b), RequiredNames(h), Properties(h), Properties(b);
      ghost var before := findings;
      NothingYet(bSpec, b, hSpec, h, at, depth);
      for i := 0 to |es|
        invariant findings == before + ResponseProperties(bSpec, b, hSpec, h, es[..i], at, depth)
      {
        ResponsePropertiesStep(bSpec, b, hSpec, h, es, i, at, depth);
        PropertiesUnfold(bSpec, b, hSpec, h, es[i], at, depth);
        var e := es[i];
        var here := at + "." + e.name;
        var hp := Member(hprops, e.name);
        ghost var was := findings;
        Assoc(before, ResponseProperties(bSpec, b, hSpec, h, es[..i], at, depth), ResponseProperty(bSpec, b, hSpec, h, e, at, depth));
        if hp.None? {
          Push(ResponsePropertyRemoved(here));
          continue;
        }
        ghost var presence := [];
        if e.name in breq && e.name !in hreq {
          Push(ResponsePropertyNotAlwaysPresent(here));
          presence := [ResponsePropertyNotAlwaysPresent(here)];
        }
        assert findings == was + presence;
        CompareResponse(bSpec, e.value, hSpec, hp.value, here, depth + 1);
        Assoc(was, presence, Response(bSpec, e.value, hSpec, hp.value, here, depth + 1));
      }
      assert es[..|es|] == es;
      Assoc(old(findings), ResponseHead(base, b, h, at), ResponseProperties(bSpec, b, hSpec, h, es, at, depth));
    }

    /** The loop over the names the head requires. */
    method PushNewlyRequired(hreq: seq<string>, breq: seq<string>, at: string)
      modifies this
      ensures findings == old(findings) + NewlyRequired(hreq, breq, at)
    {
      hide *;
      NothingRequired(breq, at);
      ghost var before := findings;
      for i := 0 to |hreq|
        invariant findings == before + NewlyRequired(hreq[..i], breq, at)
      {
        NewlyRequiredStep(hreq, breq, i, at);
        if hreq[i] !in breq {
          var f := RequestPropertyNewlyRequired(at + "." + hreq[i]);
          Push(f);
          Assoc(before, NewlyRequired(hreq[..i], breq, at), [f]);
        } else {
          assert NewlyRequired(hreq[..i + 1], breq, at) == NewlyRequired(hreq[..i], breq, at);
        }
      }
      assert hreq[..|hreq|] == hreq;
    }

    /** The checks of one request schema before its properties. */
    method RequestTypeEnumAndRequired(b: Schema, h: Schema, at: string)
      modifies this
      ensures findings == old(findings) + RequestHead(b, h, at)
    {
      hide *;
      HeadsUnfold(JNull, b, h, at);
      ghost var opening := findings;
      ghost var narrowed, lost := [], [];
      var bt, ht := TypeNames(b), TypeNames(h);
      if TypesClash(ht, bt) {
        Push(RequestTypeNarrowed(at, bt, ht));
        narrowed := [RequestTypeNarrowed(at, bt, ht)];
      }
      assert findings == opening + narrowed;
      var be, he := EnumValues(b), EnumValues(h);
      if be.Some? && he.Some? {
        var removed := Without(be.value, he.value);
        if |removed| > 0 {
          Push(RequestEnumLost(at, removed));
          lost := [RequestEnumLost(at, removed)];
        }
      }
      Assoc(opening, narrowed, lost);
      assert findings == opening + (narrowed + lost);
      var breq, hreq := RequiredNames(b), RequiredNames(h);
      PushNewlyRequired(hreq, breq, at);
      Assoc(opening, narrowed + lost, NewlyRequired(hreq, breq, at));
    }

    method CompareRequest(bSpec: Json, base: Json, hSpec: Json, head: Json, at: string, depth: nat)
      modifies this
      ensures findings == old(findings) + Request(bSpec, base, hSpec, head, at, depth)
      decreases 11 - depth
    {
      hide *;
      RequestUnfolds(bSpec, base, hSpec, head, at, depth);
      var b := ResolveSchema(bSpec, base, 0);
      var h := ResolveSchema(hSpec, head, 0);
      if depth > 10 {
        return;
      }
      ghost var opening := findings;
      RequestTypeEnumAndRequired(b, h, at);
      var hprops, es := Properties(h), Properties(b);
      ghost var middle := findings;
      NothingYet(bSpec, b, hSpec, h, at, depth);
      for i := 0 to |es|
        invariant findings == middle + RequestProperties(bSpec, hSpec, h, es[..i], at, depth)
      {
        RequestPropertiesStep(bSpec, hSpec, h, es, i, at, depth);
        PropertiesUnfold(bSpec, b, hSpec, h, es[i], at, depth);
        ghost var done := RequestProperties(bSpec, hSpec, h, es[..i], at, depth);
        var e := es[i];
        var hp := Member(hprops, e.name);
        if hp.Some? {
          Assoc(middle, done, Request(bSpec, e.value, hSpec, hp.value, at + "." + e.name, depth + 1));
          CompareRequest(bSpec, e.value, hSpec, hp.value, at + "." + e.name, depth + 1);
        } else {
          assert RequestProperties(bSpec, hSpec, h, es[..i + 1], at, depth) == done;
        }
      }
      assert es[..|es|] == es;
      Assoc(opening, RequestHead(b, h, at), RequestProperties(bSpec, hSpec, h, es, at, depth));
    }
  }

  // ---------------------------- validity of a value ----------------------------

  /** Section 6.1.1 of JSON Schema Validation 2020-12: what a type name admits. */
  predicate HasType(v: Json, t: string) {
    match v
    case JNull => t == "null"
    case JBool(_) => t == "boolean"
    case JNumber(text) => t == "number" || (t == "integer" && Whole(text))
    case JString(_) => t == "string"
    case JArray(_) => t == "array"
    case JObject(_) => t == "object"
  }

  /** JavaScript prints a fraction with a point or a negative exponent, and `e+` only from 1e21 on. */
  predicate Whole(text: string) {
    '+' in text || ('.' !in text && 'e' !in text)
  }

  /** Instance equality: objects regardless of the order of their entries. */
  ghost predicate Same(a: Json, b: Json)
    decreases a
  {
    if a.JArray? && b.JArray? then
      |a.items| == |b.items| && forall i :: 0 <= i < |a.items| ==> Same(a.items[i], b.items[i])
    else if a.JObject? && b.JObject? then
      forall n: string :: Own(a.entries, n).Some? == Own(b.entries, n).Some?
                          && (Own(a.entries, n).Some? && Own(b.entries, n).Some? ==> Same(Own(a.entries, n).value, Own(b.entries, n).value))
    else a == b
  }

  ghost predicate TypeOk(s: Schema, v: Json) {
    TypeNames(s) == [] || exists t :: t in TypeNames(s) && HasType(v, t)
  }

  /** Section 6.1.2: equal to one of the listed values. */
  ghost predicate EnumOk(s: Schema, v: Json) {
    EnumValues(s).None? || exists x :: x in EnumValues(s).value && Same(x, v)
  }

  /** A value against the keywords `type`, `enum`, `required` (section 6.5.3) and `properties`. */
  ghost predicate Valid(spec: Json, schema: Json, v: Json)
    decreases v
  {
    var s := Resolve(spec, schema, 0);
    && TypeOk(s, v)
    && EnumOk(s, v)
    && (v.JObject? ==>
         && (forall n :: n in RequiredNames(s) ==> Own(v.entries, n).Some?)
         && (forall n: string :: Own(Properties(s), n).Some? && Own(v.entries, n).Some? ==>
               Valid(spec, Own(Properties(s), n).value, Own(v.entries, n).value)))
  }

  /** Following properties the schema declares, the value goes at most `levels` deep. */
  ghost predicate Within(spec: Json, schema: Json, v: Json, levels: nat)
    decreases v
  {
    var s := Resolve(spec, schema, 0);
    v.JObject? ==> forall n: string :: Own(Properties(s), n).Some? && Own(v.entries, n).Some? ==>
      levels > 0 && Within(spec, Own(Properties(s), n).value, Own(v.entries, n).value, levels - 1)
  }

  /** Every property of the value, at every declared level, is declared. */
  ghost predicate OnlyDeclared(spec: Json, schema: Json, v: Json)
    decreases v
  {
    var s := Resolve(spec, schema, 0);
    v.JObject? ==> forall n: string :: Own(v.entries, n).Some? ==>
      && Own(Properties(s), n).Some?
      && OnlyDeclared(spec, Own(Properties(s), n).value, Own(v.entries, n).value)
  }
}
