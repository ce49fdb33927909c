/**
 * Schema documents as the generator sees them, a heap of dictionaries with identities, and what
 * they mean: sections 8.2.3 and 10.2-10.3 of JSON Schema Core 2020-12 and section 6 of JSON
 * Schema Validation 2020-12.
 */
module JsonSchema {
  import opened Outcome
  import opened Decimals
  import opened Paths
  import opened Json

  /** Identity of a schema dictionary, Python's `id(node)`. */
  type Id = nat

  datatype TypeName =
    | TString | TNumber | TInteger | TBoolean | TObject | TArray | TNull
    | TOther(name: string)

  datatype TypeKeyword = OneType(t: TypeName) | AnyType(ts: seq<TypeName>)

  datatype Additional = Forbidden | Permitted | Shaped(sub: Id)

  /** One field per keyword; `annotations` covers title, description, default, inner `$defs` and the like. */
  datatype Node =
    | Boolean(accepts: bool)
    | Dict(
        unknownKeyword: bool,
        annotations: bool,
        ref: Option<string>,
        kind: Option<TypeKeyword>,
        konst: Option<Json>,
        oneOfValues: Option<seq<Json>>,
        minimum: Option<real>,
        maximum: Option<real>,
        exclusiveMinimum: Option<real>,
        exclusiveMaximum: Option<real>,
        minLength: Option<nat>,
        maxLength: Option<nat>,
        pattern: Option<string>,
        format: Option<string>,
        minItems: Option<nat>,
        maxItems: Option<nat>,
        uniqueItems: Option<bool>,
        prefixItems: Option<seq<Id>>,
        items: Option<Id>,
        properties: Option<seq<(string, Id)>>,
        required: Option<seq<string>>,
        additional: Option<Additional>,
        anyOf: Option<seq<Id>>,
        oneOf: Option<seq<Id>>,
        allOf: Option<seq<Id>>)

  /** The dictionary without keys, `{}`. */
  const EMPTY: Node :=
    Dict(false, false, None, None, None, None, None, None, None, None, None, None, None, None,
         None, None, None, None, None, None, None, None, None, None, None)

  /** The dictionary whose only key is `$ref`. */
  function BareRef(ref: string): Node {
    Dict(false, false, Some(ref), None, None, None, None, None, None, None, None, None, None, None,
         None, None, None, None, None, None, None, None, None, None, None)
  }

  /** `root` is the top-level dictionary without `$defs` and without the keys the generator drops. */
  datatype Schema = Schema(nodes: map<Id, Node>, defs: seq<(string, Id)>, root: Id)

  /** How regular expressions match is not part of this model. */
  type Matcher = (string, string) -> bool

  const DEFS_PREFIX := "#/$defs/"

  predicate IsLetter(c: char) {
    'A' <= c <= 'Z' || 'a' <= c <= 'z' || c == '_'
  }

  predicate IsIdentifier(s: string) {
    s != "" && IsLetter(s[0]) && forall i :: 0 <= i < |s| ==> IsLetter(s[i]) || '0' <= s[i] <= '9'
  }

  /** The definition a local reference names, by the path it spells. */
  function RefName(ref: string): Option<string> {
    if DEFS_PREFIX <= ref && IsIdentifier(ref[|DEFS_PREFIX|..]) then Some(ref[|DEFS_PREFIX|..]) else None
  }

  function DefNamed(defs: seq<(string, Id)>, name: string): Option<Id> {
    if defs == [] then None
    else if defs[0].0 == name then Some(defs[0].1)
    else DefNamed(defs[1..], name)
  }

  function OrEmpty<T>(o: Option<seq<T>>): seq<T> {
    if o.Some? then o.value else []
  }

  function One<T>(o: Option<T>): seq<T> {
    if o.Some? then [o.value] else []
  }

  function PropertyIds(ps: seq<(string, Id)>): seq<Id> {
    seq(|ps|, i requires 0 <= i < |ps| => ps[i].1)
  }

  function PropertyNames(ps: seq<(string, Id)>): set<string> {
    set i | 0 <= i < |ps| :: ps[i].0
  }

  /** The subschema under a key that holds one. */
  function Single(n: Node, key: string): Option<Id> {
    if n.Boolean? then None
    else if key == "items" then n.items
    else if key == "additionalProperties" && n.additional.Some? && n.additional.value.Shaped? then
      Some(n.additional.value.sub)
    else None
  }

  function Element(xs: seq<Id>, index: string): Option<Id> {
    if index != "" && AllDigits(index) && (index[0] != '0' || |index| == 1) && Parse(index) < |xs| then
      Some(xs[Parse(index)])
    else None
  }

  /** The subschema under a key that holds several. */
  function Member(n: Node, key: string, name: string): Option<Id> {
    if n.Boolean? then None
    else if key == "properties" then DefNamed(OrEmpty(n.properties), name)
    else if key == "prefixItems" then Element(OrEmpty(n.prefixItems), name)
    else if key == "anyOf" then Element(OrEmpty(n.anyOf), name)
    else if key == "oneOf" then Element(OrEmpty(n.oneOf), name)
    else if key == "allOf" then Element(OrEmpty(n.allOf), name)
    else None
  }

  function Walk(s: Schema, id: Id, path: seq<string>): Option<Id>
    decreases |path|
  {
    if path == [] then Some(id)
    else if id !in s.nodes then None
    else if Single(s.nodes[id], path[0]).Some? then Walk(s, Single(s.nodes[id], path[0]).value, path[1..])
    else if |path| == 1 || Member(s.nodes[id], path[0], path[1]).None? then None
    else Walk(s, Member(s.nodes[id], path[0], path[1]).value, path[2..])
  }

  /** Where a reference leads: a JSON Pointer (RFC 6901) written as a fragment. */
  function Target(s: Schema, ref: string): Option<Id> {
    var parts := Parts(ref);
    if parts[0] != "#" then None
    else if |parts| >= 3 && parts[1] == "$defs" then
      var d := DefNamed(s.defs, parts[2]);
      if d.None? then None else Walk(s, d.value, parts[3..])
    else Walk(s, s.root, parts[1..])
  }

  lemma ThreeParts(a: string, b: string, c: string)
    requires '/' !in a && '/' !in b && '/' !in c
    ensures Parts(a + "/" + (b + "/" + c)) == [a, b, c]
  {
    PartsJoined(a, b + "/" + c);
    PartsJoined(b, c);
  }

  lemma PlainParts(ref: string)
    requires RefName(ref).Some?
    ensures Parts(ref) == ["#", "$defs", RefName(ref).value]
  {
    var name := RefName(ref).value;
    assert ref == DEFS_PREFIX + name;
    assert ref == "#" + "/" + ("$defs" + "/" + name);
    ThreeParts("#", "$defs", name);
  }

  /** A plain local reference leads to the definition it names. */
  lemma PlainTarget(s: Schema, ref: string)
    requires RefName(ref).Some?
    ensures Target(s, ref) == DefNamed(s.defs, RefName(ref).value)
  {
    PlainParts(ref);
  }

  /** Every subschema a dictionary holds directly. */
  function Subschemas(n: Node): seq<Id> {
    if n.Boolean? then [] else
      OrEmpty(n.prefixItems) + One(n.items) + PropertyIds(OrEmpty(n.properties))
      + (if n.additional.Some? && n.additional.value.Shaped? then [n.additional.value.sub] else [])
      + OrEmpty(n.anyOf) + OrEmpty(n.oneOf) + OrEmpty(n.allOf)
  }

  /** Subschemas applied to the same instance location. */
  function InPlace(s: Schema, n: Node): seq<Id> {
    if n.Boolean? then [] else
      OrEmpty(n.anyOf) + OrEmpty(n.oneOf) + OrEmpty(n.allOf)
      + (if n.ref.Some? then One(Target(s, n.ref.value)) else [])
  }

  /** The dictionaries the generator starts from. */
  predicate IsEntry(s: Schema, id: Id) {
    id == s.root || exists i :: 0 <= i < |s.defs| && s.defs[i].1 == id
  }

  /** Identities resolve. */
  predicate Resolved(s: Schema) {
    && s.root in s.nodes
    && (forall i :: 0 <= i < |s.defs| ==> s.defs[i].1 in s.nodes)
    && (forall id {:trigger Subschemas(s.nodes[id])} :: id in s.nodes ==>
          forall c :: c in Subschemas(s.nodes[id]) ==> c in s.nodes)
  }

  /** A loaded document: dictionary keys are unique, and being a tree it has no second way to a definition body or to
      the root. */
  predicate Loaded(s: Schema) {
    && Resolved(s)
    && (forall i :: 0 <= i < |s.defs| ==> s.defs[i].1 != s.root)
    && (forall i, j :: 0 <= i < j < |s.defs| ==> s.defs[i].0 != s.defs[j].0 && s.defs[i].1 != s.defs[j].1)
    && (forall id {:trigger Subschemas(s.nodes[id])} :: id in s.nodes ==>
          forall c :: c in Subschemas(s.nodes[id]) ==> !IsEntry(s, c))
  }

  lemma {:induction false} DefNamedIs(defs: seq<(string, Id)>, name: string)
    ensures var d := DefNamed(defs, name);
      if d.Some? then exists i :: 0 <= i < |defs| && defs[i] == (name, d.value)
      else forall i :: 0 <= i < |defs| ==> defs[i].0 != name
  {
    if defs != [] && defs[0].0 != name {
      DefNamedIs(defs[1..], name);
      var d := DefNamed(defs[1..], name);
      if d.Some? {
        var i :| 0 <= i < |defs[1..]| && defs[1..][i] == (name, d.value);
        assert defs[i + 1] == (name, d.value);
      } else {
        assert forall i :: 1 <= i < |defs| ==> defs[i] == defs[1..][i - 1];
      }
    } else if defs != [] {
      assert defs[0] == (name, defs[0].1);
    }
  }

  type Rank = map<Id, nat>

  /** No cycle through in-place applicators: some rank drops along each of them. */
  predicate Ranked(s: Schema, rank: Rank) {
    && Resolved(s)
    && (forall id :: id in s.nodes ==> id in rank)
    && (forall id {:trigger InPlace(s, s.nodes[id])} :: id in s.nodes ==> forall c :: c in InPlace(s, s.nodes[id]) ==>
          c in s.nodes && rank[c] < rank[id])
  }

  // ----- The meaning of each keyword -----

  predicate HasType(v: Json, t: TypeName) {
    match t
    case TString => v.Str?
    case TNumber => v.Num?
    case TInteger => v.Num? && v.n == v.n.Floor as real
    case TBoolean => v.Bool?
    case TObject => v.Obj?
    case TArray => v.Arr?
    case TNull => v.Null?
    case TOther(_) => false
  }

  predicate TypeHolds(k: TypeKeyword, v: Json) {
    match k
    case OneType(t) => HasType(v, t)
    case AnyType(ts) => exists i :: 0 <= i < |ts| && HasType(v, ts[i])
  }

  predicate InEnumeration(v: Json, lits: seq<Json>) {
    exists i :: 0 <= i < |lits| && Same(v, lits[i])
  }

  predicate NumberHolds(n: Node, x: real)
    requires n.Dict?
  {
    && (n.minimum.Some? ==> x >= n.minimum.value)
    && (n.maximum.Some? ==> x <= n.maximum.value)
    && (n.exclusiveMinimum.Some? ==> x > n.exclusiveMinimum.value)
    && (n.exclusiveMaximum.Some? ==> x < n.exclusiveMaximum.value)
  }

  predicate IsHex(c: char) {
    '0' <= c <= '9' || 'a' <= c <= 'f' || 'A' <= c <= 'F'
  }

  /** Hyphens at 8, 13, 18 and 23, hexadecimal digits elsewhere. */
  predicate IsUuid(s: string) {
    |s| == 36 && forall i :: 0 <= i < 36 ==> if i in {8, 13, 18, 23} then s[i] == '-' else IsHex(s[i])
  }

  /** Only the format the pinned format checker registers is asserted. */
  predicate StringHolds(m: Matcher, n: Node, s: string)
    requires n.Dict?
  {
    && (n.minLength.Some? ==> |s| >= n.minLength.value)
    && (n.maxLength.Some? ==> |s| <= n.maxLength.value)
    && (n.pattern.Some? ==> m(n.pattern.value, s))
    && (n.format == Some("uuid") ==> IsUuid(s))
  }

  predicate CountHolds(n: Node, xs: seq<Json>)
    requires n.Dict?
  {
    && (n.minItems.Some? ==> |xs| >= n.minItems.value)
    && (n.maxItems.Some? ==> |xs| <= n.maxItems.value)
    && (n.uniqueItems == Some(true) ==> AllDistinct(xs))
  }

  /** Keywords whose verdict needs no subschema. */
  predicate LocalHolds(m: Matcher, n: Node, v: Json)
    requires n.Dict?
  {
    && (n.kind.Some? ==> TypeHolds(n.kind.value, v))
    && (n.konst.Some? ==> Same(v, n.konst.value))
    && (n.oneOfValues.Some? ==> InEnumeration(v, n.oneOfValues.value))
    && (v.Num? ==> NumberHolds(n, v.n))
    && (v.Str? ==> StringHolds(m, n, v.s))
    && (v.Arr? ==> CountHolds(n, v.items))
    && (v.Obj? ==> forall i :: 0 <= i < |OrEmpty(n.required)| ==> HasKey(v.fields, n.required.value[i]))
    && (v.Obj? && n.additional == Some(Forbidden) ==>
          forall i :: 0 <= i < |v.fields| ==> v.fields[i].key in PropertyNames(OrEmpty(n.properties)))
  }

  /** Validity of an instance against a schema dictionary. */
  ghost predicate Holds(s: Schema, rank: Rank, m: Matcher, id: Id, v: Json)
    requires Ranked(s, rank) && id in s.nodes
    decreases Size(v), rank[id], 2
  {
    var n := s.nodes[id];
    if n.Boolean? then n.accepts else
      && LocalHolds(m, n, v)
      && ArrayHolds(s, rank, m, id, v)
      && ObjectHolds(s, rank, m, id, v)
      && InPlaceHolds(s, rank, m, id, v)
  }

  ghost predicate ArrayHolds(s: Schema, rank: Rank, m: Matcher, id: Id, v: Json)
    requires Ranked(s, rank) && id in s.nodes && s.nodes[id].Dict?
    decreases Size(v), rank[id], 0
  {
    var n := s.nodes[id];
    v.Arr? ==>
      var prefix := OrEmpty(n.prefixItems);
      && (forall i :: 0 <= i < |prefix| && i < |v.items| ==>
            assert prefix[i] in Subschemas(n);
            Holds(s, rank, m, prefix[i], v.items[i]))
      && (n.items.Some? ==> forall i :: |prefix| <= i < |v.items| ==>
            assert n.items.value in Subschemas(n);
            Holds(s, rank, m, n.items.value, v.items[i]))
  }

  ghost predicate ObjectHolds(s: Schema, rank: Rank, m: Matcher, id: Id, v: Json)
    requires Ranked(s, rank) && id in s.nodes && s.nodes[id].Dict?
    decreases Size(v), rank[id], 0
  {
    var n := s.nodes[id];
    v.Obj? ==>
      var props := OrEmpty(n.properties);
      && (forall i :: 0 <= i < |props| && HasKey(v.fields, props[i].0) ==>
            assert PropertyIds(props)[i] in Subschemas(n);
            Holds(s, rank, m, props[i].1, Get(v.fields, props[i].0)))
      && (n.additional.Some? && n.additional.value.Shaped? ==>
            forall i :: 0 <= i < |v.fields| && v.fields[i].key !in PropertyNames(props) ==>
              assert n.additional.value.sub in Subschemas(n);
              Holds(s, rank, m, n.additional.value.sub, v.fields[i].val))
  }

  /** Verdict of each in-place subschema of `id`, in order. */
  ghost function Verdicts(s: Schema, rank: Rank, m: Matcher, id: Id, subs: seq<Id>, v: Json): (r: seq<bool>)
    requires Ranked(s, rank) && id in s.nodes
    requires forall c :: c in subs ==> c in InPlace(s, s.nodes[id])
    ensures |r| == |subs|
    decreases Size(v), rank[id], 0
  {
    seq(|subs|, i requires 0 <= i < |subs| => assert subs[i] in subs; Holds(s, rank, m, subs[i], v))
  }

  predicate Any(verdicts: seq<bool>) {
    exists i :: 0 <= i < |verdicts| && verdicts[i]
  }

  predicate All(verdicts: seq<bool>) {
    forall i :: 0 <= i < |verdicts| ==> verdicts[i]
  }

  predicate ExactlyOne(verdicts: seq<bool>) {
    exists i :: 0 <= i < |verdicts| && verdicts[i] && forall j :: 0 <= j < |verdicts| && verdicts[j] ==> j == i
  }

  ghost predicate InPlaceHolds(s: Schema, rank: Rank, m: Matcher, id: Id, v: Json)
    requires Ranked(s, rank) && id in s.nodes && s.nodes[id].Dict?
    decreases Size(v), rank[id], 1
  {
    var n := s.nodes[id];
    && (n.ref.Some? ==> Target(s, n.ref.value).Some? && All(Verdicts(s, rank, m, id, One(Target(s, n.ref.value)), v)))
    && (n.anyOf.Some? ==> Any(Verdicts(s, rank, m, id, n.anyOf.value, v)))
    && (n.oneOf.Some? ==> ExactlyOne(Verdicts(s, rank, m, id, n.oneOf.value, v)))
    && (n.allOf.Some? ==> All(Verdicts(s, rank, m, id, n.allOf.value, v)))
  }
}
