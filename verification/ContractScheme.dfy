/** What the generator emits for one schema dictionary, given its finished name and pattern tables. */
module ContractScheme {
  import opened Outcome
  import opened JsonSchema
  import opened ContractIr

  type Names = map<Id, string>

  /** `ref.split('/')[-1]`. */
  function LastSegment(ref: string): string {
    if '/' !in ref then ref else LastSegment(ref[1..])
  }

  lemma {:induction false} LastSegmentAfter(prefix: string, name: string)
    requires '/' !in name
    requires prefix == "" || prefix[|prefix| - 1] == '/'
    ensures LastSegment(prefix + name) == name
  {
    if prefix == "" {
      assert prefix + name == name;
    } else {
      assert (prefix + name)[|prefix| - 1] == '/';
      assert (prefix + name)[1..] == prefix[1..] + name;
      LastSegmentAfter(prefix[1..], name);
    }
  }

  /** On a well-formed local reference the generator and the path it spells pick the same name. */
  lemma LastSegmentOfLocalRef(ref: string)
    requires RefName(ref).Some?
    ensures LastSegment(ref) == RefName(ref).value
  {
    assert DEFS_PREFIX + RefName(ref).value == ref;
    LastSegmentAfter(DEFS_PREFIX, RefName(ref).value);
  }

  function CheckName(def: string): string {
    "check_" + def
  }

  function ItemChildren(n: Node): seq<Id>
    requires n.Dict?
  {
    if n.prefixItems.Some? then n.prefixItems.value else One(n.items)
  }

  /** Subschemas the emitter compiles a call to, in emission order. */
  function Children(n: Node): seq<Id> {
    if n.Boolean? then [] else
      ItemChildren(n) + PropertyIds(OrEmpty(n.properties)) + OrEmpty(n.anyOf) + OrEmpty(n.oneOf) + OrEmpty(n.allOf)
  }

  predicate IsRef(n: Node) {
    n.Dict? && n.ref.Some?
  }

  /** `fn_for` accepts the child: a dictionary, and if a reference then a bare, local one. */
  predicate Callable(n: Node) {
    && n.Dict?
    && (n.ref.Some? ==>
          n == BareRef(n.ref.value) && DEFS_PREFIX <= n.ref.value && IsIdentifier(LastSegment(n.ref.value)))
  }

  predicate Supported(t: TypeName) {
    !t.TOther?
  }

  /** `emit_function` accepts the dictionary itself. */
  predicate Emittable(n: Node) {
    && n.Dict?
    && !n.unknownKeyword
    && (match n.kind
        case None => true
        case Some(OneType(t)) => Supported(t)
        case Some(AnyType(ts)) => forall i :: 0 <= i < |ts| ==> Supported(ts[i]))
  }

  /** The function name `fn_for` answers with. */
  function NameOf(s: Schema, names: Names, c: Id): string {
    if c in s.nodes && IsRef(s.nodes[c]) then CheckName(LastSegment(s.nodes[c].ref.value))
    else if c in names then names[c] else ""
  }

  function NamesOf(s: Schema, names: Names, cs: seq<Id>): seq<string> {
    seq(|cs|, i requires 0 <= i < |cs| => NameOf(s, names, cs[i]))
  }

  /** The first constant declared for a pattern. */
  function PatternName(consts: seq<(string, string)>, p: string): string {
    if consts == [] then "" else if consts[0].1 == p then consts[0].0 else PatternName(consts[1..], p)
  }

  predicate HasPattern(consts: seq<(string, string)>, p: string) {
    exists i :: 0 <= i < |consts| && consts[i].1 == p
  }

  predicate IsKind(n: Node, t: TypeName)
    requires n.Dict?
  {
    n.kind == Some(OneType(t))
  }

  function TypePart(n: Node): seq<Stmt>
    requires n.Dict?
  {
    match n.kind
    case None => []
    case Some(OneType(t)) => [CheckOrReturn(TypeIn([t]), Expected([t]))]
    case Some(AnyType(ts)) => [CheckOrReturn(TypeIn(ts), Expected(ts))]
  }

  function LiteralPart(n: Node): seq<Stmt>
    requires n.Dict?
  {
    (if n.konst.Some? then [Check(EqLit(n.konst.value), ExpectedConst(n.konst.value))] else [])
    + (if n.oneOfValues.Some? then [Check(SomeEq(n.oneOfValues.value), NotInEnum)] else [])
  }

  predicate HasNumberKeys(n: Node)
    requires n.Dict?
  {
    n.minimum.Some? || n.maximum.Some? || n.exclusiveMinimum.Some? || n.exclusiveMaximum.Some?
  }

  function NumericPart(n: Node): seq<Stmt>
    requires n.Dict?
  {
    (if n.minimum.Some? then [Check(NotLess(n.minimum.value), Violated("minimum"))] else [])
    + (if n.maximum.Some? then [Check(NotGreater(n.maximum.value), Violated("maximum"))] else [])
    + (if n.exclusiveMinimum.Some? then [Check(NotAtMost(n.exclusiveMinimum.value), Violated("exclusiveMinimum"))]
       else [])
    + (if n.exclusiveMaximum.Some? then [Check(NotAtLeast(n.exclusiveMaximum.value), Violated("exclusiveMaximum"))]
       else [])
  }

  predicate HasStringKeys(n: Node)
    requires n.Dict?
  {
    n.minLength.Some? || n.maxLength.Some? || n.pattern.Some? || n.format.Some?
  }

  function StringPart(consts: seq<(string, string)>, n: Node): seq<Stmt>
    requires n.Dict?
  {
    LengthPart(n)
    + (if n.pattern.Some? then [Check(TestPattern(PatternName(consts, n.pattern.value)), Violated("pattern"))] else [])
    + FormatPart(n)
  }

  function LengthPart(n: Node): seq<Stmt>
    requires n.Dict?
  {
    (if n.minLength.Some? then [Check(StrlenNotLess(n.minLength.value), Violated("minLength"))] else [])
    + (if n.maxLength.Some? then [Check(StrlenNotGreater(n.maxLength.value), Violated("maxLength"))] else [])
  }

  function FormatPart(n: Node): seq<Stmt>
    requires n.Dict?
  {
    if n.format == Some("uuid") then [Check(UuidShaped, Violated("format"))] else []
  }

  predicate HasArrayKeys(n: Node)
    requires n.Dict?
  {
    n.items.Some? || n.prefixItems.Some? || n.minItems.Some? || n.maxItems.Some? || n.uniqueItems.Some?
  }

  function CountPart(n: Node): seq<Stmt>
    requires n.Dict?
  {
    (if n.minItems.Some? then [Check(LengthNotLess(n.minItems.value), Violated("minItems"))] else [])
    + (if n.maxItems.Some? then [Check(LengthNotGreater(n.maxItems.value), Violated("maxItems"))] else [])
    + (if n.uniqueItems == Some(true) then [Check(Unique, Violated("uniqueItems"))] else [])
  }

  function IndexCalls(s: Schema, names: Names, cs: seq<Id>): seq<Stmt> {
    seq(|cs|, i requires 0 <= i < |cs| => CallIndex(i, NameOf(s, names, cs[i])))
  }

  /** `items` is looked at only where `prefixItems` is absent. */
  function ArrayPart(s: Schema, names: Names, n: Node): seq<Stmt>
    requires n.Dict?
  {
    CountPart(n)
    + (if n.prefixItems.Some? then IndexCalls(s, names, n.prefixItems.value)
       else if n.items.Some? then [CallEach(NameOf(s, names, n.items.value))]
       else [])
  }

  predicate HasObjectKeys(n: Node)
    requires n.Dict?
  {
    n.properties.Some? || n.required.Some? || n.additional.Some?
  }

  function Needs(keys: seq<string>): seq<Stmt> {
    seq(|keys|, i requires 0 <= i < |keys| => NeedKey(keys[i]))
  }

  function KeyCalls(s: Schema, names: Names, ps: seq<(string, Id)>): seq<Stmt> {
    seq(|ps|, i requires 0 <= i < |ps| => CallKey(ps[i].0, NameOf(s, names, ps[i].1)))
  }

  function Listed(ps: seq<(string, Id)>): seq<string> {
    seq(|ps|, i requires 0 <= i < |ps| => ps[i].0)
  }

  function ClosedPart(n: Node): seq<Stmt>
    requires n.Dict?
  {
    if n.additional == Some(Forbidden) then [OnlyKeys(Listed(OrEmpty(n.properties)))] else []
  }

  function ObjectPart(s: Schema, names: Names, n: Node): seq<Stmt>
    requires n.Dict?
  {
    Needs(OrEmpty(n.required)) + KeyCalls(s, names, OrEmpty(n.properties)) + ClosedPart(n)
  }

  function Guarded(present: bool, typed: bool, guard: TypeName, part: seq<Stmt>): seq<Stmt> {
    if !present then [] else if typed then part else [When(guard, part)]
  }

  function ChoosePart(s: Schema, names: Names, comb: Combinator, subs: Option<seq<Id>>): seq<Stmt> {
    if subs.Some? then [Choose(comb, NamesOf(s, names, subs.value))] else []
  }

  function Calls(s: Schema, names: Names, cs: seq<Id>): seq<Stmt> {
    seq(|cs|, i requires 0 <= i < |cs| => Call(NameOf(s, names, cs[i])))
  }

  /** The body of the emitted function; `$ref` plays no part in it. */
  function Body(s: Schema, names: Names, consts: seq<(string, string)>, n: Node): seq<Stmt>
    requires n.Dict?
  {
    TypePart(n) + LiteralPart(n)
    + Guarded(HasNumberKeys(n), IsKind(n, TNumber) || IsKind(n, TInteger), TNumber, NumericPart(n))
    + Guarded(HasStringKeys(n), IsKind(n, TString), TString, StringPart(consts, n))
    + Guarded(HasArrayKeys(n), IsKind(n, TArray), TArray, ArrayPart(s, names, n))
    + Guarded(HasObjectKeys(n), IsKind(n, TObject), TObject, ObjectPart(s, names, n))
    + ChoosePart(s, names, AnyOf, n.anyOf) + ChoosePart(s, names, OneOf, n.oneOf)
    + Calls(s, names, OrEmpty(n.allOf))
  }

  /** The dictionary the function called `fn` was emitted for. */
  function SourceOf(funs: seq<Function>, fn: string): Option<Id> {
    if funs == [] then None else if funs[0].name == fn then Some(funs[0].source) else SourceOf(funs[1..], fn)
  }

  predicate DistinctConsts(consts: seq<(string, string)>) {
    forall i, j :: 0 <= i < j < |consts| ==> consts[i].0 != consts[j].0 && consts[i].1 != consts[j].1
  }

  predicate Named(s: Schema, names: Names, c: Id) {
    c in s.nodes && Callable(s.nodes[c]) && (!IsRef(s.nodes[c]) ==> c in names)
  }

  predicate AllNamed(s: Schema, names: Names, cs: seq<Id>) {
    forall i :: 0 <= i < |cs| ==> Named(s, names, cs[i])
  }

  /** Every child of the dictionary has a call target. */
  predicate Wired(s: Schema, names: Names, n: Node) {
    AllNamed(s, names, Children(n))
  }

  /** A function holds the finished translation of its dictionary. */
  predicate Translated(s: Schema, names: Names, consts: seq<(string, string)>, f: Function) {
    && f.source in s.nodes
    && Emittable(s.nodes[f.source])
    && Wired(s, names, s.nodes[f.source])
    && (IsRef(s.nodes[f.source]) ==> IsEntry(s, f.source))
    && (s.nodes[f.source].pattern.Some? ==> HasPattern(consts, s.nodes[f.source].pattern.value))
    && f.body == Body(s, names, consts, s.nodes[f.source])
  }

  /** Names resolve to the functions of the dictionaries they stand for. */
  predicate Resolves(s: Schema, names: Names, funs: seq<Function>) {
    && (forall id :: id in names ==> SourceOf(funs, names[id]) == Some(id))
    && (forall i :: 0 <= i < |s.defs| ==> SourceOf(funs, CheckName(s.defs[i].0)) == Some(s.defs[i].1))
    && SourceOf(funs, "check_root") == Some(s.root)
  }

  predicate Linked(s: Schema, names: Names, p: Program) {
    && DistinctConsts(p.consts)
    && (forall k {:trigger Translated(s, names, p.consts, p.funs[k])} :: 0 <= k < |p.funs| ==>
          Translated(s, names, p.consts, p.funs[k]))
    && Resolves(s, names, p.funs)
  }

  /** The program the generator wrote, whichever names it settled on. */
  ghost predicate CompiledTo(s: Schema, p: Program) {
    exists names: Names :: Linked(s, names, p)
  }
}
