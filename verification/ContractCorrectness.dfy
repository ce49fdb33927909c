/** Compiler correctness: the emitted checks report nothing exactly on the valid instances. */
module ContractCorrectness {
  import opened Outcome
  import opened Json
  import opened JsonSchema
  import opened ContractIr
  import opened ContractScheme
  import opened ContractRuns
  import opened ContractParts

  /** What the translation of one dictionary drops or confuses, and the document must not use. */
  predicate CleanNode(s: Schema, n: Node) {
    n.Dict? ==>
      && !(n.prefixItems.Some? && n.items.Some?)
      && !(n.additional.Some? && n.additional.value.Shaped?)
      && n.kind != Some(AnyType([]))
      && (n.ref.Some? ==> RefName(n.ref.value).Some? && Target(s, n.ref.value).Some?)
  }

  predicate Clean(s: Schema) {
    && (forall id :: id in s.nodes ==> CleanNode(s, s.nodes[id]))
    && (forall id :: id in s.nodes && IsEntry(s, id) ==> !IsRef(s.nodes[id]))
  }

  /** A linked program beside the meaning of its document; `top` bounds the ranks. */
  datatype Link = Link(s: Schema, rank: Rank, m: Matcher, names: Names, p: Program, top: nat)

  predicate Proper(c: Link) {
    && Ranked(c.s, c.rank)
    && Clean(c.s)
    && Linked(c.s, c.names, c.p)
    && (forall id :: id in c.rank ==> c.rank[id] < c.top)
  }

  /** Call depth that suffices for dictionary `id` on `v`. */
  function Depth(c: Link, id: Id, v: Json): nat
    requires id in c.rank
  {
    Size(v) * c.top + c.rank[id]
  }

  lemma SmallerProduct(a: nat, b: nat, top: nat, x: nat, y: nat)
    requires a < b && x < top
    ensures a * top + x < b * top + y
  {
    var d := b - a - 1;
    assert b * top == d * top + a * top + top;
  }

  predicate Enough(c: Link, fuel: nat, fn: string, v: Json) {
    && SourceOf(c.p.funs, fn).Some?
    && SourceOf(c.p.funs, fn).value in c.s.nodes
    && SourceOf(c.p.funs, fn).value in c.rank
    && fuel > Depth(c, SourceOf(c.p.funs, fn).value, v)
  }

  /** The declarative verdict on the dictionary a function was emitted for. */
  ghost function VerdictAt(c: Link, fuel: nat): Verdict
    requires Ranked(c.s, c.rank)
  {
    (fn: string, v: Json) =>
      if Enough(c, fuel, fn, v) then Some(Holds(c.s, c.rank, c.m, SourceOf(c.p.funs, fn).value, v)) else None
  }

  ghost function FrameAt(c: Link, fuel: nat): Frame
    requires Ranked(c.s, c.rank)
  {
    Frame(c.p, c.m, fuel, VerdictAt(c, fuel))
  }

  /** A bare reference holds when its target does. */
  lemma BareRefHolds(s: Schema, rank: Rank, m: Matcher, id: Id, v: Json)
    requires Ranked(s, rank) && id in s.nodes && IsRef(s.nodes[id])
    requires s.nodes[id] == BareRef(s.nodes[id].ref.value) && Target(s, s.nodes[id].ref.value).Some?
    ensures var t := Target(s, s.nodes[id].ref.value).value;
      && t in s.nodes && t in InPlace(s, s.nodes[id])
      && (Holds(s, rank, m, id, v) <==> Holds(s, rank, m, t, v))
  {
    var t := Target(s, s.nodes[id].ref.value).value;
    assert One(Target(s, s.nodes[id].ref.value)) == [t];
    assert t in InPlace(s, s.nodes[id]);
    var vs := Verdicts(s, rank, m, id, [t], v);
    assert vs[0] == Holds(s, rank, m, t, v);
    assert All(vs) <==> vs[0];
  }

  /** The value a child is applied to: the same one through an in-place keyword, or a smaller one. */
  predicate Descends(c: Link, id: Id, v: Json, child: Id, w: Json)
    requires id in c.s.nodes
  {
    Size(w) < Size(v) || (w == v && child in InPlace(c.s, c.s.nodes[id]))
  }

  lemma ChildDepth(c: Link, id: Id, v: Json, child: Id, w: Json)
    requires Proper(c) && id in c.s.nodes && child in c.s.nodes && Descends(c, id, v, child, w)
    ensures Depth(c, child, w) < Depth(c, id, v)
  {
    if Size(w) < Size(v) {
      SmallerProduct(Size(w), Size(v), c.top, c.rank[child], c.rank[id]);
    }
  }

  /** Calling the name compiled for a child gives the child's own verdict. */
  lemma ChildCall(c: Link, fuel: nat, id: Id, v: Json, child: Id, w: Json)
    requires Proper(c) && id in c.s.nodes && Named(c.s, c.names, child)
    requires fuel >= Depth(c, id, v) && Descends(c, id, v, child, w)
    ensures Callee(FrameAt(c, fuel), NameOf(c.s, c.names, child), w)
    ensures Says(FrameAt(c, fuel), NameOf(c.s, c.names, child), w) <==> Holds(c.s, c.rank, c.m, child, w)
  {
    var n := c.s.nodes[child];
    ChildDepth(c, id, v, child, w);
    if IsRef(n) {
      assert CleanNode(c.s, n);
      var t := Target(c.s, n.ref.value).value;
      BareRefHolds(c.s, c.rank, c.m, child, w);
      RefCallName(c, child);
      ChildDepth(c, child, w, t, w);
      CallKnown(c, fuel, NameOf(c.s, c.names, child), t, w);
    } else {
      CallKnown(c, fuel, NameOf(c.s, c.names, child), child, w);
    }
  }

  lemma CallKnown(c: Link, fuel: nat, fn: string, id: Id, w: Json)
    requires Ranked(c.s, c.rank) && id in c.s.nodes
    requires SourceOf(c.p.funs, fn) == Some(id) && fuel > Depth(c, id, w)
    ensures Callee(FrameAt(c, fuel), fn, w)
    ensures Says(FrameAt(c, fuel), fn, w) <==> Holds(c.s, c.rank, c.m, id, w)
  {
  }

  lemma RefCallName(c: Link, child: Id)
    requires Proper(c) && child in c.s.nodes && IsRef(c.s.nodes[child])
    requires RefName(c.s.nodes[child].ref.value).Some? && Target(c.s, c.s.nodes[child].ref.value).Some?
    ensures SourceOf(c.p.funs, NameOf(c.s, c.names, child)) == Target(c.s, c.s.nodes[child].ref.value)
  {
    var ref := c.s.nodes[child].ref.value;
    LastSegmentOfLocalRef(ref);
    PlainTarget(c.s, ref);
    DefNamedIs(c.s.defs, RefName(ref).value);
    var i :| 0 <= i < |c.s.defs| && c.s.defs[i] == (RefName(ref).value, Target(c.s, ref).value);
    assert SourceOf(c.p.funs, CheckName(c.s.defs[i].0)) == Some(c.s.defs[i].1);
  }

  /** The standing assumptions at one dictionary. */
  predicate At(c: Link, fuel: nat, id: Id, v: Json) {
    && Proper(c)
    && id in c.s.nodes && c.s.nodes[id].Dict?
    && Wired(c.s, c.names, c.s.nodes[id])
    && fuel >= Depth(c, id, v)
  }

  lemma ItemCall(c: Link, fuel: nat, id: Id, v: Json, i: nat)
    requires At(c, fuel, id, v) && v.Arr? && i < |v.items|
    requires ItemFn(c.s, c.names, c.s.nodes[id], i).Some?
    ensures var n := c.s.nodes[id];
      var child := if n.prefixItems.Some? then n.prefixItems.value[i] else n.items.value;
      var fn := ItemFn(c.s, c.names, n, i).value;
      && child in Subschemas(n) && child in c.s.nodes
      && Callee(FrameAt(c, fuel), fn, v.items[i])
      && (Says(FrameAt(c, fuel), fn, v.items[i]) <==> Holds(c.s, c.rank, c.m, child, v.items[i]))
  {
    var n := c.s.nodes[id];
    var child := if n.prefixItems.Some? then n.prefixItems.value[i] else n.items.value;
    assert Children(n)[if n.prefixItems.Some? then i else 0] == child;
    ChildCall(c, fuel, id, v, child, v.items[i]);
  }

  lemma ArrayBody(c: Link, fuel: nat, id: Id, v: Json)
    requires At(c, fuel, id, v) && v.Arr?
    ensures Means(FrameAt(c, fuel), ArrayPart(c.s, c.names, c.s.nodes[id]), v,
                  CountHolds(c.s.nodes[id], v.items) && ArrayHolds(c.s, c.rank, c.m, id, v))
  {
    var n, f := c.s.nodes[id], FrameAt(c, fuel);
    forall i | 0 <= i < |v.items| && ItemFn(c.s, c.names, n, i).Some?
      ensures Callee(f, ItemFn(c.s, c.names, n, i).value, v.items[i])
    {
      ItemCall(c, fuel, id, v, i);
    }
    ArrayMeaning(f, c.s, c.names, n, v);
    ItemsAgree(c, fuel, id, v);
  }

  lemma ItemsLoaded(c: Link, fuel: nat, id: Id, v: Json)
    requires At(c, fuel, id, v)
    ensures var n := c.s.nodes[id];
      && (forall i :: 0 <= i < |OrEmpty(n.prefixItems)| ==> n.prefixItems.value[i] in c.s.nodes)
      && (n.items.Some? ==> n.items.value in c.s.nodes)
  {
    var n := c.s.nodes[id];
    assert forall i :: 0 <= i < |OrEmpty(n.prefixItems)| ==> n.prefixItems.value[i] in Subschemas(n);
    assert n.items.Some? ==> One(n.items)[0] in Subschemas(n);
  }

  lemma ItemsAgree(c: Link, fuel: nat, id: Id, v: Json)
    requires At(c, fuel, id, v) && v.Arr?
    ensures ItemsSay(FrameAt(c, fuel), c.s, c.names, c.s.nodes[id], v) <==> ArrayHolds(c.s, c.rank, c.m, id, v)
  {
    var n, f := c.s.nodes[id], FrameAt(c, fuel);
    assert CleanNode(c.s, n);
    ItemsLoaded(c, fuel, id, v);
    var prefix := OrEmpty(n.prefixItems);
    forall i | 0 <= i < |v.items|
      ensures n.prefixItems.Some? && i < |prefix| ==>
        (Says(f, ItemFn(c.s, c.names, n, i).value, v.items[i]) <==> Holds(c.s, c.rank, c.m, prefix[i], v.items[i]))
      ensures n.items.Some? ==>
        (Says(f, ItemFn(c.s, c.names, n, i).value, v.items[i]) <==>
         Holds(c.s, c.rank, c.m, n.items.value, v.items[i]))
    {
      if ItemFn(c.s, c.names, n, i).Some? {
        ItemCall(c, fuel, id, v, i);
      }
    }
  }

  lemma PropertyIsChild(n: Node, i: nat)
    requires n.Dict? && i < |OrEmpty(n.properties)|
    ensures OrEmpty(n.properties)[i].1 in Children(n) && OrEmpty(n.properties)[i].1 in Subschemas(n)
  {
    var ids := PropertyIds(OrEmpty(n.properties));
    assert ids[i] == OrEmpty(n.properties)[i].1;
    assert ids[i] in ids;
  }

  lemma PropertyCall(c: Link, fuel: nat, id: Id, v: Json, i: nat)
    requires At(c, fuel, id, v) && v.Obj? && i < |OrEmpty(c.s.nodes[id].properties)|
    requires HasKey(v.fields, OrEmpty(c.s.nodes[id].properties)[i].0)
    ensures var (key, child) := OrEmpty(c.s.nodes[id].properties)[i];
      var fn := NameOf(c.s, c.names, child);
      && child in Subschemas(c.s.nodes[id]) && child in c.s.nodes
      && Callee(FrameAt(c, fuel), fn, Get(v.fields, key))
      && (Says(FrameAt(c, fuel), fn, Get(v.fields, key)) <==> Holds(c.s, c.rank, c.m, child, Get(v.fields, key)))
  {
    var (key, child) := OrEmpty(c.s.nodes[id].properties)[i];
    PropertyIsChild(c.s.nodes[id], i);
    var k :| 0 <= k < |Children(c.s.nodes[id])| && Children(c.s.nodes[id])[k] == child;
    ChildCall(c, fuel, id, v, child, Get(v.fields, key));
  }

  lemma ObjectBody(c: Link, fuel: nat, id: Id, v: Json)
    requires At(c, fuel, id, v) && v.Obj?
    ensures Means(FrameAt(c, fuel), ObjectPart(c.s, c.names, c.s.nodes[id]), v,
                  RequiredPresent(c.s.nodes[id], v) && Closed(c.s.nodes[id], v)
                  && ObjectHolds(c.s, c.rank, c.m, id, v))
  {
    var n, f := c.s.nodes[id], FrameAt(c, fuel);
    assert CleanNode(c.s, n);
    var ps := OrEmpty(n.properties);
    forall i | 0 <= i < |ps| && HasKey(v.fields, ps[i].0)
      ensures Callee(f, NameOf(c.s, c.names, ps[i].1), Get(v.fields, ps[i].0))
      ensures ps[i].1 in Subschemas(n) && ps[i].1 in c.s.nodes
      ensures Says(f, NameOf(c.s, c.names, ps[i].1), Get(v.fields, ps[i].0)) <==>
        Holds(c.s, c.rank, c.m, ps[i].1, Get(v.fields, ps[i].0))
    {
      PropertyCall(c, fuel, id, v, i);
    }
    ObjectMeaning(f, c.s, c.names, n, v);
    assert PropertiesSay(f, c.s, c.names, n, v) <==> ObjectHolds(c.s, c.rank, c.m, id, v);
  }

  lemma InPlaceVerdicts(c: Link, fuel: nat, id: Id, v: Json, subs: seq<Id>)
    requires At(c, fuel, id, v)
    requires forall i :: 0 <= i < |subs| ==>
      subs[i] in InPlace(c.s, c.s.nodes[id]) && subs[i] in Children(c.s.nodes[id])
    ensures forall i :: 0 <= i < |subs| ==> Callee(FrameAt(c, fuel), NamesOf(c.s, c.names, subs)[i], v)
    ensures VerdictsOf(FrameAt(c, fuel), NamesOf(c.s, c.names, subs), v) == Verdicts(c.s, c.rank, c.m, id, subs, v)
  {
    forall i | 0 <= i < |subs|
      ensures Callee(FrameAt(c, fuel), NamesOf(c.s, c.names, subs)[i], v)
      ensures VerdictsOf(FrameAt(c, fuel), NamesOf(c.s, c.names, subs), v)[i] ==
        Verdicts(c.s, c.rank, c.m, id, subs, v)[i]
    {
      var k :| 0 <= k < |Children(c.s.nodes[id])| && Children(c.s.nodes[id])[k] == subs[i];
      ChildCall(c, fuel, id, v, subs[i], v);
    }
  }

  lemma CombinatorBody(c: Link, fuel: nat, id: Id, v: Json)
    requires At(c, fuel, id, v) && !IsRef(c.s.nodes[id])
    ensures var n := c.s.nodes[id];
      Means(FrameAt(c, fuel),
            ChoosePart(c.s, c.names, AnyOf, n.anyOf) + ChoosePart(c.s, c.names, OneOf, n.oneOf)
            + Calls(c.s, c.names, OrEmpty(n.allOf)),
            v, InPlaceHolds(c.s, c.rank, c.m, id, v))
  {
    var n, f := c.s.nodes[id], FrameAt(c, fuel);
    InPlaceVerdicts(c, fuel, id, v, OrEmpty(n.anyOf));
    InPlaceVerdicts(c, fuel, id, v, OrEmpty(n.oneOf));
    InPlaceVerdicts(c, fuel, id, v, OrEmpty(n.allOf));
    ChooseMeaning(f, c.s, c.names, AnyOf, n.anyOf, v);
    ChooseMeaning(f, c.s, c.names, OneOf, n.oneOf, v);
    CallsMeaning(f, c.s, c.names, OrEmpty(n.allOf), v);
    Concat(f, ChoosePart(c.s, c.names, AnyOf, n.anyOf), ChoosePart(c.s, c.names, OneOf, n.oneOf), v);
    Concat(f, ChoosePart(c.s, c.names, AnyOf, n.anyOf) + ChoosePart(c.s, c.names, OneOf, n.oneOf),
           Calls(c.s, c.names, OrEmpty(n.allOf)), v);
  }

  /** The four type-guarded sections. */
  function Sections(c: Link, n: Node): seq<Stmt>
    requires n.Dict?
  {
    Guarded(HasNumberKeys(n), IsKind(n, TNumber) || IsKind(n, TInteger), TNumber, NumericPart(n))
    + Guarded(HasStringKeys(n), IsKind(n, TString), TString, StringPart(c.p.consts, n))
    + Guarded(HasArrayKeys(n), IsKind(n, TArray), TArray, ArrayPart(c.s, c.names, n))
    + Guarded(HasObjectKeys(n), IsKind(n, TObject), TObject, ObjectPart(c.s, c.names, n))
  }

  ghost predicate SectionsHold(c: Link, id: Id, v: Json)
    requires Ranked(c.s, c.rank) && id in c.s.nodes && c.s.nodes[id].Dict?
  {
    var n := c.s.nodes[id];
    && (v.Num? ==> NumberHolds(n, v.n))
    && (v.Str? ==> StringHolds(c.m, n, v.s))
    && (v.Arr? ==> CountHolds(n, v.items) && ArrayHolds(c.s, c.rank, c.m, id, v))
    && (v.Obj? ==> RequiredPresent(n, v) && Closed(n, v) && ObjectHolds(c.s, c.rank, c.m, id, v))
  }

  lemma ScalarSections(c: Link, fuel: nat, id: Id, v: Json)
    requires At(c, fuel, id, v)
    requires c.s.nodes[id].kind.Some? ==> TypeHolds(c.s.nodes[id].kind.value, v)
    requires c.s.nodes[id].pattern.Some? ==> HasPattern(c.p.consts, c.s.nodes[id].pattern.value)
    ensures var n := c.s.nodes[id];
      && Means(FrameAt(c, fuel),
               Guarded(HasNumberKeys(n), IsKind(n, TNumber) || IsKind(n, TInteger), TNumber, NumericPart(n)),
               v, v.Num? ==> NumberHolds(n, v.n))
      && Means(FrameAt(c, fuel), Guarded(HasStringKeys(n), IsKind(n, TString), TString, StringPart(c.p.consts, n)),
               v, v.Str? ==> StringHolds(c.m, n, v.s))
  {
    var n, f := c.s.nodes[id], FrameAt(c, fuel);
    if v.Num? { NumericMeaning(f, n, v); }
    if v.Str? { StringMeaning(f, n, v); }
    GuardedMeaning(f, HasNumberKeys(n), IsKind(n, TNumber) || IsKind(n, TInteger), TNumber, NumericPart(n), v,
                   v.Num? && NumberHolds(n, v.n));
    GuardedMeaning(f, HasStringKeys(n), IsKind(n, TString), TString, StringPart(c.p.consts, n), v,
                   v.Str? && StringHolds(c.m, n, v.s));
  }

  lemma ArraySection(c: Link, fuel: nat, id: Id, v: Json)
    requires At(c, fuel, id, v)
    requires c.s.nodes[id].kind.Some? ==> TypeHolds(c.s.nodes[id].kind.value, v)
    ensures var n := c.s.nodes[id];
      Means(FrameAt(c, fuel), Guarded(HasArrayKeys(n), IsKind(n, TArray), TArray, ArrayPart(c.s, c.names, n)), v,
            v.Arr? ==> CountHolds(n, v.items) && ArrayHolds(c.s, c.rank, c.m, id, v))
  {
    var n, f := c.s.nodes[id], FrameAt(c, fuel);
    if v.Arr? { ArrayBody(c, fuel, id, v); }
    GuardedMeaning(f, HasArrayKeys(n), IsKind(n, TArray), TArray, ArrayPart(c.s, c.names, n), v,
                   v.Arr? && CountHolds(n, v.items) && ArrayHolds(c.s, c.rank, c.m, id, v));
  }

  lemma ObjectSection(c: Link, fuel: nat, id: Id, v: Json)
    requires At(c, fuel, id, v)
    requires c.s.nodes[id].kind.Some? ==> TypeHolds(c.s.nodes[id].kind.value, v)
    ensures var n := c.s.nodes[id];
      Means(FrameAt(c, fuel), Guarded(HasObjectKeys(n), IsKind(n, TObject), TObject, ObjectPart(c.s, c.names, n)), v,
            v.Obj? ==> RequiredPresent(n, v) && Closed(n, v) && ObjectHolds(c.s, c.rank, c.m, id, v))
  {
    var n, f := c.s.nodes[id], FrameAt(c, fuel);
    assert CleanNode(c.s, n);
    if v.Obj? { ObjectBody(c, fuel, id, v); }
    GuardedMeaning(f, HasObjectKeys(n), IsKind(n, TObject), TObject, ObjectPart(c.s, c.names, n), v,
                   v.Obj? && RequiredPresent(n, v) && Closed(n, v) && ObjectHolds(c.s, c.rank, c.m, id, v));
  }

  lemma SectionsBody(c: Link, fuel: nat, id: Id, v: Json)
    requires At(c, fuel, id, v)
    requires c.s.nodes[id].kind.Some? ==> TypeHolds(c.s.nodes[id].kind.value, v)
    requires c.s.nodes[id].pattern.Some? ==> HasPattern(c.p.consts, c.s.nodes[id].pattern.value)
    ensures Means(FrameAt(c, fuel), Sections(c, c.s.nodes[id]), v, SectionsHold(c, id, v))
  {
    var n := c.s.nodes[id];
    ScalarSections(c, fuel, id, v);
    ArraySection(c, fuel, id, v);
    ObjectSection(c, fuel, id, v);
    JoinFour(FrameAt(c, fuel),
      Guarded(HasNumberKeys(n), IsKind(n, TNumber) || IsKind(n, TInteger), TNumber, NumericPart(n)),
      v.Num? ==> NumberHolds(n, v.n),
      Guarded(HasStringKeys(n), IsKind(n, TString), TString, StringPart(c.p.consts, n)),
      v.Str? ==> StringHolds(c.m, n, v.s),
      Guarded(HasArrayKeys(n), IsKind(n, TArray), TArray, ArrayPart(c.s, c.names, n)),
      v.Arr? ==> CountHolds(n, v.items) && ArrayHolds(c.s, c.rank, c.m, id, v),
      Guarded(HasObjectKeys(n), IsKind(n, TObject), TObject, ObjectPart(c.s, c.names, n)),
      v.Obj? ==> RequiredPresent(n, v) && Closed(n, v) && ObjectHolds(c.s, c.rank, c.m, id, v), v);
  }

  ghost predicate LiteralsHold(n: Node, v: Json)
    requires n.Dict?
  {
    && (n.konst.Some? ==> Same(v, n.konst.value))
    && (n.oneOfValues.Some? ==> InEnumeration(v, n.oneOfValues.value))
  }

  lemma HoldsSplits(c: Link, id: Id, v: Json)
    requires Ranked(c.s, c.rank) && id in c.s.nodes && c.s.nodes[id].Dict?
    ensures Holds(c.s, c.rank, c.m, id, v) <==>
      && (c.s.nodes[id].kind.Some? ==> TypeHolds(c.s.nodes[id].kind.value, v))
      && LiteralsHold(c.s.nodes[id], v) && SectionsHold(c, id, v) && InPlaceHolds(c.s, c.rank, c.m, id, v)
  {
  }

  /** A type test, then three more parts: a failed test hides the rest, a passed one adds nothing. */
  lemma Assemble(f: Frame, n: Node, a: seq<Stmt>, x: bool, b: seq<Stmt>, y: bool, d: seq<Stmt>, z: bool, v: Json)
    requires n.Dict?
    requires n.kind.Some? ==> TypeHolds(n.kind.value, v)
    requires Means(f, a, v, x) && Means(f, b, v, y) && Means(f, d, v, z)
    ensures Means(f, TypePart(n) + (a + b + d), v, x && y && z)
  {
    TypeTest(f, n, v);
    Join(f, a, x, b, y, v);
    Join(f, a + b, x && y, d, z, v);
    Join(f, TypePart(n), true, a + b + d, x && y && z, v);
  }

  lemma TypeMismatch(f: Frame, n: Node, rest: seq<Stmt>, v: Json)
    requires n.Dict? && n.kind.Some? && !TypeHolds(n.kind.value, v)
    ensures Means(f, TypePart(n) + rest, v, false)
  {
    TypeTest(f, n, v);
    assert (TypePart(n) + rest)[0] == TypePart(n)[0];
  }

  /** The whole body: on a type mismatch the first statement reports and returns. */
  lemma BodyMeaning(c: Link, fuel: nat, id: Id, v: Json)
    requires At(c, fuel, id, v) && !IsRef(c.s.nodes[id])
    requires c.s.nodes[id].pattern.Some? ==> HasPattern(c.p.consts, c.s.nodes[id].pattern.value)
    ensures Means(FrameAt(c, fuel), Body(c.s, c.names, c.p.consts, c.s.nodes[id]), v,
                  Holds(c.s, c.rank, c.m, id, v))
  {
    var n, f := c.s.nodes[id], FrameAt(c, fuel);
    var choices := ChoosePart(c.s, c.names, AnyOf, n.anyOf) + ChoosePart(c.s, c.names, OneOf, n.oneOf)
      + Calls(c.s, c.names, OrEmpty(n.allOf));
    BodySplits(c, n);
    HoldsSplits(c, id, v);
    if n.kind.Some? && !TypeHolds(n.kind.value, v) {
      TypeMismatch(f, n, LiteralPart(n) + Sections(c, n) + choices, v);
    } else {
      LiteralMeaning(f, n, v);
      SectionsBody(c, fuel, id, v);
      CombinatorBody(c, fuel, id, v);
      Assemble(f, n, LiteralPart(n), LiteralsHold(n, v), Sections(c, n), SectionsHold(c, id, v), choices,
               InPlaceHolds(c.s, c.rank, c.m, id, v), v);
    }
  }

  lemma BodySplits(c: Link, n: Node)
    requires n.Dict?
    ensures Body(c.s, c.names, c.p.consts, n) == TypePart(n) + (LiteralPart(n) + Sections(c, n)
      + (ChoosePart(c.s, c.names, AnyOf, n.anyOf) + ChoosePart(c.s, c.names, OneOf, n.oneOf)
         + Calls(c.s, c.names, OrEmpty(n.allOf))))
  {
    Regroup(TypePart(n), LiteralPart(n),
      Guarded(HasNumberKeys(n), IsKind(n, TNumber) || IsKind(n, TInteger), TNumber, NumericPart(n)),
      Guarded(HasStringKeys(n), IsKind(n, TString), TString, StringPart(c.p.consts, n)),
      Guarded(HasArrayKeys(n), IsKind(n, TArray), TArray, ArrayPart(c.s, c.names, n)),
      Guarded(HasObjectKeys(n), IsKind(n, TObject), TObject, ObjectPart(c.s, c.names, n)),
      ChoosePart(c.s, c.names, AnyOf, n.anyOf), ChoosePart(c.s, c.names, OneOf, n.oneOf),
      Calls(c.s, c.names, OrEmpty(n.allOf)));
  }

  lemma Regroup<T>(a: seq<T>, b: seq<T>, c: seq<T>, d: seq<T>, e: seq<T>, f: seq<T>, g: seq<T>, h: seq<T>, i: seq<T>)
    ensures a + b + c + d + e + f + g + h + i == a + (b + (c + d + e + f) + (g + h + i))
  {
  }

  lemma TypeTest(f: Frame, n: Node, v: Json)
    requires n.Dict?
    ensures n.kind.Some? ==>
      && |TypePart(n)| == 1 && TypePart(n)[0].CheckOrReturn?
      && Eval(f.p, f.m, TypePart(n)[0].test, v) == Some(TypeHolds(n.kind.value, v))
    ensures n.kind.None? || TypeHolds(n.kind.value, v) ==> Means(f, TypePart(n), v, true)
  {
    if n.kind.Some? {
      match n.kind.value
      case OneType(t) => assert [t][0] == t;
      case AnyType(ts) =>
    }
    Flat(f, TypePart(n), v);
  }

  /** The function a name resolves to, as one of the emitted functions. */
  lemma {:induction false} Resolve(funs: seq<Function>, fn: string) returns (k: nat)
    requires SourceOf(funs, fn).Some?
    ensures k < |funs| && funs[k].name == fn
    ensures SourceOf(funs, fn) == Some(funs[k].source) && BodyOf(funs, fn) == Some(funs[k].body)
  {
    if funs[0].name == fn {
      k := 0;
    } else {
      k := Resolve(funs[1..], fn);
      k := k + 1;
    }
  }

  lemma CalledBody(c: Link, fuel: nat, k: nat, v: Json)
    requires Proper(c) && k < |c.p.funs| && c.p.funs[k].source in c.s.nodes
    requires fuel >= Depth(c, c.p.funs[k].source, v)
    ensures Means(FrameAt(c, fuel), c.p.funs[k].body, v, Holds(c.s, c.rank, c.m, c.p.funs[k].source, v))
  {
    assert Translated(c.s, c.names, c.p.consts, c.p.funs[k]);
    BodyMeaning(c, fuel, c.p.funs[k].source, v);
  }

  /** One call deeper: the callee's body runs with honest callees of its own. */
  lemma HonestFromBody(f: Frame, f': Frame, fn: string, body: seq<Stmt>, v: Json, path: seq<Segment>, errs: seq<Issue>)
    requires f'.p == f.p && f'.m == f.m && f'.fuel == f.fuel + 1
    requires AllHonest(f) && BodyOf(f.p.funs, fn) == Some(body)
    requires f'.verdict(fn, v).Some? && Means(f, body, v, f'.verdict(fn, v).value)
    ensures Honest(f', fn, v, path, errs)
  {
    RunAll(f, body, v, path, errs);
  }

  lemma ResolvedBody(c: Link, fuel: nat, fn: string, v: Json) returns (body: seq<Stmt>)
    requires Proper(c) && Enough(c, fuel + 1, fn, v)
    ensures BodyOf(c.p.funs, fn) == Some(body)
    ensures FrameAt(c, fuel + 1).verdict(fn, v).Some?
    ensures Means(FrameAt(c, fuel), body, v, FrameAt(c, fuel + 1).verdict(fn, v).value)
  {
    var k := Resolve(c.p.funs, fn);
    body := c.p.funs[k].body;
    CalledBody(c, fuel, k, v);
  }

  lemma HonestStep(c: Link, f: Frame, f': Frame, fn: string, v: Json, path: seq<Segment>, errs: seq<Issue>)
    requires Proper(c) && f'.fuel > 0 && f' == FrameAt(c, f'.fuel) && f == FrameAt(c, f'.fuel - 1)
    requires AllHonest(f) && Enough(c, f'.fuel, fn, v)
    ensures Honest(f', fn, v, path, errs)
  {
    var body := ResolvedBody(c, f'.fuel - 1, fn, v);
    HonestFromBody(f, f', fn, body, v, path, errs);
  }

  lemma HonestNext(c: Link, f: Frame, f': Frame, fn: string, v: Json, path: seq<Segment>, errs: seq<Issue>)
    requires Proper(c) && f'.fuel > 0 && f' == FrameAt(c, f'.fuel) && f == FrameAt(c, f'.fuel - 1)
    requires AllHonest(f)
    ensures Honest(f', fn, v, path, errs)
  {
    if Enough(c, f'.fuel, fn, v) {
      HonestStep(c, f, f', fn, v, path, errs);
    }
  }

  lemma AllHonestNext(c: Link, f: Frame, f': Frame)
    requires Proper(c) && f'.fuel > 0 && f' == FrameAt(c, f'.fuel) && f == FrameAt(c, f'.fuel - 1)
    requires AllHonest(f)
    ensures AllHonest(f')
  {
    forall fn, v, path, errs
      ensures Honest(f', fn, v, path, errs)
    {
      HonestNext(c, f, f', fn, v, path, errs);
    }
  }

  lemma AllHonestWithoutFuel(c: Link, f: Frame)
    requires Ranked(c.s, c.rank) && f == FrameAt(c, 0)
    ensures AllHonest(f)
  {
    forall fn, v, path, errs
      ensures Honest(f, fn, v, path, errs)
    {
      assert f.verdict(fn, v).None?;
    }
  }

  /** Every call of an emitted function finishes, only appends, and appends nothing exactly on
      values valid under the dictionary the function was emitted for. */
  lemma {:induction false} FunctionsCorrect(c: Link, fuel: nat)
    requires Proper(c)
    ensures AllHonest(FrameAt(c, fuel))
  {
    if fuel > 0 {
      FunctionsCorrect(c, fuel - 1);
      AllHonestNext(c, FrameAt(c, fuel - 1), FrameAt(c, fuel));
    } else {
      AllHonestWithoutFuel(c, FrameAt(c, 0));
    }
  }

  /** `checkSchema`: an empty list to start with, at the document root. */
  function CheckSchema(p: Program, m: Matcher, fuel: nat, v: Json): Option<seq<Issue>> {
    Invoke(p, m, fuel, "check_root", v, [], [])
  }

  /** From some call depth on `checkSchema` answers, and with an empty list exactly on `valid`. */
  ghost predicate Decides(p: Program, m: Matcher, v: Json, depth: nat, valid: bool) {
    forall fuel: nat :: fuel >= depth ==>
      CheckSchema(p, m, fuel, v).Some? && (CheckSchema(p, m, fuel, v).value == [] <==> valid)
  }

  lemma RootCall(c: Link, f: Frame, v: Json)
    requires Proper(c) && f == FrameAt(c, f.fuel) && AllHonest(f) && f.fuel > Depth(c, c.s.root, v)
    ensures var r := CheckSchema(c.p, c.m, f.fuel, v);
      r.Some? && (r.value == [] <==> Holds(c.s, c.rank, c.m, c.s.root, v))
  {
    assert Honest(f, "check_root", v, [], []);
  }

  lemma RootCorrect(c: Link, fuel: nat, v: Json)
    requires Proper(c) && fuel > Depth(c, c.s.root, v)
    ensures var r := CheckSchema(c.p, c.m, fuel, v);
      r.Some? && (r.value == [] <==> Holds(c.s, c.rank, c.m, c.s.root, v))
  {
    FunctionsCorrect(c, fuel);
    RootCall(c, FrameAt(c, fuel), v);
  }

  /** Main result. For every clean document, every program the generator links for it and every
      value, `checkSchema` finishes and is empty exactly when the value is valid. */
  lemma CompilerCorrect(s: Schema, rank: Rank, m: Matcher, p: Program, v: Json)
    requires Ranked(s, rank) && Clean(s) && CompiledTo(s, p)
    ensures exists depth: nat :: Decides(p, m, v, depth, Holds(s, rank, m, s.root, v))
  {
    var names :| Linked(s, names, p);
    var top := TopRank(rank);
    var c := Link(s, rank, m, names, p, top);
    var depth := Depth(c, s.root, v) + 1;
    forall fuel: nat | fuel >= depth
      ensures CheckSchema(p, m, fuel, v).Some?
      ensures CheckSchema(p, m, fuel, v).value == [] <==> Holds(s, rank, m, s.root, v)
    {
      RootCorrect(c, fuel, v);
    }
    assert Decides(p, m, v, depth, Holds(s, rank, m, s.root, v));
  }

  lemma {:induction false} TopRank(rank: Rank) returns (top: nat)
    ensures forall id :: id in rank ==> rank[id] < top
    decreases |rank|
  {
    if rank == map[] {
      top := 0;
    } else {
      var id :| id in rank;
      var rest := rank - {id};
      var below := TopRank(rest);
      top := if below > rank[id] then below else rank[id] + 1;
      assert forall x :: x in rank && x != id ==> x in rest && rest[x] == rank[x];
    }
  }
}
