/** Each part of an emitted body against the keywords it was emitted for. */
module ContractParts {
  import opened Outcome
  import opened Json
  import opened JsonSchema
  import opened ContractIr
  import opened ContractScheme
  import opened ContractRuns

  /** The part runs on `v` and reports nothing exactly when `verdict`. */
  predicate Means(f: Frame, ss: seq<Stmt>, v: Json, verdict: bool) {
    AllReady(f, ss, v) && (AllPass(f, ss, v) <==> verdict)
  }

  lemma Join(f: Frame, a: seq<Stmt>, x: bool, b: seq<Stmt>, y: bool, v: Json)
    requires Means(f, a, v, x) && Means(f, b, v, y)
    ensures Means(f, a + b, v, x && y)
  {
    Concat(f, a, b, v);
  }

  lemma LiteralMeaning(f: Frame, n: Node, v: Json)
    requires n.Dict?
    ensures Means(f, LiteralPart(n), v,
                  && (n.konst.Some? ==> Same(v, n.konst.value))
                  && (n.oneOfValues.Some? ==> InEnumeration(v, n.oneOfValues.value)))
  {
    var a := if n.konst.Some? then [Check(EqLit(n.konst.value), ExpectedConst(n.konst.value))] else [];
    var b := if n.oneOfValues.Some? then [Check(SomeEq(n.oneOfValues.value), NotInEnum)] else [];
    Flat(f, a, v);
    Flat(f, b, v);
    Concat(f, a, b, v);
  }

  /** The check of one keyword, if the dictionary has it. */
  lemma OneCheck(f: Frame, part: seq<Stmt>, present: bool, v: Json, holds: bool)
    requires present ==> |part| == 1 && part[0].Check? && Eval(f.p, f.m, part[0].test, v) == Some(holds)
    requires !present ==> part == []
    ensures Means(f, part, v, present ==> holds)
  {
    Flat(f, part, v);
  }

  lemma JoinFour(f: Frame, a: seq<Stmt>, w: bool, b: seq<Stmt>, x: bool, c: seq<Stmt>, y: bool, d: seq<Stmt>, z: bool,
                 v: Json)
    requires Means(f, a, v, w) && Means(f, b, v, x) && Means(f, c, v, y) && Means(f, d, v, z)
    ensures Means(f, a + b + c + d, v, w && x && y && z)
  {
    Join(f, a, w, b, x, v);
    Join(f, a + b, w && x, c, y, v);
    Join(f, a + b + c, w && x && y, d, z, v);
  }

  lemma NumericMeaning(f: Frame, n: Node, v: Json)
    requires n.Dict? && v.Num?
    ensures Means(f, NumericPart(n), v, NumberHolds(n, v.n))
  {
    var a := if n.minimum.Some? then [Check(NotLess(n.minimum.value), Violated("minimum"))] else [];
    var b := if n.maximum.Some? then [Check(NotGreater(n.maximum.value), Violated("maximum"))] else [];
    var c :=
      if n.exclusiveMinimum.Some? then [Check(NotAtMost(n.exclusiveMinimum.value), Violated("exclusiveMinimum"))]
      else [];
    var d :=
      if n.exclusiveMaximum.Some? then [Check(NotAtLeast(n.exclusiveMaximum.value), Violated("exclusiveMaximum"))]
      else [];
    var w := n.minimum.Some? ==> v.n >= n.minimum.value;
    var x := n.maximum.Some? ==> v.n <= n.maximum.value;
    var y := n.exclusiveMinimum.Some? ==> v.n > n.exclusiveMinimum.value;
    var z := n.exclusiveMaximum.Some? ==> v.n < n.exclusiveMaximum.value;
    OneCheck(f, a, n.minimum.Some?, v, w);
    OneCheck(f, b, n.maximum.Some?, v, x);
    OneCheck(f, c, n.exclusiveMinimum.Some?, v, y);
    OneCheck(f, d, n.exclusiveMaximum.Some?, v, z);
    JoinFour(f, a, w, b, x, c, y, d, z, v);
  }

  lemma {:induction false} PatternNameDeclared(consts: seq<(string, string)>, p: string)
    requires DistinctConsts(consts) && HasPattern(consts, p)
    ensures Lookup(consts, PatternName(consts, p)) == Some(p)
    ensures exists i :: 0 <= i < |consts| && consts[i] == (PatternName(consts, p), p)
  {
    if consts[0].1 == p {
      assert consts[0] == (PatternName(consts, p), p);
    } else {
      var i :| 0 <= i < |consts| && consts[i].1 == p;
      assert consts[1..][i - 1] == consts[i];
      PatternNameDeclared(consts[1..], p);
      var j :| 0 <= j < |consts[1..]| && consts[1..][j] == (PatternName(consts[1..], p), p);
      assert consts[j + 1] == (PatternName(consts, p), p);
    }
  }

  lemma LengthMeaning(f: Frame, n: Node, v: Json)
    requires n.Dict? && v.Str?
    ensures Means(f, LengthPart(n), v,
                  && (n.minLength.Some? ==> |v.s| >= n.minLength.value)
                  && (n.maxLength.Some? ==> |v.s| <= n.maxLength.value))
  {
    var a := if n.minLength.Some? then [Check(StrlenNotLess(n.minLength.value), Violated("minLength"))] else [];
    var b := if n.maxLength.Some? then [Check(StrlenNotGreater(n.maxLength.value), Violated("maxLength"))] else [];
    var x := n.minLength.Some? ==> |v.s| >= n.minLength.value;
    var y := n.maxLength.Some? ==> |v.s| <= n.maxLength.value;
    OneCheck(f, a, n.minLength.Some?, v, x);
    OneCheck(f, b, n.maxLength.Some?, v, y);
    Join(f, a, x, b, y, v);
  }

  lemma StringMeaning(f: Frame, n: Node, v: Json)
    requires n.Dict? && v.Str?
    requires DistinctConsts(f.p.consts) && (n.pattern.Some? ==> HasPattern(f.p.consts, n.pattern.value))
    ensures Means(f, StringPart(f.p.consts, n), v, StringHolds(f.m, n, v.s))
  {
    var a, d := LengthPart(n), FormatPart(n);
    var c :=
      if n.pattern.Some? then [Check(TestPattern(PatternName(f.p.consts, n.pattern.value)), Violated("pattern"))]
      else [];
    var x := (n.minLength.Some? ==> |v.s| >= n.minLength.value) && (n.maxLength.Some? ==> |v.s| <= n.maxLength.value);
    var y := n.pattern.Some? ==> f.m(n.pattern.value, v.s);
    var z := n.format == Some("uuid") ==> IsUuid(v.s);
    if n.pattern.Some? {
      PatternNameDeclared(f.p.consts, n.pattern.value);
    }
    LengthMeaning(f, n, v);
    OneCheck(f, c, n.pattern.Some?, v, y);
    OneCheck(f, d, n.format == Some("uuid"), v, z);
    Join(f, a, x, c, y, v);
    Join(f, a + c, x && y, d, z, v);
  }

  lemma CountMeaning(f: Frame, n: Node, v: Json)
    requires n.Dict? && v.Arr?
    ensures Means(f, CountPart(n), v, CountHolds(n, v.items))
  {
    var a := if n.minItems.Some? then [Check(LengthNotLess(n.minItems.value), Violated("minItems"))] else [];
    var b := if n.maxItems.Some? then [Check(LengthNotGreater(n.maxItems.value), Violated("maxItems"))] else [];
    var c := if n.uniqueItems == Some(true) then [Check(Unique, Violated("uniqueItems"))] else [];
    var x := n.minItems.Some? ==> |v.items| >= n.minItems.value;
    var y := n.maxItems.Some? ==> |v.items| <= n.maxItems.value;
    var z := n.uniqueItems == Some(true) ==> AllDistinct(v.items);
    OneCheck(f, a, n.minItems.Some?, v, x);
    OneCheck(f, b, n.maxItems.Some?, v, y);
    OneCheck(f, c, n.uniqueItems == Some(true), v, z);
    Join(f, a, x, b, y, v);
    Join(f, a + b, x && y, c, z, v);
  }

  /** The item subschemas the emitted code applies, position by position. */
  function ItemFn(s: Schema, names: Names, n: Node, i: nat): Option<string>
    requires n.Dict?
  {
    if n.prefixItems.Some? then
      if i < |n.prefixItems.value| then Some(NameOf(s, names, n.prefixItems.value[i])) else None
    else if n.items.Some? then Some(NameOf(s, names, n.items.value))
    else None
  }

  predicate ItemsSay(f: Frame, s: Schema, names: Names, n: Node, v: Json)
    requires n.Dict? && v.Arr?
  {
    forall i :: 0 <= i < |v.items| && ItemFn(s, names, n, i).Some? ==> Says(f, ItemFn(s, names, n, i).value, v.items[i])
  }

  lemma ArrayMeaning(f: Frame, s: Schema, names: Names, n: Node, v: Json)
    requires n.Dict? && v.Arr?
    requires forall i :: 0 <= i < |v.items| && ItemFn(s, names, n, i).Some? ==>
      Callee(f, ItemFn(s, names, n, i).value, v.items[i])
    ensures Means(f, ArrayPart(s, names, n), v, CountHolds(n, v.items) && ItemsSay(f, s, names, n, v))
  {
    CountMeaning(f, n, v);
    if n.prefixItems.Some? {
      var calls := IndexCalls(s, names, n.prefixItems.value);
      assert forall i :: 0 <= i < |calls| ==> i < |v.items| ==> ItemFn(s, names, n, i) == Some(calls[i].fn);
      Flat(f, calls, v);
      if AllPass(f, calls, v) {
        forall i | 0 <= i < |v.items| && ItemFn(s, names, n, i).Some?
          ensures Says(f, ItemFn(s, names, n, i).value, v.items[i])
        {
          assert Passes(f, calls[i], v);
        }
      }
      Join(f, CountPart(n), CountHolds(n, v.items), calls, ItemsSay(f, s, names, n, v), v);
    } else if n.items.Some? {
      var each := [CallEach(NameOf(s, names, n.items.value))];
      assert forall i :: 0 <= i < |v.items| ==> ItemFn(s, names, n, i) == Some(each[0].fn);
      Flat(f, each, v);
      Join(f, CountPart(n), CountHolds(n, v.items), each, ItemsSay(f, s, names, n, v), v);
    } else {
      Join(f, CountPart(n), CountHolds(n, v.items), [], true, v);
    }
  }

  predicate RequiredPresent(n: Node, v: Json)
    requires n.Dict? && v.Obj?
  {
    forall i :: 0 <= i < |OrEmpty(n.required)| ==> HasKey(v.fields, n.required.value[i])
  }

  predicate Closed(n: Node, v: Json)
    requires n.Dict? && v.Obj?
  {
    n.additional == Some(Forbidden) ==>
      forall i :: 0 <= i < |v.fields| ==> v.fields[i].key in PropertyNames(OrEmpty(n.properties))
  }

  predicate PropertiesSay(f: Frame, s: Schema, names: Names, n: Node, v: Json)
    requires n.Dict? && v.Obj?
  {
    var ps := OrEmpty(n.properties);
    forall i :: 0 <= i < |ps| && HasKey(v.fields, ps[i].0) ==>
      Says(f, NameOf(s, names, ps[i].1), Get(v.fields, ps[i].0))
  }

  lemma ClosedMeaning(f: Frame, n: Node, v: Json)
    requires n.Dict? && v.Obj?
    ensures Means(f, ClosedPart(n), v, Closed(n, v))
  {
    var ps := OrEmpty(n.properties);
    Flat(f, ClosedPart(n), v);
    forall k: string
      ensures k in Listed(ps) <==> k in PropertyNames(ps)
    {
      if k in PropertyNames(ps) {
        var i :| 0 <= i < |ps| && ps[i].0 == k;
        assert Listed(ps)[i] == k;
      }
    }
  }

  lemma ObjectMeaning(f: Frame, s: Schema, names: Names, n: Node, v: Json)
    requires n.Dict? && v.Obj?
    requires forall i :: 0 <= i < |OrEmpty(n.properties)| && HasKey(v.fields, n.properties.value[i].0) ==>
      Callee(f, NameOf(s, names, n.properties.value[i].1), Get(v.fields, n.properties.value[i].0))
    ensures Means(f, ObjectPart(s, names, n), v,
                  RequiredPresent(n, v) && PropertiesSay(f, s, names, n, v) && Closed(n, v))
  {
    var needs := Needs(OrEmpty(n.required));
    NeedsMeaning(f, n, v);
    var calls := KeyCalls(s, names, OrEmpty(n.properties));
    KeyCallsMeaning(f, s, names, n, v);
    ClosedMeaning(f, n, v);
    Join(f, needs, RequiredPresent(n, v), calls, PropertiesSay(f, s, names, n, v), v);
    Join(f, needs + calls, RequiredPresent(n, v) && PropertiesSay(f, s, names, n, v), ClosedPart(n), Closed(n, v), v);
  }

  lemma NeedsMeaning(f: Frame, n: Node, v: Json)
    requires n.Dict? && v.Obj?
    ensures Means(f, Needs(OrEmpty(n.required)), v, RequiredPresent(n, v))
  {
    var needs := Needs(OrEmpty(n.required));
    Flat(f, needs, v);
    if AllPass(f, needs, v) {
      forall i | 0 <= i < |OrEmpty(n.required)|
        ensures HasKey(v.fields, n.required.value[i])
      {
        assert Passes(f, needs[i], v);
      }
    }
  }

  lemma KeyCallsMeaning(f: Frame, s: Schema, names: Names, n: Node, v: Json)
    requires n.Dict? && v.Obj?
    requires forall i :: 0 <= i < |OrEmpty(n.properties)| && HasKey(v.fields, n.properties.value[i].0) ==>
      Callee(f, NameOf(s, names, n.properties.value[i].1), Get(v.fields, n.properties.value[i].0))
    ensures Means(f, KeyCalls(s, names, OrEmpty(n.properties)), v, PropertiesSay(f, s, names, n, v))
  {
    var ps := OrEmpty(n.properties);
    var calls := KeyCalls(s, names, ps);
    Flat(f, calls, v);
    if AllPass(f, calls, v) {
      forall i | 0 <= i < |ps| && HasKey(v.fields, ps[i].0)
        ensures Says(f, NameOf(s, names, ps[i].1), Get(v.fields, ps[i].0))
      {
        assert Passes(f, calls[i], v);
      }
    }
  }

  lemma GuardedMeaning(f: Frame, present: bool, typed: bool, guard: TypeName, part: seq<Stmt>, v: Json, verdict: bool)
    requires typed ==> HasType(v, guard)
    requires HasType(v, guard) ==> Means(f, part, v, verdict)
    requires HasType(v, guard) && !present ==> verdict
    ensures Means(f, Guarded(present, typed, guard, part), v, HasType(v, guard) ==> verdict)
  {
    var w := When(guard, part);
    assert Ready(f, w, v);
    Flat(f, [w], v);
  }

  lemma ChooseMeaning(f: Frame, s: Schema, names: Names, comb: Combinator, subs: Option<seq<Id>>, v: Json)
    requires subs.Some? ==> forall i :: 0 <= i < |subs.value| ==> Callee(f, NamesOf(s, names, subs.value)[i], v)
    ensures Means(f, ChoosePart(s, names, comb, subs), v,
                  subs.Some? ==>
                    match comb
                    case AnyOf => Any(VerdictsOf(f, NamesOf(s, names, subs.value), v))
                    case OneOf => ExactlyOne(VerdictsOf(f, NamesOf(s, names, subs.value), v)))
  {
    Flat(f, ChoosePart(s, names, comb, subs), v);
  }

  lemma CallsMeaning(f: Frame, s: Schema, names: Names, cs: seq<Id>, v: Json)
    requires forall i :: 0 <= i < |cs| ==> Callee(f, NamesOf(s, names, cs)[i], v)
    ensures Means(f, Calls(s, names, cs), v, All(VerdictsOf(f, NamesOf(s, names, cs), v)))
  {
    var calls, says := Calls(s, names, cs), VerdictsOf(f, NamesOf(s, names, cs), v);
    forall i | 0 <= i < |cs|
      ensures Ready(f, calls[i], v) && (Passes(f, calls[i], v) <==> says[i])
    {
      assert calls[i] == Call(NamesOf(s, names, cs)[i]);
    }
    Flat(f, calls, v);
    if All(says) {
      forall i | 0 <= i < |calls|
        ensures Passes(f, calls[i], v)
      {
        assert says[i];
      }
    }
  }
}
