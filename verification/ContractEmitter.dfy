/** The generator itself: a name memo, a pattern table and a first-in-first-out work queue. */
module ContractEmitter {
  import opened Outcome
  import opened Decimals
  import opened Folding
  import opened Sequences
  import opened JsonSchema
  import opened ContractIr
  import opened ContractScheme

  datatype EmitError =
    | NotADictionary | UnknownKeywords | UnsupportedType
    | RefWithSiblings | NonLocalRef | InvalidRefName

  /** `emit_function` accepts the dictionary and `fn_for` every child it compiles a call to. */
  predicate Accepted(s: Schema, id: Id) {
    && id in s.nodes
    && Emittable(s.nodes[id])
    && AllCallable(s, Children(s.nodes[id]))
  }

  /** A chain of compiled children from a definition or the root. */
  predicate Chain(s: Schema, ids: seq<Id>) {
    && ids != [] && IsEntry(s, ids[0])
    && (forall i :: 0 <= i < |ids| ==> ids[i] in s.nodes)
    && (forall i :: 1 <= i < |ids| ==> CompiledChild(s, ids[i - 1], ids[i]))
  }

  predicate CompiledChild(s: Schema, id: Id, child: Id) {
    id in s.nodes && child in s.nodes && child in Children(s.nodes[id]) && !IsRef(s.nodes[child])
  }

  ghost predicate Reachable(s: Schema, id: Id) {
    exists ids :: Chain(s, ids) && ids[|ids| - 1] == id
  }

  lemma ChainLonger(s: Schema, ids: seq<Id>, child: Id)
    requires Chain(s, ids) && CompiledChild(s, ids[|ids| - 1], child)
    ensures Chain(s, ids + [child])
  {
    var longer := ids + [child];
    forall i | 1 <= i < |longer|
      ensures CompiledChild(s, longer[i - 1], longer[i])
    {
      if i < |ids| {
        assert CompiledChild(s, ids[i - 1], ids[i]);
      }
    }
  }

  lemma ReachChild(s: Schema, id: Id, child: Id)
    requires Reachable(s, id) && CompiledChild(s, id, child)
    ensures Reachable(s, child)
  {
    var ids :| Chain(s, ids) && ids[|ids| - 1] == id;
    ChainLonger(s, ids, child);
    assert (ids + [child])[|ids + [child]| - 1] == child;
  }

  lemma ReachEntry(s: Schema, id: Id)
    requires IsEntry(s, id) && id in s.nodes
    ensures Reachable(s, id)
  {
    assert Chain(s, [id]);
  }

  predicate Extends(names: Names, names': Names) {
    forall id :: id in names ==> id in names' && names'[id] == names[id]
  }

  /** Growing tables leave finished text as it is. */
  lemma NamesStable(s: Schema, names: Names, names': Names, cs: seq<Id>)
    requires Extends(names, names') && AllNamed(s, names, cs)
    ensures forall i :: 0 <= i < |cs| ==> NameOf(s, names', cs[i]) == NameOf(s, names, cs[i])
    ensures AllNamed(s, names', cs)
  {
  }

  lemma {:induction false} PatternStable(consts: seq<(string, string)>, more: seq<(string, string)>, p: string)
    requires HasPattern(consts, p)
    ensures HasPattern(consts + more, p) && PatternName(consts + more, p) == PatternName(consts, p)
  {
    var i :| 0 <= i < |consts| && consts[i].1 == p;
    assert (consts + more)[i] == consts[i];
    if consts[0].1 != p {
      assert consts[1..][i - 1] == consts[i];
      assert (consts + more)[1..] == consts[1..] + more;
      PatternStable(consts[1..], more, p);
    }
  }

  lemma TranslatedStable(s: Schema, names: Names, names': Names, consts: seq<(string, string)>,
                         more: seq<(string, string)>, f: Function)
    requires Extends(names, names') && Translated(s, names, consts, f)
    ensures Translated(s, names', consts + more, f)
  {
    var n := s.nodes[f.source];
    if n.pattern.Some? {
      PatternStable(consts, more, n.pattern.value);
    }
    NamesStable(s, names, names', Children(n));
    BodyStable(s, names, names', consts, consts + more, n);
  }

  lemma ArrayStable(s: Schema, names: Names, names': Names, n: Node)
    requires n.Dict? && Extends(names, names') && AllNamed(s, names, ItemChildren(n))
    ensures AllNamed(s, names', ItemChildren(n)) && ArrayPart(s, names', n) == ArrayPart(s, names, n)
  {
    NamesStable(s, names, names', ItemChildren(n));
    if n.prefixItems.Some? {
      assert IndexCalls(s, names', n.prefixItems.value) == IndexCalls(s, names, n.prefixItems.value);
    } else if n.items.Some? {
      assert ItemChildren(n)[0] == n.items.value;
    }
  }

  lemma ObjectStable(s: Schema, names: Names, names': Names, n: Node)
    requires n.Dict? && Extends(names, names') && AllNamed(s, names, PropertyIds(OrEmpty(n.properties)))
    ensures AllNamed(s, names', PropertyIds(OrEmpty(n.properties)))
    ensures ObjectPart(s, names', n) == ObjectPart(s, names, n)
  {
    var ps := OrEmpty(n.properties);
    NamesStable(s, names, names', PropertyIds(ps));
    assert forall i :: 0 <= i < |ps| ==> PropertyIds(ps)[i] == ps[i].1;
    assert KeyCalls(s, names', ps) == KeyCalls(s, names, ps);
  }

  lemma ChooseStable(s: Schema, names: Names, names': Names, comb: Combinator, subs: Option<seq<Id>>)
    requires Extends(names, names') && AllNamed(s, names, OrEmpty(subs))
    ensures AllNamed(s, names', OrEmpty(subs))
    ensures ChoosePart(s, names', comb, subs) == ChoosePart(s, names, comb, subs)
  {
    NamesStable(s, names, names', OrEmpty(subs));
    assert NamesOf(s, names', OrEmpty(subs)) == NamesOf(s, names, OrEmpty(subs));
  }

  lemma BodyStable(s: Schema, names: Names, names': Names, consts: seq<(string, string)>,
                   consts': seq<(string, string)>, n: Node)
    requires n.Dict? && Extends(names, names') && AllNamed(s, names, Children(n))
    requires n.pattern.Some? ==> PatternName(consts', n.pattern.value) == PatternName(consts, n.pattern.value)
    ensures Body(s, names', consts', n) == Body(s, names, consts, n)
  {
    ChildrenNamed(s, names, n);
    ArrayStable(s, names, names', n);
    ObjectStable(s, names, names', n);
    ChooseStable(s, names, names', AnyOf, n.anyOf);
    ChooseStable(s, names, names', OneOf, n.oneOf);
    NamesStable(s, names, names', OrEmpty(n.allOf));
    assert Calls(s, names', OrEmpty(n.allOf)) == Calls(s, names, OrEmpty(n.allOf));
  }

  lemma ChildrenNamed(s: Schema, names: Names, n: Node)
    requires n.Dict?
    ensures AllNamed(s, names, Children(n)) <==>
      && AllNamed(s, names, ItemChildren(n))
      && AllNamed(s, names, PropertyIds(OrEmpty(n.properties)))
      && AllNamed(s, names, OrEmpty(n.anyOf))
      && AllNamed(s, names, OrEmpty(n.oneOf))
      && AllNamed(s, names, OrEmpty(n.allOf))
  {
    var a, b := ItemChildren(n), PropertyIds(OrEmpty(n.properties));
    AllNamedConcat(s, names, a, b);
    AllNamedConcat(s, names, a + b, OrEmpty(n.anyOf));
    AllNamedConcat(s, names, a + b + OrEmpty(n.anyOf), OrEmpty(n.oneOf));
    AllNamedConcat(s, names, a + b + OrEmpty(n.anyOf) + OrEmpty(n.oneOf), OrEmpty(n.allOf));
  }

  lemma AllNamedConcat(s: Schema, names: Names, a: seq<Id>, b: seq<Id>)
    ensures AllNamed(s, names, a + b) <==> AllNamed(s, names, a) && AllNamed(s, names, b)
  {
    if AllNamed(s, names, a + b) {
      assert forall i :: 0 <= i < |a| ==> a[i] == (a + b)[i];
      assert forall i :: 0 <= i < |b| ==> b[i] == (a + b)[|a| + i];
    }
  }

  function MemoName(counter: nat): string {
    "c" + Decimal(counter)
  }

  function ConstName(i: nat): string {
    "RE" + Decimal(i)
  }

  /** The jobs ever queued: definitions, the root, then memoized children in order of discovery. */
  predicate PlanShape(s: Schema, plan: seq<(string, Id)>, counter: nat) {
    && |plan| == |s.defs| + 1 + counter
    && (forall i :: 0 <= i < |s.defs| ==> plan[i] == (CheckName(s.defs[i].0), s.defs[i].1))
    && plan[|s.defs|] == ("check_root", s.root)
    && (forall j :: 0 <= j < counter ==> plan[|s.defs| + 1 + j].0 == MemoName(j))
  }

  /** Every job but the root is memoized under its own name, and nothing else is. */
  predicate MemoAgrees(s: Schema, plan: seq<(string, Id)>, names: Names) {
    && (forall i :: 0 <= i < |plan| && i != |s.defs| ==> plan[i].1 in names && names[plan[i].1] == plan[i].0)
    && (forall id :: id in names ==> exists i :: 0 <= i < |plan| && i != |s.defs| && plan[i].1 == id)
  }

  /** Jobs stand for distinct dictionaries, each reached through compiled children. */
  ghost predicate PlanSound(s: Schema, plan: seq<(string, Id)>) {
    && (forall i, j :: 0 <= i < j < |plan| ==> plan[i].1 != plan[j].1)
    && (forall i :: 0 <= i < |plan| ==>
          plan[i].1 in s.nodes && Reachable(s, plan[i].1) && (IsRef(s.nodes[plan[i].1]) ==> IsEntry(s, plan[i].1)))
  }

  function Jobs(funs: seq<Function>): seq<(string, Id)> {
    seq(|funs|, i requires 0 <= i < |funs| => (funs[i].name, funs[i].source))
  }

  predicate ConstShape(consts: seq<(string, string)>) {
    && (forall i :: 0 <= i < |consts| ==> consts[i].0 == ConstName(i))
    && (forall i, j :: 0 <= i < j < |consts| ==> consts[i].1 != consts[j].1)
  }

  predicate AllTranslated(s: Schema, names: Names, consts: seq<(string, string)>, funs: seq<Function>) {
    forall k {:trigger Translated(s, names, consts, funs[k])} :: 0 <= k < |funs| ==>
      Translated(s, names, consts, funs[k])
  }

  /** What holds of every child `fn_for` is asked about. */
  ghost predicate Compilable(s: Schema, child: Id) {
    child in s.nodes && child != s.root && (Callable(s.nodes[child]) && !IsRef(s.nodes[child]) ==> Reachable(s, child))
  }

  predicate AllCallable(s: Schema, cs: seq<Id>) {
    forall i :: 0 <= i < |cs| ==> cs[i] in s.nodes && Callable(s.nodes[cs[i]])
  }

  /** Everything the emitter's tables keep between two statements. */
  ghost predicate Tables(s: Schema, plan: seq<(string, Id)>, counter: nat, names: Names,
                         consts: seq<(string, string)>, funs: seq<Function>) {
    && PlanShape(s, plan, counter)
    && MemoAgrees(s, plan, names)
    && PlanSound(s, plan)
    && ConstShape(consts)
    && AllTranslated(s, names, consts, funs)
  }

  /** The same invariant, kept folded so that methods pass it along as one fact. */
  ghost predicate Sound(s: Schema, plan: seq<(string, Id)>, counter: nat, names: Names,
                        consts: seq<(string, string)>, funs: seq<Function>) {
    forall k {:trigger Unfolded(k)} :: Unfolded(k) ==> Tables(s, plan, counter, names, consts, funs)
  }

  lemma Unfold(s: Schema, plan: seq<(string, Id)>, counter: nat, names: Names, consts: seq<(string, string)>,
               funs: seq<Function>)
    requires Sound(s, plan, counter, names, consts, funs)
    ensures Tables(s, plan, counter, names, consts, funs)
  {
    assert Unfolded(0);
  }

  class Emitter {
    const schema: Schema
    var out: seq<Function>
    var names: Names
    var patterns: seq<(string, string)>
    var counter: nat
    var queue: seq<(string, Id)>
    /** Jobs already taken from the queue. */
    ghost var taken: seq<(string, Id)>

    constructor (schema: Schema)
      ensures this.schema == schema
      ensures out == [] && names == map[] && patterns == [] && counter == 0 && queue == [] && taken == []
    {
      this.schema := schema;
      out, names, patterns, counter, queue := [], map[], [], 0, [];
      taken := [];
    }

    ghost predicate Valid()
      reads this
    {
      Loaded(schema) && Sound(schema, taken + queue, counter, names, patterns, out)
    }

    /** `fn_for`: the name to call for a child, queueing it the first time it is met. */
    method FnFor(child: Id) returns (r: Result<string, EmitError>)
      requires Valid() && Compilable(schema, child)
      modifies this`names, this`counter, this`queue
      ensures Valid() && Extends(old(names), names) && old(queue) <= queue
      ensures r.Success? <==> Callable(schema.nodes[child])
      ensures r.Success? ==> Named(schema, names, child) && r.value == NameOf(schema, names, child)
    {
      var node := schema.nodes[child];
      if node.Boolean? {
        return Failure(NotADictionary);
      }
      if node.ref.Some? {
        var ref := node.ref.value;
        if node != BareRef(ref) {
          return Failure(RefWithSiblings);
        }
        if !(DEFS_PREFIX <= ref) {
          return Failure(NonLocalRef);
        }
        var name := LastSegment(ref);
        if !IsIdentifier(name) {
          return Failure(InvalidRefName);
        }
        return Success(CheckName(name));
      }
      if child !in names {
        Enqueue(child);
      }
      r := Success(names[child]);
    }

    method Enqueue(child: Id)
      requires Valid() && Compilable(schema, child) && child !in names
      requires Callable(schema.nodes[child]) && !IsRef(schema.nodes[child])
      modifies this`names, this`counter, this`queue
      ensures Valid() && names == old(names)[child := MemoName(old(counter))] && counter == old(counter) + 1
      ensures queue == old(queue) + [(MemoName(old(counter)), child)]
    {
      NewJob(schema, taken + queue, counter, names, patterns, out, child);
      Assoc(taken, queue, [(MemoName(counter), child)]);
      names := names[child := MemoName(counter)];
      counter := counter + 1;
      queue := queue + [(names[child], child)];
    }


    method FnForEach(cs: seq<Id>) returns (r: Result<seq<string>, EmitError>)
      requires Valid()
      requires forall i :: 0 <= i < |cs| ==> Compilable(schema, cs[i])
      modifies this`names, this`counter, this`queue
      ensures Valid() && Extends(old(names), names) && old(queue) <= queue
      ensures r.Success? <==> AllCallable(schema, cs)
      ensures r.Success? ==> AllNamed(schema, names, cs) && r.value == NamesOf(schema, names, cs)
    {
      var fns := [];
      for i := 0 to |cs|
        invariant Valid() && Extends(old(names), names) && old(queue) <= queue
        invariant AllNamed(schema, names, cs[..i]) && fns == NamesOf(schema, names, cs[..i])
      {
        ghost var before := names;
        var fn := FnFor(cs[i]);
        if fn.Failure? {
          return Failure(fn.error);
        }
        OneMoreName(schema, before, names, cs, i);
        fns := fns + [fn.value];
      }
      assert cs[..|cs|] == cs;
      assert forall i :: 0 <= i < |cs| ==> Named(schema, names, cs[i]);
      r := Success(fns);
    }

    method EmitString(n: Node) returns (lines: seq<Stmt>)
      requires Valid() && n.Dict?
      modifies this`patterns
      ensures Valid()
      ensures n.pattern.Some? ==> HasPattern(patterns, n.pattern.value)
      ensures lines == StringPart(patterns, n)
    {
      lines := LengthPart(n);
      if n.pattern.Some? {
        var p := n.pattern.value;
        var name := ConstName(|patterns|);
        if !HasPattern(patterns, p) {
          NewPattern(schema, taken + queue, counter, names, patterns, out, p);
          patterns := patterns + [(name, p)];
          assert patterns[|patterns| - 1].1 == p;
        }
        lines := lines + [Check(TestPattern(PatternName(patterns, p)), Violated("pattern"))];
      }
      lines := lines + FormatPart(n);
    }

    method EmitArray(n: Node) returns (r: Result<seq<Stmt>, EmitError>)
      requires Valid() && n.Dict?
      requires forall i :: 0 <= i < |ItemChildren(n)| ==> Compilable(schema, ItemChildren(n)[i])
      modifies this`names, this`counter, this`queue
      ensures Valid() && Extends(old(names), names) && old(queue) <= queue
      ensures r.Success? <==> AllCallable(schema, ItemChildren(n))
      ensures r.Success? ==> AllNamed(schema, names, ItemChildren(n)) && r.value == ArrayPart(schema, names, n)
    {
      var lines := CountPart(n);
      var fns := FnForEach(ItemChildren(n));
      if fns.Failure? {
        return Failure(fns.error);
      }
      if n.prefixItems.Some? {
        lines := lines + seq(|fns.value|, i requires 0 <= i < |fns.value| => CallIndex(i, fns.value[i]));
      } else if n.items.Some? {
        lines := lines + [CallEach(fns.value[0])];
      }
      r := Success(lines);
    }

    method EmitObject(n: Node) returns (r: Result<seq<Stmt>, EmitError>)
      requires Valid() && n.Dict?
      requires forall i :: 0 <= i < |OrEmpty(n.properties)| ==>
        Compilable(schema, PropertyIds(OrEmpty(n.properties))[i])
      modifies this`names, this`counter, this`queue
      ensures Valid() && Extends(old(names), names) && old(queue) <= queue
      ensures r.Success? <==> AllCallable(schema, PropertyIds(OrEmpty(n.properties)))
      ensures r.Success? ==>
        AllNamed(schema, names, PropertyIds(OrEmpty(n.properties))) && r.value == ObjectPart(schema, names, n)
    {
      var ps := OrEmpty(n.properties);
      var fns := FnForEach(PropertyIds(ps));
      if fns.Failure? {
        return Failure(fns.error);
      }
      var calls := seq(|ps|, i requires 0 <= i < |ps| => CallKey(ps[i].0, fns.value[i]));
      assert calls == KeyCalls(schema, names, ps);
      r := Success(Needs(OrEmpty(n.required)) + calls + ClosedPart(n));
    }

    method EmitCombinator(comb: Combinator, subs: Option<seq<Id>>) returns (r: Result<seq<Stmt>, EmitError>)
      requires Valid()
      requires forall i :: 0 <= i < |OrEmpty(subs)| ==> Compilable(schema, OrEmpty(subs)[i])
      modifies this`names, this`counter, this`queue
      ensures Valid() && Extends(old(names), names) && old(queue) <= queue
      ensures r.Success? <==> AllCallable(schema, OrEmpty(subs))
      ensures r.Success? ==>
        AllNamed(schema, names, OrEmpty(subs)) && r.value == ChoosePart(schema, names, comb, subs)
    {
      var fns := FnForEach(OrEmpty(subs));
      if fns.Failure? {
        return Failure(fns.error);
      }
      r := Success(if subs.Some? then [Choose(comb, fns.value)] else []);
    }

    /** The array and object sections of `emit_function`. */
    method EmitMembers(n: Node) returns (r: Result<seq<Stmt>, EmitError>)
      requires Valid() && n.Dict?
      requires forall i :: 0 <= i < |ItemChildren(n)| ==> Compilable(schema, ItemChildren(n)[i])
      requires forall i :: 0 <= i < |OrEmpty(n.properties)| ==>
        Compilable(schema, PropertyIds(OrEmpty(n.properties))[i])
      modifies this`names, this`counter, this`queue
      ensures Valid() && Extends(old(names), names) && old(queue) <= queue
      ensures r.Success? <==>
        AllCallable(schema, ItemChildren(n)) && AllCallable(schema, PropertyIds(OrEmpty(n.properties)))
      ensures r.Success? ==>
        && AllNamed(schema, names, ItemChildren(n)) && AllNamed(schema, names, PropertyIds(OrEmpty(n.properties)))
        && r.value == MemberPart(schema, names, n)
    {
      var arrays := EmitArray(n);
      if arrays.Failure? {
        return Failure(arrays.error);
      }
      ghost var before := names;
      var objects := EmitObject(n);
      if objects.Failure? {
        return Failure(objects.error);
      }
      ArrayStable(schema, before, names, n);
      r := Success(Guarded(HasArrayKeys(n), IsKind(n, TArray), TArray, arrays.value)
                   + Guarded(HasObjectKeys(n), IsKind(n, TObject), TObject, objects.value));
    }

    /** The `anyOf`, `oneOf` and `allOf` sections of `emit_function`. */
    method EmitChoices(n: Node) returns (r: Result<seq<Stmt>, EmitError>)
      requires Valid() && n.Dict?
      requires forall i :: 0 <= i < |OrEmpty(n.anyOf)| ==> Compilable(schema, OrEmpty(n.anyOf)[i])
      requires forall i :: 0 <= i < |OrEmpty(n.oneOf)| ==> Compilable(schema, OrEmpty(n.oneOf)[i])
      requires forall i :: 0 <= i < |OrEmpty(n.allOf)| ==> Compilable(schema, OrEmpty(n.allOf)[i])
      modifies this`names, this`counter, this`queue
      ensures Valid() && Extends(old(names), names) && old(queue) <= queue
      ensures r.Success? <==>
        && AllCallable(schema, OrEmpty(n.anyOf))
        && AllCallable(schema, OrEmpty(n.oneOf)) && AllCallable(schema, OrEmpty(n.allOf))
      ensures r.Success? ==>
        && AllNamed(schema, names, OrEmpty(n.anyOf)) && AllNamed(schema, names, OrEmpty(n.oneOf))
        && AllNamed(schema, names, OrEmpty(n.allOf)) && r.value == ChoicePart(schema, names, n)
    {
      var any := EmitCombinator(AnyOf, n.anyOf);
      if any.Failure? {
        return Failure(any.error);
      }
      ghost var nx := names;
      var one := EmitCombinator(OneOf, n.oneOf);
      if one.Failure? {
        return Failure(one.error);
      }
      ghost var ny := names;
      var fns := FnForEach(OrEmpty(n.allOf));
      if fns.Failure? {
        return Failure(fns.error);
      }
      ChooseStable(schema, nx, names, AnyOf, n.anyOf);
      ChooseStable(schema, ny, names, OneOf, n.oneOf);
      var calls := seq(|fns.value|, i requires 0 <= i < |fns.value| => Call(fns.value[i]));
      assert calls == Calls(schema, names, OrEmpty(n.allOf));
      r := Success(any.value + one.value + calls);
    }

    /** The statements of `emit_function`, once the dictionary itself is accepted. */
    method EmitBody(ghost id: Id, n: Node) returns (r: Result<seq<Stmt>, EmitError>)
      requires Valid() && id in schema.nodes && schema.nodes[id] == n && n.Dict? && Reachable(schema, id)
      modifies this`names, this`counter, this`queue, this`patterns
      ensures Valid() && Extends(old(names), names) && old(queue) <= queue
      ensures r.Success? <==> AllCallable(schema, Children(n))
      ensures r.Success? ==>
        && Wired(schema, names, n) && (n.pattern.Some? ==> HasPattern(patterns, n.pattern.value))
        && r.value == Body(schema, names, patterns, n)
    {
      ChildrenCompilable(schema, id);
      AllCallableParts(schema, n);
      var scalars := TypePart(n) + LiteralPart(n)
        + Guarded(HasNumberKeys(n), IsKind(n, TNumber) || IsKind(n, TInteger), TNumber, NumericPart(n));
      var strings := EmitString(n);
      var members := EmitMembers(n);
      if members.Failure? {
        return Failure(members.error);
      }
      ghost var before := names;
      var choices := EmitChoices(n);
      if choices.Failure? {
        return Failure(choices.error);
      }
      var lines := scalars + Guarded(HasStringKeys(n), IsKind(n, TString), TString, strings)
        + members.value + choices.value;
      FinishBody(schema, before, names, patterns, n, lines);
      r := Success(lines);
    }

    /** `emit_function`. */
    method EmitFunction(name: string, id: Id) returns (r: Result<(), EmitError>)
      requires Valid() && id in schema.nodes && Reachable(schema, id)
      requires IsRef(schema.nodes[id]) ==> IsEntry(schema, id)
      modifies this`names, this`counter, this`queue, this`patterns, this`out
      ensures Valid() && Extends(old(names), names) && old(queue) <= queue
      ensures r.Success? <==> Accepted(schema, id)
      ensures r.Success? ==> Jobs(out) == old(Jobs(out)) + [(name, id)]
    {
      var n := schema.nodes[id];
      if n.Boolean? {
        return Failure(NotADictionary);
      }
      if n.unknownKeyword {
        return Failure(UnknownKeywords);
      }
      if !Emittable(n) {
        return Failure(UnsupportedType);
      }
      var lines := EmitBody(id, n);
      if lines.Failure? {
        return Failure(lines.error);
      }
      FinishJob(schema, taken + queue, counter, names, patterns, out, Function(name, id, lines.value));
      out := out + [Function(name, id, lines.value)];
      r := Success(());
    }

    method SeedQueue()
      requires Loaded(schema)
      requires out == [] && names == map[] && patterns == [] && counter == 0 && queue == [] && taken == []
      modifies this`names, this`queue
      ensures Valid()
    {
      for i := 0 to |schema.defs|
        invariant queue == DefJobs(schema.defs[..i])
        invariant SeedNames(schema.defs[..i], names)
      {
        var (name, id) := schema.defs[i];
        SeedOneMore(schema.defs, names, i);
        names := names[id := CheckName(name)];
        queue := queue + [(CheckName(name), id)];
      }
      assert schema.defs[..|schema.defs|] == schema.defs;
      queue := queue + [("check_root", schema.root)];
      SeedSound(schema, names);
      assert taken + queue == queue;
    }

    /** One turn of the work loop. */
    method EmitNext() returns (r: Result<(), EmitError>)
      requires Valid() && Jobs(out) == taken && queue != []
      modifies this`names, this`counter, this`queue, this`patterns, this`out, this`taken
      ensures Valid() && old(queue[1..]) <= queue && taken == old(taken + [queue[0]])
      ensures Reachable(schema, old(queue[0].1))
      ensures r.Success? <==> Accepted(schema, old(queue[0].1))
      ensures r.Success? ==> Jobs(out) == taken
    {
      var (name, id) := queue[0];
      JobSound(schema, taken + queue, counter, names, patterns, out, |taken|);
      Pop(taken, queue);
      taken, queue := taken + [queue[0]], queue[1..];
      r := EmitFunction(name, id);
    }

    /** The work loop; every turn either names a new dictionary or shortens the queue. */
    method Drain() returns (r: Result<(), EmitError>)
      requires Valid() && Jobs(out) == taken == []
      modifies this`names, this`counter, this`queue, this`patterns, this`out, this`taken
      ensures Valid()
      ensures r.Success? ==> queue == [] && Jobs(out) == taken && AllAccepted(schema, taken)
      ensures r.Failure? ==> exists id :: Reachable(schema, id) && !Accepted(schema, id)
    {
      PlanBounded(schema, taken + queue, counter, names, patterns, out);
      while queue != []
        invariant Valid() && Jobs(out) == taken && AllAccepted(schema, taken)
        invariant |taken + queue| <= |schema.nodes|
        decreases |schema.nodes| - |taken + queue|, |queue|
      {
        var done := EmitNext();
        PlanBounded(schema, taken + queue, counter, names, patterns, out);
        if done.Failure? {
          return Failure(done.error);
        }
      }
      r := Success(());
    }

    /** `emit_all`: definitions, then the root, then whatever they turn out to need. */
    method EmitAll() returns (r: Result<Program, EmitError>)
      requires Loaded(schema)
      requires out == [] && names == map[] && patterns == [] && counter == 0 && queue == [] && taken == []
      modifies this
      ensures r.Success? <==> forall id :: Reachable(schema, id) ==> Accepted(schema, id)
      ensures r.Success? ==> Finished(schema, counter, names, r.value)
    {
      SeedQueue();
      var done := Drain();
      if done.Failure? {
        return Failure(done.error);
      }
      assert taken + queue == taken;
      r := Success(Program(patterns, out));
      ReachableAccepted(schema, counter, names, r.value);
    }
  }

  predicate AllAccepted(s: Schema, jobs: seq<(string, Id)>) {
    forall k :: 0 <= k < |jobs| ==> Accepted(s, jobs[k].1)
  }

  lemma Pop<T>(front: seq<T>, back: seq<T>)
    requires back != []
    ensures (front + [back[0]]) + back[1..] == front + back
    ensures (front + back)[|front|] == back[0]
  {
  }

  /** The tables when the queue has run dry: every job has become a function. */
  ghost predicate Finished(s: Schema, counter: nat, names: Names, p: Program) {
    Loaded(s) && Sound(s, Jobs(p.funs), counter, names, p.consts, p.funs)
  }

  lemma ReachableAccepted(s: Schema, counter: nat, names: Names, p: Program)
    requires Finished(s, counter, names, p)
    requires AllAccepted(s, Jobs(p.funs))
    ensures forall id :: Reachable(s, id) ==> Accepted(s, id)
  {
    forall id | Reachable(s, id)
      ensures Accepted(s, id)
    {
      ReachableEmitted(s, counter, names, p);
      var k :| 0 <= k < |p.funs| && p.funs[k].source == id;
      assert Jobs(p.funs)[k].1 == id;
    }
  }

  lemma JobSound(s: Schema, plan: seq<(string, Id)>, counter: nat, names: Names, consts: seq<(string, string)>,
                 funs: seq<Function>, i: nat)
    requires Sound(s, plan, counter, names, consts, funs) && i < |plan|
    ensures plan[i].1 in s.nodes && Reachable(s, plan[i].1) && (IsRef(s.nodes[plan[i].1]) ==> IsEntry(s, plan[i].1))
  {
    Unfold(s, plan, counter, names, consts, funs);
  }

  predicate EmittedFor(p: Program, id: Id) {
    exists k :: 0 <= k < |p.funs| && p.funs[k].source == id
  }

  lemma EntryEmitted(s: Schema, counter: nat, names: Names, p: Program, id: Id)
    requires Finished(s, counter, names, p) && IsEntry(s, id)
    ensures EmittedFor(p, id)
  {
    var plan := Jobs(p.funs);
    Unfold(s, plan, counter, names, p.consts, p.funs);
    if id == s.root {
      assert plan[|s.defs|].1 == p.funs[|s.defs|].source;
    } else {
      var d :| 0 <= d < |s.defs| && s.defs[d].1 == id;
      assert plan[d].1 == p.funs[d].source;
    }
  }

  lemma ChildNamed(s: Schema, names: Names, consts: seq<(string, string)>, f: Function, child: Id)
    requires Translated(s, names, consts, f) && CompiledChild(s, f.source, child)
    ensures child in names
  {
    var j :| 0 <= j < |Children(s.nodes[f.source])| && Children(s.nodes[f.source])[j] == child;
    assert Named(s, names, Children(s.nodes[f.source])[j]);
  }

  lemma ChildEmitted(s: Schema, counter: nat, names: Names, p: Program, k: nat, child: Id)
    requires Finished(s, counter, names, p) && k < |p.funs| && CompiledChild(s, p.funs[k].source, child)
    ensures EmittedFor(p, child)
  {
    var plan := Jobs(p.funs);
    Unfold(s, plan, counter, names, p.consts, p.funs);
    ChildNamed(s, names, p.consts, p.funs[k], child);
    var q :| 0 <= q < |plan| && q != |s.defs| && plan[q].1 == child;
    assert p.funs[q].source == child;
  }

  lemma {:induction false} ChainEmitted(s: Schema, counter: nat, names: Names, p: Program, ids: seq<Id>, i: nat)
    requires Finished(s, counter, names, p) && Chain(s, ids) && i < |ids|
    ensures EmittedFor(p, ids[i])
  {
    if i == 0 {
      EntryEmitted(s, counter, names, p, ids[0]);
    } else {
      ChainEmitted(s, counter, names, p, ids, i - 1);
      var k :| 0 <= k < |p.funs| && p.funs[k].source == ids[i - 1];
      assert CompiledChild(s, ids[i - 1], ids[i]);
      ChildEmitted(s, counter, names, p, k, ids[i]);
    }
  }

  /** Exactly the reachable dictionaries were emitted, each exactly once. */
  lemma ReachableEmitted(s: Schema, counter: nat, names: Names, p: Program)
    requires Finished(s, counter, names, p)
    ensures forall id :: Reachable(s, id) <==> EmittedFor(p, id)
    ensures forall i, j :: 0 <= i < j < |p.funs| ==> p.funs[i].source != p.funs[j].source
  {
    forall id
      ensures Reachable(s, id) <==> EmittedFor(p, id)
    {
      if Reachable(s, id) {
        var ids :| Chain(s, ids) && ids[|ids| - 1] == id;
        ChainEmitted(s, counter, names, p, ids, |ids| - 1);
      }
      if EmittedFor(p, id) {
        var k :| 0 <= k < |p.funs| && p.funs[k].source == id;
        JobSound(s, Jobs(p.funs), counter, names, p.consts, p.funs, k);
      }
    }
    Unfold(s, Jobs(p.funs), counter, names, p.consts, p.funs);
    forall i, j | 0 <= i < j < |p.funs|
      ensures p.funs[i].source != p.funs[j].source
    {
      assert Jobs(p.funs)[i].1 != Jobs(p.funs)[j].1;
    }
  }

  function DefJobs(defs: seq<(string, Id)>): seq<(string, Id)> {
    seq(|defs|, i requires 0 <= i < |defs| => (CheckName(defs[i].0), defs[i].1))
  }

  predicate SeedNames(defs: seq<(string, Id)>, names: Names) {
    && (forall i :: 0 <= i < |defs| ==> defs[i].1 in names && names[defs[i].1] == CheckName(defs[i].0))
    && (forall id :: id in names ==> exists i :: 0 <= i < |defs| && defs[i].1 == id)
  }

  lemma SeedOneMore(defs: seq<(string, Id)>, names: Names, i: nat)
    requires i < |defs| && SeedNames(defs[..i], names)
    requires forall p, q :: 0 <= p < q < |defs| ==> defs[p].1 != defs[q].1
    ensures SeedNames(defs[..i + 1], names[defs[i].1 := CheckName(defs[i].0)])
    ensures DefJobs(defs[..i + 1]) == DefJobs(defs[..i]) + [(CheckName(defs[i].0), defs[i].1)]
  {
    var names' := names[defs[i].1 := CheckName(defs[i].0)];
    var before, after := defs[..i], defs[..i + 1];
    forall id | id in names'
      ensures exists k :: 0 <= k < |after| && after[k].1 == id
    {
      if id == defs[i].1 {
        assert after[i].1 == id;
      } else {
        var k :| 0 <= k < |before| && before[k].1 == id;
        assert after[k].1 == id;
      }
    }
  }

  lemma SeedSound(s: Schema, names: Names)
    requires Loaded(s) && SeedNames(s.defs, names)
    ensures Sound(s, DefJobs(s.defs) + [("check_root", s.root)], 0, names, [], [])
  {
    var plan := DefJobs(s.defs) + [("check_root", s.root)];
    SeedShape(s, plan);
    SeedMemo(s, plan, names);
    SeedReachable(s, plan);
    SoundAtFirst(s, plan, names);
  }

  lemma SeedShape(s: Schema, plan: seq<(string, Id)>)
    requires plan == DefJobs(s.defs) + [("check_root", s.root)]
    ensures PlanShape(s, plan, 0)
  {
  }

  lemma SoundAtFirst(s: Schema, plan: seq<(string, Id)>, names: Names)
    requires PlanShape(s, plan, 0) && MemoAgrees(s, plan, names) && PlanSound(s, plan)
    ensures Sound(s, plan, 0, names, [], [])
  {
    assert Tables(s, plan, 0, names, [], []);
  }

  lemma SeedMemo(s: Schema, plan: seq<(string, Id)>, names: Names)
    requires SeedNames(s.defs, names) && plan == DefJobs(s.defs) + [("check_root", s.root)]
    ensures MemoAgrees(s, plan, names)
  {
    forall id | id in names
      ensures exists i :: 0 <= i < |plan| && i != |s.defs| && plan[i].1 == id
    {
      var i :| 0 <= i < |s.defs| && s.defs[i].1 == id;
      assert plan[i].1 == id;
    }
  }

  lemma SeedReachable(s: Schema, plan: seq<(string, Id)>)
    requires Loaded(s) && plan == DefJobs(s.defs) + [("check_root", s.root)]
    ensures PlanSound(s, plan)
  {
    forall i | 0 <= i < |plan|
      ensures plan[i].1 in s.nodes && Reachable(s, plan[i].1) && IsEntry(s, plan[i].1)
    {
      assert i < |s.defs| ==> plan[i].1 == s.defs[i].1;
      ReachEntry(s, plan[i].1);
    }
  }

  lemma PlanBounded(s: Schema, plan: seq<(string, Id)>, counter: nat, names: Names, consts: seq<(string, string)>,
                    funs: seq<Function>)
    requires Sound(s, plan, counter, names, consts, funs)
    ensures |plan| <= |s.nodes|
  {
    Unfold(s, plan, counter, names, consts, funs);
    DistinctInSet(seq(|plan|, i requires 0 <= i < |plan| => plan[i].1), s.nodes.Keys);
  }

  lemma {:induction false} DistinctInSet(ids: seq<Id>, all: set<Id>)
    requires forall i, j :: 0 <= i < j < |ids| ==> ids[i] != ids[j]
    requires forall i :: 0 <= i < |ids| ==> ids[i] in all
    ensures |ids| <= |all|
  {
    if ids != [] {
      DistinctInSet(ids[1..], all - {ids[0]});
    }
  }

  function MemberPart(s: Schema, names: Names, n: Node): seq<Stmt>
    requires n.Dict?
  {
    Guarded(HasArrayKeys(n), IsKind(n, TArray), TArray, ArrayPart(s, names, n))
    + Guarded(HasObjectKeys(n), IsKind(n, TObject), TObject, ObjectPart(s, names, n))
  }

  function ChoicePart(s: Schema, names: Names, n: Node): seq<Stmt>
    requires n.Dict?
  {
    ChoosePart(s, names, AnyOf, n.anyOf) + ChoosePart(s, names, OneOf, n.oneOf) + Calls(s, names, OrEmpty(n.allOf))
  }

  lemma AllCallableConcat(s: Schema, a: seq<Id>, b: seq<Id>)
    ensures AllCallable(s, a + b) <==> AllCallable(s, a) && AllCallable(s, b)
  {
    if AllCallable(s, a + b) {
      assert forall i :: 0 <= i < |a| ==> a[i] == (a + b)[i];
      assert forall i :: 0 <= i < |b| ==> b[i] == (a + b)[|a| + i];
    }
  }

  lemma AllCallableParts(s: Schema, n: Node)
    requires n.Dict?
    ensures AllCallable(s, Children(n)) <==>
      && AllCallable(s, ItemChildren(n)) && AllCallable(s, PropertyIds(OrEmpty(n.properties)))
      && AllCallable(s, OrEmpty(n.anyOf)) && AllCallable(s, OrEmpty(n.oneOf)) && AllCallable(s, OrEmpty(n.allOf))
  {
    var a, b := ItemChildren(n), PropertyIds(OrEmpty(n.properties));
    AllCallableConcat(s, a, b);
    AllCallableConcat(s, a + b, OrEmpty(n.anyOf));
    AllCallableConcat(s, a + b + OrEmpty(n.anyOf), OrEmpty(n.oneOf));
    AllCallableConcat(s, a + b + OrEmpty(n.anyOf) + OrEmpty(n.oneOf), OrEmpty(n.allOf));
  }

  lemma ChildrenCompilable(s: Schema, id: Id)
    requires Loaded(s) && id in s.nodes && s.nodes[id].Dict? && Reachable(s, id)
    ensures forall c :: c in Children(s.nodes[id]) ==> Compilable(s, c)
  {
    var n := s.nodes[id];
    forall c | c in Children(n)
      ensures Compilable(s, c)
    {
      assert c in Subschemas(n);
      if !IsRef(s.nodes[c]) {
        ReachChild(s, id, c);
      }
    }
  }

  /** The collected lines are the body under the names settled by the end of the job. */
  lemma FinishBody(s: Schema, before: Names, names: Names, consts: seq<(string, string)>, n: Node, lines: seq<Stmt>)
    requires n.Dict? && Extends(before, names)
    requires AllNamed(s, before, ItemChildren(n)) && AllNamed(s, before, PropertyIds(OrEmpty(n.properties)))
    requires AllNamed(s, names, OrEmpty(n.anyOf)) && AllNamed(s, names, OrEmpty(n.oneOf))
    requires AllNamed(s, names, OrEmpty(n.allOf))
    requires lines == TypePart(n) + LiteralPart(n)
      + Guarded(HasNumberKeys(n), IsKind(n, TNumber) || IsKind(n, TInteger), TNumber, NumericPart(n))
      + Guarded(HasStringKeys(n), IsKind(n, TString), TString, StringPart(consts, n))
      + MemberPart(s, before, n) + ChoicePart(s, names, n)
    ensures AllNamed(s, names, Children(n)) && lines == Body(s, names, consts, n)
  {
    ArrayStable(s, before, names, n);
    ObjectStable(s, before, names, n);
    ChildrenNamed(s, names, n);
    Flattened(TypePart(n), LiteralPart(n),
      Guarded(HasNumberKeys(n), IsKind(n, TNumber) || IsKind(n, TInteger), TNumber, NumericPart(n)),
      Guarded(HasStringKeys(n), IsKind(n, TString), TString, StringPart(consts, n)),
      Guarded(HasArrayKeys(n), IsKind(n, TArray), TArray, ArrayPart(s, names, n)),
      Guarded(HasObjectKeys(n), IsKind(n, TObject), TObject, ObjectPart(s, names, n)),
      ChoosePart(s, names, AnyOf, n.anyOf), ChoosePart(s, names, OneOf, n.oneOf), Calls(s, names, OrEmpty(n.allOf)));
  }

  lemma Flattened<T>(a: seq<T>, b: seq<T>, c: seq<T>, d: seq<T>, e: seq<T>, f: seq<T>, g: seq<T>, h: seq<T>, i: seq<T>)
    ensures a + b + c + d + (e + f) + (g + h + i) == a + b + c + d + e + f + g + h + i
  {
  }

  lemma FinishJob(s: Schema, plan: seq<(string, Id)>, counter: nat, names: Names, consts: seq<(string, string)>,
                  funs: seq<Function>, f: Function)
    requires Sound(s, plan, counter, names, consts, funs) && Translated(s, names, consts, f)
    ensures Sound(s, plan, counter, names, consts, funs + [f])
    ensures Jobs(funs + [f]) == Jobs(funs) + [(f.name, f.source)]
  {
    Unfold(s, plan, counter, names, consts, funs);
    OneMoreTranslated(s, names, consts, funs, f);
    OneMoreJob(funs, f);
    assert Tables(s, plan, counter, names, consts, funs + [f]);
  }

  lemma OneMoreJob(funs: seq<Function>, f: Function)
    ensures Jobs(funs + [f]) == Jobs(funs) + [(f.name, f.source)]
  {
  }

  lemma OneMoreTranslated(s: Schema, names: Names, consts: seq<(string, string)>, funs: seq<Function>, f: Function)
    requires AllTranslated(s, names, consts, funs) && Translated(s, names, consts, f)
    ensures AllTranslated(s, names, consts, funs + [f])
  {
    forall k | 0 <= k < |funs + [f]|
      ensures Translated(s, names, consts, (funs + [f])[k])
    {
      if k < |funs| {
        assert Translated(s, names, consts, funs[k]);
      }
    }
  }

  lemma NewPattern(s: Schema, plan: seq<(string, Id)>, counter: nat, names: Names, consts: seq<(string, string)>,
                   funs: seq<Function>, p: string)
    requires Sound(s, plan, counter, names, consts, funs) && !HasPattern(consts, p)
    ensures Sound(s, plan, counter, names, consts + [(ConstName(|consts|), p)], funs)
  {
    Unfold(s, plan, counter, names, consts, funs);
    AllTranslatedStable(s, names, names, consts, [(ConstName(|consts|), p)], funs);
  }

  lemma OneMoreName(s: Schema, names: Names, names': Names, cs: seq<Id>, i: nat)
    requires i < |cs| && Extends(names, names') && AllNamed(s, names, cs[..i]) && Named(s, names', cs[i])
    ensures AllNamed(s, names', cs[..i + 1])
    ensures NamesOf(s, names', cs[..i + 1]) == NamesOf(s, names, cs[..i]) + [NameOf(s, names', cs[i])]
  {
    NamesStable(s, names, names', cs[..i]);
    assert cs[..i + 1] == cs[..i] + [cs[i]];
  }

  lemma NewJob(s: Schema, plan: seq<(string, Id)>, counter: nat, names: Names, consts: seq<(string, string)>,
               funs: seq<Function>, child: Id)
    requires Sound(s, plan, counter, names, consts, funs)
    requires child in s.nodes && child != s.root && child !in names && !IsRef(s.nodes[child]) && Reachable(s, child)
    ensures Sound(s, plan + [(MemoName(counter), child)], counter + 1, names[child := MemoName(counter)], consts, funs)
  {
    Unfold(s, plan, counter, names, consts, funs);
    NewJobMemo(s, plan, names, MemoName(counter), child);
    NewJobShape(s, plan, counter, child);
    assert consts + [] == consts;
    AllTranslatedStable(s, names, names[child := MemoName(counter)], consts, [], funs);
  }

  lemma NewJobShape(s: Schema, plan: seq<(string, Id)>, counter: nat, child: Id)
    requires PlanShape(s, plan, counter)
    ensures PlanShape(s, plan + [(MemoName(counter), child)], counter + 1)
  {
  }

  lemma NewJobMemo(s: Schema, plan: seq<(string, Id)>, names: Names, name: string, child: Id)
    requires |plan| > |s.defs| && plan[|s.defs|].1 == s.root
    requires MemoAgrees(s, plan, names) && PlanSound(s, plan)
    requires child in s.nodes && child != s.root && child !in names && !IsRef(s.nodes[child]) && Reachable(s, child)
    ensures MemoAgrees(s, plan + [(name, child)], names[child := name])
    ensures PlanSound(s, plan + [(name, child)])
  {
    forall i | 0 <= i < |plan|
      ensures plan[i].1 != child
    {
      assert i != |s.defs| ==> plan[i].1 in names;
    }
    PlanMore(s, plan, name, child);
    MemoMore(s, plan, names, name, child);
  }

  lemma PlanMore(s: Schema, plan: seq<(string, Id)>, name: string, child: Id)
    requires PlanSound(s, plan) && forall i :: 0 <= i < |plan| ==> plan[i].1 != child
    requires child in s.nodes && !IsRef(s.nodes[child]) && Reachable(s, child)
    ensures PlanSound(s, plan + [(name, child)])
  {
  }

  lemma MemoMore(s: Schema, plan: seq<(string, Id)>, names: Names, name: string, child: Id)
    requires |plan| > |s.defs| && MemoAgrees(s, plan, names) && forall i :: 0 <= i < |plan| ==> plan[i].1 != child
    ensures MemoAgrees(s, plan + [(name, child)], names[child := name])
  {
    var plan', names' := plan + [(name, child)], names[child := name];
    forall id | id in names'
      ensures exists i :: 0 <= i < |plan'| && i != |s.defs| && plan'[i].1 == id
    {
      if id == child {
        assert plan'[|plan|].1 == id;
      } else {
        var i :| 0 <= i < |plan| && i != |s.defs| && plan[i].1 == id;
        assert plan'[i].1 == id;
      }
    }
  }

  lemma AllTranslatedStable(s: Schema, names: Names, names': Names, consts: seq<(string, string)>,
                            more: seq<(string, string)>, funs: seq<Function>)
    requires Extends(names, names') && AllTranslated(s, names, consts, funs)
    ensures AllTranslated(s, names', consts + more, funs)
  {
    forall k | 0 <= k < |funs|
      ensures Translated(s, names', consts + more, funs[k])
    {
      assert Translated(s, names, consts, funs[k]);
      TranslatedStable(s, names, names', consts, more, funs[k]);
    }
  }

  // ----- The finished program is closed and linked -----

  predicate NoRootDefinition(s: Schema) {
    forall i :: 0 <= i < |s.defs| ==> s.defs[i].0 != "root"
  }

  lemma CheckNameInjective(a: string, b: string)
    ensures CheckName(a) == CheckName(b) ==> a == b
  {
    assert CheckName(a)[6..] == a && CheckName(b)[6..] == b;
  }

  lemma MemoNameDistinct(i: nat, j: nat, def: string)
    ensures MemoName(i) == MemoName(j) ==> i == j
    ensures MemoName(i) != CheckName(def)
  {
    DecimalInjective(i, j);
    assert MemoName(i)[1..] == Decimal(i) && MemoName(j)[1..] == Decimal(j);
    assert IsDigit(Decimal(i)[0]);
    assert MemoName(i)[1] == Decimal(i)[0] && CheckName(def)[1] == 'h';
  }

  predicate DistinctNames(p: Program) {
    forall i, j :: 0 <= i < j < |p.funs| ==> p.funs[i].name != p.funs[j].name
  }

  /** Function names are distinct, unless a definition is called `root`. */
  lemma NamesDistinct(s: Schema, counter: nat, names: Names, p: Program)
    requires Finished(s, counter, names, p)
    ensures DistinctNames(p) <==> NoRootDefinition(s)
  {
    Unfold(s, Jobs(p.funs), counter, names, p.consts, p.funs);
    PlanNames(s, Jobs(p.funs), counter, p);
  }

  lemma PlanNames(s: Schema, plan: seq<(string, Id)>, counter: nat, p: Program)
    requires Loaded(s) && plan == Jobs(p.funs) && PlanShape(s, plan, counter)
    ensures DistinctNames(p) <==> NoRootDefinition(s)
  {
    if NoRootDefinition(s) {
      forall i, j | 0 <= i < j < |p.funs|
        ensures p.funs[i].name != p.funs[j].name
      {
        JobNames(s, plan, counter, i, j);
        assert plan[i].0 == p.funs[i].name && plan[j].0 == p.funs[j].name;
      }
    } else {
      var i :| 0 <= i < |s.defs| && s.defs[i].0 == "root";
      assert plan[i].0 == CheckName("root") == "check_root" == plan[|s.defs|].0;
      assert p.funs[i].name == p.funs[|s.defs|].name;
    }
  }

  lemma JobNames(s: Schema, plan: seq<(string, Id)>, counter: nat, i: nat, j: nat)
    requires Loaded(s) && PlanShape(s, plan, counter) && NoRootDefinition(s) && i < j < |plan|
    ensures plan[i].0 != plan[j].0
  {
    var d := |s.defs|;
    assert CheckName("root") == "check_root";
    if j < d {
      CheckNameInjective(s.defs[i].0, s.defs[j].0);
    } else if j == d {
      CheckNameInjective(s.defs[i].0, "root");
    } else {
      var m := j - d - 1;
      assert plan[j].0 == MemoName(m);
      if i < d {
        MemoNameDistinct(m, m, s.defs[i].0);
      } else if i == d {
        MemoNameDistinct(m, m, "root");
      } else {
        assert plan[i].0 == MemoName(i - d - 1);
        MemoNameDistinct(i - d - 1, m, "");
      }
    }
  }

  lemma {:induction false} UniqueSource(funs: seq<Function>, k: nat)
    requires k < |funs| && forall i, j :: 0 <= i < j < |funs| ==> funs[i].name != funs[j].name
    ensures SourceOf(funs, funs[k].name) == Some(funs[k].source)
  {
    if k > 0 {
      UniqueSource(funs[1..], k - 1);
    }
  }

  lemma ConstNamesDistinct(consts: seq<(string, string)>)
    requires ConstShape(consts)
    ensures DistinctConsts(consts)
  {
    forall i, j | 0 <= i < j < |consts|
      ensures consts[i].0 != consts[j].0
    {
      assert ConstName(i)[2..] == Decimal(i) && ConstName(j)[2..] == Decimal(j);
      DecimalInjective(i, j);
    }
  }

  /** What `emit_all` returns is the program the correctness theorem is about. */
  lemma FinishedLinked(s: Schema, counter: nat, names: Names, p: Program)
    requires Finished(s, counter, names, p) && NoRootDefinition(s)
    ensures Linked(s, names, p) && CompiledTo(s, p)
  {
    NamesDistinct(s, counter, names, p);
    Unfold(s, Jobs(p.funs), counter, names, p.consts, p.funs);
    ConstNamesDistinct(p.consts);
    forall k | 0 <= k < |p.funs|
      ensures SourceOf(p.funs, p.funs[k].name) == Some(p.funs[k].source)
      ensures p.funs[k].name == Jobs(p.funs)[k].0 && p.funs[k].source == Jobs(p.funs)[k].1
    {
      UniqueSource(p.funs, k);
    }
    forall id | id in names
      ensures SourceOf(p.funs, names[id]) == Some(id)
    {
      var i :| 0 <= i < |Jobs(p.funs)| && i != |s.defs| && Jobs(p.funs)[i].1 == id;
      assert p.funs[i].source == id && p.funs[i].name == names[id];
    }
    assert Resolves(s, names, p.funs) by {
      assert p.funs[|s.defs|].name == "check_root";
      assert forall i :: 0 <= i < |s.defs| ==> p.funs[i].name == CheckName(s.defs[i].0);
    }
  }

  /** A callee is declared, unless a reference names neither a definition nor the root. */
  lemma CalleeDeclared(s: Schema, counter: nat, names: Names, p: Program, k: nat, child: Id)
    requires Finished(s, counter, names, p) && NoRootDefinition(s)
    requires k < |p.funs| && p.funs[k].source in s.nodes && child in Children(s.nodes[p.funs[k].source])
    ensures child in s.nodes
    ensures SourceOf(p.funs, NameOf(s, names, child)).None? <==>
      && IsRef(s.nodes[child])
      && LastSegment(s.nodes[child].ref.value) != "root"
      && DefNamed(s.defs, LastSegment(s.nodes[child].ref.value)).None?
  {
    FinishedLinked(s, counter, names, p);
    assert Translated(s, names, p.consts, p.funs[k]);
    var j :| 0 <= j < |Children(s.nodes[p.funs[k].source])| && Children(s.nodes[p.funs[k].source])[j] == child;
    assert Named(s, names, child);
    if IsRef(s.nodes[child]) {
      CheckCallee(s, counter, names, p, LastSegment(s.nodes[child].ref.value));
    }
  }

  lemma JobCalledCheck(s: Schema, plan: seq<(string, Id)>, counter: nat, i: nat, def: string)
    requires PlanShape(s, plan, counter) && i < |plan| && plan[i].0 == CheckName(def)
    ensures (i < |s.defs| && s.defs[i].0 == def) || def == "root"
  {
    if i < |s.defs| {
      CheckNameInjective(s.defs[i].0, def);
    } else if i == |s.defs| {
      assert CheckName("root") == "check_root";
      CheckNameInjective("root", def);
    } else {
      MemoNameDistinct(i - |s.defs| - 1, 0, def);
    }
  }

  lemma CheckCallee(s: Schema, counter: nat, names: Names, p: Program, def: string)
    requires Finished(s, counter, names, p) && NoRootDefinition(s)
    ensures SourceOf(p.funs, CheckName(def)).Some? <==> def == "root" || DefNamed(s.defs, def).Some?
  {
    DefNamedIs(s.defs, def);
    if SourceOf(p.funs, CheckName(def)).Some? {
      Unfold(s, Jobs(p.funs), counter, names, p.consts, p.funs);
      var i := NamedAt(p.funs, CheckName(def));
      JobCalledCheck(s, Jobs(p.funs), counter, i, def);
    }
    if def == "root" || DefNamed(s.defs, def).Some? {
      CheckDeclared(s, counter, names, p, def);
    }
  }

  lemma CheckDeclared(s: Schema, counter: nat, names: Names, p: Program, def: string)
    requires Finished(s, counter, names, p) && NoRootDefinition(s)
    requires def == "root" || DefNamed(s.defs, def).Some?
    ensures SourceOf(p.funs, CheckName(def)).Some?
  {
    FinishedLinked(s, counter, names, p);
    DefNamedIs(s.defs, def);
    assert CheckName("root") == "check_root";
  }

  lemma {:induction false} NamedAt(funs: seq<Function>, fn: string) returns (k: nat)
    requires SourceOf(funs, fn).Some?
    ensures k < |funs| && funs[k].name == fn
  {
    if funs[0].name == fn {
      k := 0;
    } else {
      var j := NamedAt(funs[1..], fn);
      k := j + 1;
    }
  }

  /** `generate_validator`: it succeeds exactly when every reachable dictionary is accepted; the
      program then holds one function per reachable dictionary and, unless a definition is called
      `root`, means what the correctness theorem says. */
  method GenerateValidator(s: Schema) returns (r: Result<Program, EmitError>)
    requires Loaded(s)
    ensures r.Success? <==> forall id :: Reachable(s, id) ==> Accepted(s, id)
    ensures r.Success? ==> forall id :: Reachable(s, id) <==> EmittedFor(r.value, id)
    ensures r.Success? ==>
      forall i, j :: 0 <= i < j < |r.value.funs| ==> r.value.funs[i].source != r.value.funs[j].source
    ensures r.Success? ==> (DistinctNames(r.value) <==> NoRootDefinition(s))
    ensures r.Success? && NoRootDefinition(s) ==> CompiledTo(s, r.value)
  {
    var emitter := new Emitter(s);
    r := emitter.EmitAll();
    if r.Success? {
      ReachableEmitted(s, emitter.counter, emitter.names, r.value);
      NamesDistinct(s, emitter.counter, emitter.names, r.value);
      if NoRootDefinition(s) {
        FinishedLinked(s, emitter.counter, emitter.names, r.value);
      }
    }
  }
}
