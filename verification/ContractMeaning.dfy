/** The language the emitted program decides for any accepted document, clean or not. */
module ContractMeaning {
  import opened Outcome
  import opened Paths
  import opened Json
  import opened JsonSchema
  import opened ContractIr
  import opened ContractScheme
  import opened ContractCorrectness
  import opened ContractEmitter

  /** The names a call can reach: definitions and, through the function of that name, the root. */
  function ReadDefs(s: Schema): seq<(string, Id)> {
    if DefNamed(s.defs, "root").Some? then s.defs else s.defs + [("root", s.root)]
  }

  /** The last segment of the reference is such a name. */
  predicate EndsInName(s: Schema, ref: string) {
    IsIdentifier(LastSegment(ref)) && DefNamed(ReadDefs(s), LastSegment(ref)).Some?
  }

  /** A reference as the emitter reads it: nowhere where a function is emitted, and cut to its last segment where a call
      is. */
  function ReadRef(s: Schema, id: Id, ref: Option<string>): Option<string> {
    if ref.None? || IsEntry(s, id) || !EndsInName(s, ref.value) then None
    else Some(DEFS_PREFIX + LastSegment(ref.value))
  }

  /** The dictionary as the emitter reads it: `items` beside `prefixItems` and a schema under `additionalProperties` are
      not there. */
  function Read(s: Schema, id: Id): Node
    requires id in s.nodes
  {
    var n := s.nodes[id];
    if n.Boolean? then n
    else
      n.(ref := ReadRef(s, id, n.ref),
         kind := if n.kind == Some(AnyType([])) then None else n.kind,
         items := if n.prefixItems.Some? then None else n.items,
         additional := if n.additional.Some? && n.additional.value.Shaped? then Some(Permitted) else n.additional)
  }

  function ReadSchema(s: Schema): Schema {
    s.(nodes := map id | id in s.nodes :: Read(s, id), defs := ReadDefs(s))
  }

  lemma ReadSubschemas(s: Schema, id: Id)
    requires id in s.nodes
    ensures forall c :: c in Subschemas(Read(s, id)) ==> c in Subschemas(s.nodes[id])
    ensures Children(Read(s, id)) == Children(s.nodes[id])
  {
  }

  lemma {:induction false} DefNamedMore(defs: seq<(string, Id)>, last: (string, Id), name: string)
    ensures DefNamed(defs + [last], name) ==
      if DefNamed(defs, name).Some? then DefNamed(defs, name) else if last.0 == name then Some(last.1) else None
  {
    if defs == [] {
      assert [] + [last] == [last];
    } else {
      assert (defs + [last])[1..] == defs[1..] + [last];
      DefNamedMore(defs[1..], last, name);
    }
  }

  /** Definitions keep their names, and what no definition is called, `root` apart, names nothing. */
  lemma CalledName(s: Schema, name: string)
    ensures DefNamed(ReadDefs(s), name) ==
      if DefNamed(s.defs, name).Some? then DefNamed(s.defs, name) else if name == "root" then Some(s.root) else None
  {
    DefNamedMore(s.defs, ("root", s.root), name);
  }

  lemma ReadEntries(s: Schema, id: Id)
    ensures IsEntry(ReadSchema(s), id) <==> IsEntry(s, id)
  {
    var defs := ReadDefs(s);
    assert forall i :: 0 <= i < |s.defs| ==> defs[i] == s.defs[i];
    assert forall i :: |s.defs| <= i < |defs| ==> defs[i].1 == s.root;
  }

  lemma IdentifierHasNoSlash(name: string)
    requires IsIdentifier(name)
    ensures '/' !in name
  {
  }

  lemma PrefixedName(name: string)
    requires IsIdentifier(name)
    ensures DEFS_PREFIX <= DEFS_PREFIX + name && RefName(DEFS_PREFIX + name) == Some(name)
    ensures LastSegment(DEFS_PREFIX + name) == name
  {
    IdentifierHasNoSlash(name);
    LastSegmentAfter(DEFS_PREFIX, name);
  }

  /** What the emitter reads is always clean. */
  lemma ReadClean(s: Schema)
    ensures Clean(ReadSchema(s))
  {
    var t := ReadSchema(s);
    forall id | id in t.nodes
      ensures CleanNode(t, t.nodes[id])
      ensures IsEntry(t, id) ==> !IsRef(t.nodes[id])
    {
      ReadEntries(s, id);
      if IsRef(t.nodes[id]) {
        PrefixedName(LastSegment(s.nodes[id].ref.value));
        PlainTarget(t, t.nodes[id].ref.value);
      }
    }
  }

  /** The dictionary can be compiled to a function with calls that lead somewhere: its type list, if it has one, is not
      empty, and references below it end in the name of a definition or in `root`. */
  predicate Usable(s: Schema, id: Id) {
    id in s.nodes && s.nodes[id].Dict? ==>
      && s.nodes[id].kind != Some(AnyType([]))
      && forall i :: 0 <= i < |Children(s.nodes[id])| ==> UsableChild(s, Children(s.nodes[id])[i])
  }

  predicate UsableChild(s: Schema, c: Id) {
    c in s.nodes && IsRef(s.nodes[c]) ==> EndsInName(s, s.nodes[c].ref.value)
  }

  ghost predicate AllUsable(s: Schema, p: Program) {
    forall k {:trigger p.funs[k]} :: 0 <= k < |p.funs| ==> Usable(s, p.funs[k].source)
  }

  lemma ReadChild(s: Schema, names: Names, c: Id)
    requires Named(s, names, c) && UsableChild(s, c) && !IsEntry(s, c)
    ensures Named(ReadSchema(s), names, c) && NameOf(ReadSchema(s), names, c) == NameOf(s, names, c)
  {
    if IsRef(s.nodes[c]) {
      PrefixedName(LastSegment(s.nodes[c].ref.value));
    }
  }

  lemma ReadChildren(s: Schema, names: Names, id: Id)
    requires Loaded(s) && id in s.nodes && Wired(s, names, s.nodes[id]) && Usable(s, id)
    ensures Wired(ReadSchema(s), names, Read(s, id)) && AgreeOn(s, ReadSchema(s), names, Children(s.nodes[id]))
  {
    ReadSubschemas(s, id);
    var cs := Children(s.nodes[id]);
    forall i | 0 <= i < |cs|
      ensures Named(ReadSchema(s), names, cs[i]) && NameOf(ReadSchema(s), names, cs[i]) == NameOf(s, names, cs[i])
    {
      assert Named(s, names, cs[i]) && UsableChild(s, cs[i]);
      assert cs[i] in Subschemas(s.nodes[id]);
      ReadChild(s, names, cs[i]);
    }
  }

  lemma ReadSelf(s: Schema, id: Id)
    requires id in s.nodes && Emittable(s.nodes[id]) && s.nodes[id].kind != Some(AnyType([]))
    requires IsRef(s.nodes[id]) ==> IsEntry(s, id)
    ensures var n, n' := s.nodes[id], Read(s, id);
      && Emittable(n') && n'.ref.None? && n'.pattern == n.pattern
      && n' == n.(ref := n'.ref, additional := n'.additional, items := if n.prefixItems.Some? then None else n.items)
      && (n'.additional == Some(Forbidden) <==> n.additional == Some(Forbidden))
      && (n'.additional.Some? <==> n.additional.Some?)
  {
  }

  lemma ReadTranslated(s: Schema, names: Names, consts: seq<(string, string)>, f: Function)
    requires Loaded(s) && Translated(s, names, consts, f) && Usable(s, f.source)
    ensures Translated(ReadSchema(s), names, consts, f)
  {
    ReadChildren(s, names, f.source);
    ReadSelf(s, f.source);
    ReadEntries(s, f.source);
    ReadBody(s, ReadSchema(s), names, consts, s.nodes[f.source], Read(s, f.source));
  }

  predicate AgreeOn(s: Schema, t: Schema, names: Names, cs: seq<Id>) {
    forall i :: 0 <= i < |cs| ==> NameOf(t, names, cs[i]) == NameOf(s, names, cs[i])
  }

  lemma AgreeParts(s: Schema, t: Schema, names: Names, n: Node)
    requires n.Dict? && AgreeOn(s, t, names, Children(n))
    ensures AgreeOn(s, t, names, ItemChildren(n)) && AgreeOn(s, t, names, PropertyIds(OrEmpty(n.properties)))
    ensures AgreeOn(s, t, names, OrEmpty(n.anyOf)) && AgreeOn(s, t, names, OrEmpty(n.oneOf))
    ensures AgreeOn(s, t, names, OrEmpty(n.allOf))
  {
    var a, b, c, d, e := ItemChildren(n), PropertyIds(OrEmpty(n.properties)), OrEmpty(n.anyOf),
      OrEmpty(n.oneOf), OrEmpty(n.allOf);
    AgreeConcat(s, t, names, a + b + c + d, e);
    AgreeConcat(s, t, names, a + b + c, d);
    AgreeConcat(s, t, names, a + b, c);
    AgreeConcat(s, t, names, a, b);
  }

  lemma AgreeConcat(s: Schema, t: Schema, names: Names, a: seq<Id>, b: seq<Id>)
    requires AgreeOn(s, t, names, a + b)
    ensures AgreeOn(s, t, names, a) && AgreeOn(s, t, names, b)
  {
    assert forall i :: 0 <= i < |a| ==> a[i] == (a + b)[i];
    assert forall i :: 0 <= i < |b| ==> b[i] == (a + b)[|a| + i];
  }

  lemma ReadBody(s: Schema, t: Schema, names: Names, consts: seq<(string, string)>, n: Node, n': Node)
    requires n.Dict? && n'.Dict? && AgreeOn(s, t, names, Children(n))
    requires n' == n.(ref := n'.ref, additional := n'.additional,
                      items := if n.prefixItems.Some? then None else n.items)
    requires n'.additional == Some(Forbidden) <==> n.additional == Some(Forbidden)
    requires n'.additional.Some? <==> n.additional.Some?
    ensures Body(t, names, consts, n') == Body(s, names, consts, n)
  {
    AgreeParts(s, t, names, n);
    ReadArray(s, t, names, n, n');
    ReadObject(s, t, names, n, n');
    ReadChoose(s, t, names, AnyOf, n.anyOf);
    ReadChoose(s, t, names, OneOf, n.oneOf);
    ReadCalls(s, t, names, OrEmpty(n.allOf));
  }

  lemma ReadChoose(s: Schema, t: Schema, names: Names, comb: Combinator, subs: Option<seq<Id>>)
    requires AgreeOn(s, t, names, OrEmpty(subs))
    ensures ChoosePart(t, names, comb, subs) == ChoosePart(s, names, comb, subs)
  {
    assert NamesOf(t, names, OrEmpty(subs)) == NamesOf(s, names, OrEmpty(subs));
  }

  lemma ReadCalls(s: Schema, t: Schema, names: Names, cs: seq<Id>)
    requires AgreeOn(s, t, names, cs)
    ensures Calls(t, names, cs) == Calls(s, names, cs)
  {
  }

  lemma ReadArray(s: Schema, t: Schema, names: Names, n: Node, n': Node)
    requires n.Dict? && n'.Dict? && AgreeOn(s, t, names, ItemChildren(n))
    requires n' == n.(ref := n'.ref, additional := n'.additional,
                      items := if n.prefixItems.Some? then None else n.items)
    ensures ArrayPart(t, names, n') == ArrayPart(s, names, n)
  {
    if n.prefixItems.Some? {
      var cs := n.prefixItems.value;
      assert ItemChildren(n) == cs;
      assert IndexCalls(t, names, cs) == IndexCalls(s, names, cs);
    } else if n.items.Some? {
      assert ItemChildren(n)[0] == n.items.value;
    }
  }

  lemma ReadObject(s: Schema, t: Schema, names: Names, n: Node, n': Node)
    requires n.Dict? && n'.Dict? && AgreeOn(s, t, names, PropertyIds(OrEmpty(n.properties)))
    requires n' == n.(ref := n'.ref, items := n'.items, additional := n'.additional)
    requires n'.additional == Some(Forbidden) <==> n.additional == Some(Forbidden)
    ensures ObjectPart(t, names, n') == ObjectPart(s, names, n)
  {
    var ps := OrEmpty(n.properties);
    assert forall i :: 0 <= i < |ps| ==> PropertyIds(ps)[i] == ps[i].1;
    assert KeyCalls(t, names, ps) == KeyCalls(s, names, ps);
  }

  lemma ReadLinked(s: Schema, names: Names, p: Program)
    requires Loaded(s) && Linked(s, names, p) && AllUsable(s, p)
    ensures Linked(ReadSchema(s), names, p)
  {
    forall k | 0 <= k < |p.funs|
      ensures Translated(ReadSchema(s), names, p.consts, p.funs[k])
    {
      assert Translated(s, names, p.consts, p.funs[k]);
      ReadTranslated(s, names, p.consts, p.funs[k]);
    }
    ReadResolves(s, names, p.funs);
  }

  lemma ReadResolves(s: Schema, names: Names, funs: seq<Function>)
    requires Resolves(s, names, funs)
    ensures Resolves(ReadSchema(s), names, funs)
  {
    var defs := ReadDefs(s);
    forall i | 0 <= i < |defs|
      ensures SourceOf(funs, CheckName(defs[i].0)) == Some(defs[i].1)
    {
      if i < |s.defs| {
        assert defs[i] == s.defs[i];
      } else {
        assert CheckName("root") == "check_root";
      }
    }
  }

  /** From some call depth on, `checkSchema` answers the question `valid` about the value. */
  ghost predicate Decided(p: Program, m: Matcher, v: Json, valid: bool) {
    exists depth: nat :: Decides(p, m, v, depth, valid)
  }

  /** For any document without endless in-place recursion in what the emitter reads, the program decides what it
      reads. */
  lemma ReadingDecided(s: Schema, reading: Rank, m: Matcher, p: Program, v: Json)
    requires Loaded(s) && Ranked(ReadSchema(s), reading) && CompiledTo(s, p) && AllUsable(s, p)
    ensures Decided(p, m, v, Holds(ReadSchema(s), reading, m, s.root, v))
  {
    var names :| Linked(s, names, p);
    ReadClean(s);
    ReadLinked(s, names, p);
    CompilerCorrect(ReadSchema(s), reading, m, p, v);
  }

  /** It is therefore right about a value exactly when the document and its reading agree on it. */
  lemma CompiledMeaning(s: Schema, rank: Rank, reading: Rank, m: Matcher, p: Program, v: Json)
    requires Loaded(s) && Ranked(s, rank) && Ranked(ReadSchema(s), reading) && CompiledTo(s, p) && AllUsable(s, p)
    ensures Decided(p, m, v, Holds(s, rank, m, s.root, v)) <==>
      (Holds(s, rank, m, s.root, v) <==> Holds(ReadSchema(s), reading, m, s.root, v))
  {
    ReadingDecided(s, reading, m, p, v);
    DecidesOnce(p, m, v, Holds(ReadSchema(s), reading, m, s.root, v), Holds(s, rank, m, s.root, v));
  }

  /** `generate_validator`, end to end: whatever it returns for a schema decides every value as the schema is read, and
      as it is meant when the schema is clean. */
  method GenerateCorrect(s: Schema, ghost rank: Rank, ghost reading: Rank, ghost m: Matcher)
    returns (r: Result<Program, EmitError>)
    requires Loaded(s) && NoRootDefinition(s)
    ensures r.Success? <==> forall id :: Reachable(s, id) ==> Accepted(s, id)
    ensures r.Success? && (forall id :: Reachable(s, id) ==> Usable(s, id)) && Ranked(ReadSchema(s), reading) ==>
      forall v :: Decided(r.value, m, v, Holds(ReadSchema(s), reading, m, s.root, v))
    ensures r.Success? && Ranked(s, rank) && Clean(s) ==>
      forall v :: Decided(r.value, m, v, Holds(s, rank, m, s.root, v))
  {
    r := GenerateValidator(s);
    if r.Success? && (forall id :: Reachable(s, id) ==> Usable(s, id)) && Ranked(ReadSchema(s), reading) {
      forall k | 0 <= k < |r.value.funs|
        ensures Usable(s, r.value.funs[k].source)
      {
        assert EmittedFor(r.value, r.value.funs[k].source);
      }
      forall v
        ensures Decided(r.value, m, v, Holds(ReadSchema(s), reading, m, s.root, v))
      {
        ReadingDecided(s, reading, m, r.value, v);
      }
    }
    if r.Success? && Ranked(s, rank) && Clean(s) {
      forall v
        ensures Decided(r.value, m, v, Holds(s, rank, m, s.root, v))
      {
        CompilerCorrect(s, rank, m, r.value, v);
      }
    }
  }

  lemma DecidesOnce(p: Program, m: Matcher, v: Json, a: bool, b: bool)
    requires exists depth: nat :: Decides(p, m, v, depth, a)
    ensures (exists depth: nat :: Decides(p, m, v, depth, b)) <==> (a == b)
  {
    var d: nat :| Decides(p, m, v, d, a);
    if a != b {
      forall e: nat
        ensures !Decides(p, m, v, e, b)
      {
        var fuel := if d > e then d else e;
        assert CheckSchema(p, m, fuel, v).value == [] <==> a;
      }
    }
  }

  // ----- Where one dictionary and its reading part -----

  ghost predicate ReadRight(s: Schema, rank: Rank, reading: Rank, m: Matcher, c: Id, v: Json)
    requires Ranked(s, rank) && Ranked(ReadSchema(s), reading)
  {
    c in s.nodes && (Holds(s, rank, m, c, v) <==> Holds(ReadSchema(s), reading, m, c, v))
  }

  /** Every dictionary this one applies is read right. */
  ghost predicate PartsReadRight(s: Schema, rank: Rank, reading: Rank, m: Matcher, id: Id)
    requires Ranked(s, rank) && Ranked(ReadSchema(s), reading) && id in s.nodes
  {
    forall c, v {:trigger ReadRight(s, rank, reading, m, c, v)} :: c in Subschemas(s.nodes[id]) ==>
      ReadRight(s, rank, reading, m, c, v)
  }

  /** What the dictionary asks and its reading does not: items after the prefix, keys not listed, and the target of a
      reference. */
  ghost predicate Unread(s: Schema, rank: Rank, m: Matcher, id: Id, v: Json)
    requires Ranked(s, rank) && id in s.nodes && s.nodes[id].Dict?
  {
    var n := s.nodes[id];
    && (v.Arr? && n.prefixItems.Some? && n.items.Some? ==>
          forall i :: |n.prefixItems.value| <= i < |v.items| ==>
            assert n.items.value in Subschemas(n); Holds(s, rank, m, n.items.value, v.items[i]))
    && (v.Obj? && n.additional.Some? && n.additional.value.Shaped? ==>
          forall i :: 0 <= i < |v.fields| && v.fields[i].key !in PropertyNames(OrEmpty(n.properties)) ==>
            assert n.additional.value.sub in Subschemas(n); Holds(s, rank, m, n.additional.value.sub, v.fields[i].val))
    && (n.ref.Some? ==>
          Target(s, n.ref.value).Some? && All(Verdicts(s, rank, m, id, One(Target(s, n.ref.value)), v)))
  }

  lemma ArrayReads(s: Schema, rank: Rank, reading: Rank, m: Matcher, id: Id, v: Json)
    requires Ranked(s, rank) && Ranked(ReadSchema(s), reading) && id in s.nodes && s.nodes[id].Dict?
    requires PartsReadRight(s, rank, reading, m, id) && v.Arr?
    ensures ArrayHolds(s, rank, m, id, v) <==>
      ArrayHolds(ReadSchema(s), reading, m, id, v)
      && (s.nodes[id].prefixItems.Some? && s.nodes[id].items.Some? ==>
            forall i :: |s.nodes[id].prefixItems.value| <= i < |v.items| ==>
              assert s.nodes[id].items.value in Subschemas(s.nodes[id]);
              Holds(s, rank, m, s.nodes[id].items.value, v.items[i]))
  {
    var n := s.nodes[id];
    var prefix := OrEmpty(n.prefixItems);
    forall i | 0 <= i < |v.items|
      ensures i < |prefix| ==> ReadRight(s, rank, reading, m, prefix[i], v.items[i])
      ensures n.items.Some? ==> ReadRight(s, rank, reading, m, n.items.value, v.items[i])
    {
      if i < |prefix| {
        assert prefix[i] in Subschemas(n);
        assert ReadRight(s, rank, reading, m, prefix[i], v.items[i]);
      }
      if n.items.Some? {
        assert One(n.items)[0] in Subschemas(n);
        assert ReadRight(s, rank, reading, m, n.items.value, v.items[i]);
      }
    }
  }

  lemma ObjectReads(s: Schema, rank: Rank, reading: Rank, m: Matcher, id: Id, v: Json)
    requires Ranked(s, rank) && Ranked(ReadSchema(s), reading) && id in s.nodes && s.nodes[id].Dict?
    requires PartsReadRight(s, rank, reading, m, id) && v.Obj?
    ensures var n := s.nodes[id];
      ObjectHolds(s, rank, m, id, v) <==>
      ObjectHolds(ReadSchema(s), reading, m, id, v)
      && (n.additional.Some? && n.additional.value.Shaped? ==>
            forall i :: 0 <= i < |v.fields| && v.fields[i].key !in PropertyNames(OrEmpty(n.properties)) ==>
              assert n.additional.value.sub in Subschemas(n);
              Holds(s, rank, m, n.additional.value.sub, v.fields[i].val))
  {
    var props := OrEmpty(s.nodes[id].properties);
    forall i | 0 <= i < |props| && HasKey(v.fields, props[i].0)
      ensures ReadRight(s, rank, reading, m, props[i].1, Get(v.fields, props[i].0))
    {
      PropertyIsChild(s.nodes[id], i);
      assert ReadRight(s, rank, reading, m, props[i].1, Get(v.fields, props[i].0));
    }
  }

  lemma VerdictsRead(s: Schema, rank: Rank, reading: Rank, m: Matcher, id: Id, subs: seq<Id>, v: Json)
    requires Ranked(s, rank) && Ranked(ReadSchema(s), reading) && id in s.nodes
    requires PartsReadRight(s, rank, reading, m, id)
    requires forall c :: c in subs ==> c in InPlace(s, s.nodes[id]) && c in Subschemas(s.nodes[id])
    requires forall c :: c in subs ==> c in InPlace(ReadSchema(s), ReadSchema(s).nodes[id])
    ensures Verdicts(s, rank, m, id, subs, v) == Verdicts(ReadSchema(s), reading, m, id, subs, v)
  {
    forall i | 0 <= i < |subs|
      ensures Verdicts(s, rank, m, id, subs, v)[i] == Verdicts(ReadSchema(s), reading, m, id, subs, v)[i]
    {
      assert ReadRight(s, rank, reading, m, subs[i], v);
    }
  }

  lemma InPlaceReads(s: Schema, rank: Rank, reading: Rank, m: Matcher, id: Id, v: Json)
    requires Ranked(s, rank) && Ranked(ReadSchema(s), reading) && id in s.nodes && s.nodes[id].Dict?
    requires PartsReadRight(s, rank, reading, m, id) && ReadRef(s, id, s.nodes[id].ref).None?
    ensures InPlaceHolds(s, rank, m, id, v) <==>
      InPlaceHolds(ReadSchema(s), reading, m, id, v)
      && (s.nodes[id].ref.Some? ==>
            && Target(s, s.nodes[id].ref.value).Some?
            && All(Verdicts(s, rank, m, id, One(Target(s, s.nodes[id].ref.value)), v)))
  {
    var n := s.nodes[id];
    VerdictsRead(s, rank, reading, m, id, OrEmpty(n.anyOf), v);
    VerdictsRead(s, rank, reading, m, id, OrEmpty(n.oneOf), v);
    VerdictsRead(s, rank, reading, m, id, OrEmpty(n.allOf), v);
  }

  /** Where all that a dictionary applies is read right, a value tells it from its reading exactly by an item after the
      prefix, by a key that is not listed, or by the target of a reference that is not read. */
  lemma NodeMeaning(s: Schema, rank: Rank, reading: Rank, m: Matcher, id: Id, v: Json)
    requires Ranked(s, rank) && Ranked(ReadSchema(s), reading) && id in s.nodes && s.nodes[id].Dict?
    requires PartsReadRight(s, rank, reading, m, id) && ReadRef(s, id, s.nodes[id].ref).None?
    requires s.nodes[id].kind != Some(AnyType([]))
    ensures Holds(s, rank, m, id, v) <==> Holds(ReadSchema(s), reading, m, id, v) && Unread(s, rank, m, id, v)
  {
    if v.Arr? {
      ArrayReads(s, rank, reading, m, id, v);
    }
    if v.Obj? {
      ObjectReads(s, rank, reading, m, id, v);
    }
    InPlaceReads(s, rank, reading, m, id, v);
  }

  /** A call means what its last segment names is read as, a definition or the root, wherever the path leads. */
  lemma CallRead(s: Schema, reading: Rank, m: Matcher, id: Id, v: Json)
    requires Ranked(ReadSchema(s), reading) && id in s.nodes && !IsEntry(s, id)
    requires IsRef(s.nodes[id]) && Callable(s.nodes[id]) && EndsInName(s, s.nodes[id].ref.value)
    ensures var name := LastSegment(s.nodes[id].ref.value);
      var d := if DefNamed(s.defs, name).Some? then DefNamed(s.defs, name).value else s.root;
      && (DefNamed(s.defs, name).None? ==> name == "root")
      && d in s.nodes && (Holds(ReadSchema(s), reading, m, id, v) <==> Holds(ReadSchema(s), reading, m, d, v))
  {
    PrefixedName(LastSegment(s.nodes[id].ref.value));
    CalledName(s, LastSegment(s.nodes[id].ref.value));
    PlainTarget(ReadSchema(s), DEFS_PREFIX + LastSegment(s.nodes[id].ref.value));
    BareRefHolds(ReadSchema(s), reading, m, id, v);
  }

  // ----- Documents the code reads differently from what they say -----

  lemma EmptyAccepts(s: Schema, rank: Rank, m: Matcher, id: Id, v: Json)
    requires Ranked(s, rank) && id in s.nodes && s.nodes[id] == EMPTY
    ensures Holds(s, rank, m, id, v)
  {
  }

  lemma NullHolds(s: Schema, rank: Rank, m: Matcher, id: Id, v: Json)
    requires Ranked(s, rank) && id in s.nodes && s.nodes[id] == NULL_ONLY
    ensures Holds(s, rank, m, id, v) ==> v.Null?
  {
  }

  /** A root that is itself a bare reference compiles to a check that accepts every value. */
  lemma BareRefRootAcceptsAll(s: Schema, reading: Rank, m: Matcher, p: Program, v: Json, ref: string)
    requires Loaded(s) && Ranked(ReadSchema(s), reading) && CompiledTo(s, p) && AllUsable(s, p)
    requires s.nodes[s.root] == BareRef(ref)
    ensures Decided(p, m, v, true)
  {
    ReadingDecided(s, reading, m, p, v);
    assert ReadSchema(s).nodes[s.root] == EMPTY;
    EmptyAccepts(ReadSchema(s), reading, m, s.root, v);
  }

  const NULL_ONLY: Node := EMPTY.(kind := Some(OneType(TNull)))

  /** `{"$ref": "#/$defs/A", "$defs": {"A": {"type": "null"}}}`. */
  const A_REF := DEFS_PREFIX + "A"
  const ROOT_REF: Schema := Schema(map[0 := BareRef(A_REF), 1 := NULL_ONLY], [("A", 1)], 0)

  const DOWN: Rank := map[0 := 1, 1 := 0]

  predicate RefersToNull(s: Schema, ref: string) {
    && s.nodes.Keys == {0, 1} && s.nodes[0] == BareRef(ref) && s.nodes[1] == NULL_ONLY
    && s.root == 0 && s.defs == [("A", 1)] && Target(s, ref) == Some(1)
  }

  lemma RefThenNull(s: Schema)
    requires s.nodes.Keys == {0, 1} && s.nodes[1] == NULL_ONLY && s.root == 0
    requires forall i :: 0 <= i < |s.defs| ==> s.defs[i].1 in s.nodes
    requires Subschemas(s.nodes[0]) == [] && forall c :: c in InPlace(s, s.nodes[0]) ==> c == 1
    ensures Ranked(s, DOWN)
  {
  }

  lemma RefRanked(s: Schema, ref: string)
    requires RefersToNull(s, ref)
    ensures Ranked(s, DOWN) && Ranked(ReadSchema(s), DOWN)
  {
    RefThenNull(s);
    assert IsEntry(s, 0);
    assert Read(s, 0) == EMPTY && Read(s, 1) == NULL_ONLY;
    RefThenNull(ReadSchema(s));
  }

  lemma RefMeant(s: Schema, ref: string, m: Matcher, v: Json)
    requires RefersToNull(s, ref) && !v.Null?
    ensures Ranked(s, DOWN) && !Holds(s, DOWN, m, 0, v)
  {
    RefRanked(s, ref);
    BareRefHolds(s, DOWN, m, 0, v);
    NullHolds(s, DOWN, m, 1, v);
  }

  lemma RefParts(ref: string)
    ensures Children(BareRef(ref)) == Subschemas(BareRef(ref)) == Children(NULL_ONLY) == Subschemas(NULL_ONLY) == []
  {
  }

  lemma RefUsable(s: Schema, ref: string, p: Program)
    requires RefersToNull(s, ref)
    ensures AllUsable(s, p)
  {
    RefParts(ref);
  }

  lemma RefLoaded(s: Schema, ref: string)
    requires RefersToNull(s, ref)
    ensures Loaded(s)
  {
    RefParts(ref);
  }

  lemma RefAccepts(s: Schema, ref: string, m: Matcher, p: Program, v: Json)
    requires RefersToNull(s, ref) && CompiledTo(s, p)
    ensures Decided(p, m, v, true)
  {
    RefRanked(s, ref);
    RefUsable(s, ref, p);
    RefLoaded(s, ref);
    BareRefRootAcceptsAll(s, DOWN, m, p, v, ref);
  }

  lemma RefersHere()
    ensures RefersToNull(ROOT_REF, A_REF)
  {
    PrefixedName("A");
    PlainTarget(ROOT_REF, A_REF);
    assert DefNamed(ROOT_REF.defs, "A") == Some(1);
  }

  /** So every value but null is invalid and accepted. */
  lemma RootRefIgnored(m: Matcher, p: Program, v: Json)
    requires CompiledTo(ROOT_REF, p) && !v.Null?
    ensures Ranked(ROOT_REF, DOWN) && !Holds(ROOT_REF, DOWN, m, 0, v) && Decided(p, m, v, true)
  {
    RefersHere();
    RefMeant(ROOT_REF, A_REF, m, v);
    RefAccepts(ROOT_REF, A_REF, m, p, v);
  }

  /** Two dictionaries, the second at most a child of the first. */
  predicate Pair(s: Schema) {
    && s.nodes.Keys == {0, 1} && s.defs == [] && s.root == 0
    && s.nodes[0].Dict? && s.nodes[0].kind.None? && s.nodes[0].ref.None? && s.nodes[1] == NULL_ONLY
    && (forall c :: c in Subschemas(s.nodes[0]) ==> c == 1) && InPlace(s, s.nodes[0]) == []
  }

  const FLAT: Rank := map[0 := 0, 1 := 0]

  lemma PairOrdered(s: Schema)
    requires s.nodes.Keys == {0, 1} && s.root == 0 && forall i :: 0 <= i < |s.defs| ==> s.defs[i].1 in s.nodes
    requires Subschemas(s.nodes[1]) == [] && forall c :: c in Subschemas(s.nodes[0]) ==> c == 1
    requires InPlace(s, s.nodes[0]) == InPlace(s, s.nodes[1]) == []
    ensures Ranked(s, FLAT)
  {
  }

  lemma PairRanked(s: Schema)
    requires Pair(s)
    ensures Loaded(s) && Ranked(s, FLAT) && Ranked(ReadSchema(s), FLAT)
  {
    PairLoaded(s);
    PairOrdered(s);
    ReadSubschemas(s, 0);
    PairRead(s);
    PairOrdered(ReadSchema(s));
  }

  lemma PairLoaded(s: Schema)
    requires Pair(s)
    ensures Loaded(s)
  {
    RefParts("");
  }

  lemma PairRead(s: Schema)
    requires Pair(s)
    ensures Read(s, 1) == NULL_ONLY && InPlace(ReadSchema(s), Read(s, 0)) == InPlace(ReadSchema(s), Read(s, 1)) == []
    ensures Subschemas(Read(s, 1)) == []
  {
  }

  lemma PairUsable(s: Schema, p: Program)
    requires Pair(s)
    ensures AllUsable(s, p)
  {
  }

  /** `{"prefixItems": [], "items": {"type": "null"}}`. */
  const PREFIX_AND_ITEMS: Schema :=
    Schema(map[0 := EMPTY.(prefixItems := Some([]), items := Some(1)), 1 := NULL_ONLY], [], 0)

  /** `items` beside `prefixItems` is dropped: an array with one item other than null is invalid and accepted. */
  lemma PrefixHidesItems(m: Matcher, p: Program, v: Json)
    requires CompiledTo(PREFIX_AND_ITEMS, p) && !v.Null?
    ensures Ranked(PREFIX_AND_ITEMS, FLAT) && !Holds(PREFIX_AND_ITEMS, FLAT, m, 0, Arr([v]))
    ensures Decided(p, m, Arr([v]), true)
  {
    var s := PREFIX_AND_ITEMS;
    PairRanked(s);
    PairUsable(s, p);
    ItemsReject(s, m, v);
    ReadingDecided(s, FLAT, m, p, Arr([v]));
    NoItemsAccept(ReadSchema(s), m, Arr([v]));
  }

  lemma ItemsReject(s: Schema, m: Matcher, v: Json)
    requires Ranked(s, FLAT) && s.nodes.Keys == {0, 1} && !v.Null?
    requires s.nodes[0] == EMPTY.(prefixItems := Some([]), items := Some(1)) && s.nodes[1] == NULL_ONLY
    ensures !Holds(s, FLAT, m, 0, Arr([v]))
  {
    NullHolds(s, FLAT, m, 1, v);
    assert One(s.nodes[0].items)[0] in Subschemas(s.nodes[0]);
    assert !Holds(s, FLAT, m, 1, Arr([v]).items[0]);
  }

  lemma NoItemsAccept(s: Schema, m: Matcher, v: Json)
    requires Ranked(s, FLAT) && 0 in s.nodes && s.nodes[0] == EMPTY.(prefixItems := Some([]))
    ensures Holds(s, FLAT, m, 0, v)
  {
  }

  /** `{"additionalProperties": {"type": "null"}}`. */
  const SHAPED_EXTRAS: Schema :=
    Schema(map[0 := EMPTY.(additional := Some(Shaped(1))), 1 := NULL_ONLY], [], 0)

  /** A schema under `additionalProperties` is dropped: an object with one property other than null is invalid and
      accepted. */
  lemma ShapedExtrasIgnored(m: Matcher, p: Program, key: string, v: Json)
    requires CompiledTo(SHAPED_EXTRAS, p) && !v.Null?
    ensures Ranked(SHAPED_EXTRAS, FLAT) && !Holds(SHAPED_EXTRAS, FLAT, m, 0, Obj([Field(key, v)]))
    ensures Decided(p, m, Obj([Field(key, v)]), true)
  {
    var s := SHAPED_EXTRAS;
    PairRanked(s);
    PairUsable(s, p);
    ExtrasReject(s, m, key, v);
    ReadingDecided(s, FLAT, m, p, Obj([Field(key, v)]));
    PermittedExtrasAccept(ReadSchema(s), m, Obj([Field(key, v)]));
  }

  lemma ExtrasReject(s: Schema, m: Matcher, key: string, v: Json)
    requires Ranked(s, FLAT) && s.nodes.Keys == {0, 1} && !v.Null?
    requires s.nodes[0] == EMPTY.(additional := Some(Shaped(1))) && s.nodes[1] == NULL_ONLY
    ensures !Holds(s, FLAT, m, 0, Obj([Field(key, v)]))
  {
    NullHolds(s, FLAT, m, 1, v);
    assert 1 in Subschemas(s.nodes[0]);
    assert !Holds(s, FLAT, m, 1, Obj([Field(key, v)]).fields[0].val);
  }

  lemma PermittedExtrasAccept(s: Schema, m: Matcher, v: Json)
    requires Ranked(s, FLAT) && 0 in s.nodes && s.nodes[0] == EMPTY.(additional := Some(Permitted))
    ensures Holds(s, FLAT, m, 0, v)
  {
  }

  // ----- A reference along a longer path -----

  lemma {:induction false} LastSegmentJoined(first: string, rest: string)
    requires '/' !in first
    ensures LastSegment(first + "/" + rest) == LastSegment(rest)
  {
    var s := first + "/" + rest;
    assert s[|first|] == '/';
    if first == "" {
      assert s[1..] == rest;
    } else {
      assert s[1..] == first[1..] + "/" + rest;
      LastSegmentJoined(first[1..], rest);
    }
  }

  function Path(a: string, b: string, c: string, d: string, e: string): string {
    a + "/" + (b + "/" + (c + "/" + (d + "/" + e)))
  }

  lemma PathParts(a: string, b: string, c: string, d: string, e: string)
    requires '/' !in a && '/' !in b && '/' !in c && '/' !in d && '/' !in e
    ensures Parts(Path(a, b, c, d, e)) == [a, b, c, d, e]
  {
    PartsJoined(a, b + "/" + (c + "/" + (d + "/" + e)));
    PartsJoined(b, c + "/" + (d + "/" + e));
    PartsJoined(c, d + "/" + e);
    PartsJoined(d, e);
  }

  lemma PathEnds(a: string, b: string, c: string, d: string, e: string)
    requires '/' !in a && '/' !in b && '/' !in c && '/' !in d && '/' !in e
    ensures LastSegment(Path(a, b, c, d, e)) == e
  {
    LastSegmentJoined(a, b + "/" + (c + "/" + (d + "/" + e)));
    LastSegmentJoined(b, c + "/" + (d + "/" + e));
    LastSegmentJoined(c, d + "/" + e);
    LastSegmentJoined(d, e);
  }

  /** `#/$defs/A/properties/B`. */
  const NESTED_REF := Path("#", "$defs", "A", "properties", "B")

  const NAMES := [("A", 2), ("B", 4)]
  const WITH_X: Node := EMPTY.(properties := Some([("x", 1)]))
  const WITH_B: Node := EMPTY.(properties := Some([("B", 3)]))

  /** A property `x` under a reference, a definition `A` with a property `B` that must be null, and a definition `B`
      that allows everything. */
  const NESTED_PATH: Schema := Schema(
    map[0 := WITH_X, 1 := BareRef(NESTED_REF), 2 := WITH_B, 3 := NULL_ONLY, 4 := EMPTY], NAMES, 0)

  /** These dictionaries, whichever further name the root has. */
  predicate Nested(s: Schema, ref: string) {
    && s.nodes.Keys == {0, 1, 2, 3, 4} && s.root == 0
    && s.nodes[0] == WITH_X && s.nodes[1] == BareRef(ref)
    && s.nodes[2] == WITH_B && s.nodes[3] == NULL_ONLY && s.nodes[4] == EMPTY
    && DefNamed(s.defs, "A") == Some(2) && DefNamed(s.defs, "B") == Some(4)
    && forall i :: 0 <= i < |s.defs| ==> s.defs[i].1 in {0, 2, 4}
  }

  lemma NestedParts(ref: string)
    ensures Subschemas(WITH_X) == [1] && Subschemas(WITH_B) == [3]
    ensures Subschemas(BareRef(ref)) == Subschemas(NULL_ONLY) == Subschemas(EMPTY) == []
    ensures Children(WITH_X) == [1] && Children(WITH_B) == [3]
    ensures Children(BareRef(ref)) == Children(NULL_ONLY) == Children(EMPTY) == []
  {
  }

  lemma NestedInPlace(s: Schema, ref: string)
    ensures InPlace(s, WITH_X) == InPlace(s, WITH_B) == InPlace(s, NULL_ONLY) == InPlace(s, EMPTY) == []
    ensures InPlace(s, BareRef(ref)) == One(Target(s, ref))
  {
  }

  function NestedSubs(id: Id): seq<Id> {
    if id == 0 then [1] else if id == 2 then [3] else []
  }

  lemma NestedSubschemas(s: Schema, ref: string, id: Id)
    requires Nested(s, ref) && id in s.nodes
    ensures Subschemas(s.nodes[id]) == NestedSubs(id)
  {
    NestedParts(ref);
  }

  lemma NestedBelow(s: Schema, ref: string, id: Id, c: Id)
    requires Nested(s, ref) && id in s.nodes && c in Subschemas(s.nodes[id])
    ensures c in {1, 3} && !IsEntry(s, c)
  {
    NestedSubschemas(s, ref, id);
  }

  lemma NestedResolved(s: Schema, ref: string)
    requires Nested(s, ref)
    ensures Resolved(s)
  {
    forall id, c | id in s.nodes && c in Subschemas(s.nodes[id])
      ensures c in s.nodes
    {
      NestedBelow(s, ref, id, c);
    }
  }

  lemma NestedLoaded(s: Schema, ref: string)
    requires Nested(s, ref) && s.defs == NAMES
    ensures Loaded(s)
  {
    NestedResolved(s, ref);
    forall id, c | id in s.nodes && c in Subschemas(s.nodes[id])
      ensures !IsEntry(s, c)
    {
      NestedBelow(s, ref, id, c);
    }
  }

  const BELOW: Rank := map[0 := 0, 1 := 1, 2 := 0, 3 := 0, 4 := 0]

  lemma NestedRanked(s: Schema, ref: string)
    requires Nested(s, ref) && Target(s, ref) in {Some(3), Some(4)}
    ensures Ranked(s, BELOW)
  {
    NestedResolved(s, ref);
    NestedInPlace(s, ref);
  }

  lemma NestedWalk(s: Schema, ref: string)
    requires Nested(s, ref)
    ensures Walk(s, 2, ["properties", "B"]) == Some(3)
  {
  }

  /** The path leads into `A`. */
  lemma NestedTarget(s: Schema, ref: string)
    requires Nested(s, ref) && Parts(ref) == ["#", "$defs", "A", "properties", "B"]
    ensures Target(s, ref) == Some(3)
  {
    NestedWalk(s, ref);
  }

  lemma NestedEnds(s: Schema, ref: string)
    requires Nested(s, ref) && LastSegment(ref) == "B"
    ensures EndsInName(s, ref) && DefNamed(ReadDefs(s), "A") == Some(2) && DefNamed(ReadDefs(s), "B") == Some(4)
  {
    CalledName(s, "A");
    CalledName(s, "B");
  }

  lemma NestedUsable(s: Schema, ref: string, p: Program)
    requires Nested(s, ref) && LastSegment(ref) == "B"
    ensures AllUsable(s, p)
  {
    NestedParts(ref);
    NestedEnds(s, ref);
    assert UsableChild(s, 1) && UsableChild(s, 3);
  }

  lemma NestedReadNodes(s: Schema, ref: string)
    requires Nested(s, ref) && EndsInName(s, ref) && LastSegment(ref) == "B"
    ensures Read(s, 0) == WITH_X && Read(s, 1) == BareRef(DEFS_PREFIX + "B")
    ensures Read(s, 2) == WITH_B && Read(s, 3) == NULL_ONLY && Read(s, 4) == EMPTY
  {
    assert !IsEntry(s, 1);
    assert ReadRef(s, 1, Some(ref)) == Some(DEFS_PREFIX + "B");
  }

  /** The emitter is led to the definition `B`. */
  lemma NestedRead(s: Schema, ref: string)
    requires Nested(s, ref) && LastSegment(ref) == "B"
    ensures Nested(ReadSchema(s), DEFS_PREFIX + "B") && Target(ReadSchema(s), DEFS_PREFIX + "B") == Some(4)
  {
    PrefixedName("B");
    NestedEnds(s, ref);
    NestedReadNodes(s, ref);
    PlainTarget(ReadSchema(s), DEFS_PREFIX + "B");
  }

  lemma XProperty(fields: seq<Field>, v: Json)
    requires fields == [Field("x", v)]
    ensures HasKey(fields, "x") && Get(fields, "x") == v
  {
    assert fields[0].key == "x";
  }

  lemma AskedOfX(s: Schema, rank: Rank, m: Matcher, v: Json)
    requires Ranked(s, rank) && 0 in s.nodes && 1 in s.nodes && s.nodes[0] == WITH_X
    ensures Holds(s, rank, m, 0, Obj([Field("x", v)])) <==> Holds(s, rank, m, 1, v)
  {
    var o := Obj([Field("x", v)]);
    XProperty(o.fields, v);
    var props := WITH_X.properties.value;
    assert PropertyIds(props)[0] in Subschemas(WITH_X);
    assert ObjectHolds(s, rank, m, 0, o) <==> Holds(s, rank, m, props[0].1, Get(o.fields, props[0].0));
  }

  /** `{"x": v}` is valid if and only if `v` is where the reference leads. */
  lemma OneProperty(s: Schema, ref: string, m: Matcher, t: Id, v: Json)
    requires Nested(s, ref) && Ranked(s, BELOW) && Target(s, ref) == Some(t) && t in s.nodes
    ensures Holds(s, BELOW, m, 0, Obj([Field("x", v)])) <==> Holds(s, BELOW, m, t, v)
  {
    AskedOfX(s, BELOW, m, v);
    BareRefHolds(s, BELOW, m, 1, v);
  }

  lemma NestedMeant(s: Schema, ref: string, m: Matcher, v: Json)
    requires Nested(s, ref) && Target(s, ref) == Some(3) && !v.Null?
    ensures Ranked(s, BELOW) && !Holds(s, BELOW, m, 0, Obj([Field("x", v)]))
  {
    NestedRanked(s, ref);
    OneProperty(s, ref, m, 3, v);
    NullHolds(s, BELOW, m, 3, v);
  }

  lemma NestedAsRead(s: Schema, ref: string, m: Matcher, v: Json)
    requires Nested(s, ref) && Target(s, ref) == Some(4)
    ensures Ranked(s, BELOW) && Holds(s, BELOW, m, 0, Obj([Field("x", v)]))
  {
    NestedRanked(s, ref);
    OneProperty(s, ref, m, 4, v);
    EmptyAccepts(s, BELOW, m, 4, v);
  }

  lemma NestedAccepts(s: Schema, ref: string, m: Matcher, p: Program, v: Json)
    requires Nested(s, ref) && s.defs == NAMES && LastSegment(ref) == "B" && CompiledTo(s, p)
    ensures Decided(p, m, Obj([Field("x", v)]), true)
  {
    NestedLoaded(s, ref);
    NestedUsable(s, ref, p);
    NestedRead(s, ref);
    NestedAsRead(ReadSchema(s), DEFS_PREFIX + "B", m, v);
    ReadingDecided(s, BELOW, m, p, Obj([Field("x", v)]));
  }

  lemma NestedRefParts(ref: string, a: string, b: string, c: string, d: string, e: string)
    requires ref == Path(a, b, c, d, e)
    requires a == "#" && b == "$defs" && c == "A" && d == "properties" && e == "B"
    ensures Parts(ref) == ["#", "$defs", "A", "properties", "B"] && LastSegment(ref) == "B"
  {
    PathParts(a, b, c, d, e);
    PathEnds(a, b, c, d, e);
  }

  lemma NestedHere()
    ensures Nested(NESTED_PATH, NESTED_REF)
  {
  }

  lemma NestedRefHere()
    ensures Parts(NESTED_REF) == ["#", "$defs", "A", "properties", "B"] && LastSegment(NESTED_REF) == "B"
  {
    var ref := NESTED_REF;
    NestedRefParts(ref, "#", "$defs", "A", "properties", "B");
  }

  /** `{"x": v}` is invalid and accepted for every `v` but null. */
  lemma NestedPathMisread(m: Matcher, p: Program, v: Json)
    requires CompiledTo(NESTED_PATH, p) && !v.Null?
    ensures Ranked(NESTED_PATH, BELOW) && !Holds(NESTED_PATH, BELOW, m, 0, Obj([Field("x", v)]))
    ensures Decided(p, m, Obj([Field("x", v)]), true)
  {
    NestedHere();
    NestedRefHere();
    NestedTarget(NESTED_PATH, NESTED_REF);
    NestedMeant(NESTED_PATH, NESTED_REF, m, v);
    NestedAccepts(NESTED_PATH, NESTED_REF, m, p, v);
  }
}
