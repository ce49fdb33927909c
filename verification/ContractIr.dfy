/** The subset of TypeScript the generator emits, and how it runs. */
module ContractIr {
  import opened Outcome
  import opened Json
  import opened JsonSchema

  /** Conditions over the checked value `v`; the comparisons assume the type the emitter guards. */
  datatype Test =
    | TypeIn(kinds: seq<TypeName>)
    | EqLit(lit: Json)
    | SomeEq(lits: seq<Json>)
    | NotLess(bound: real)
    | NotGreater(bound: real)
    | NotAtMost(bound: real)
    | NotAtLeast(bound: real)
    | StrlenNotLess(n: nat)
    | StrlenNotGreater(n: nat)
    | TestPattern(re: string)
    | UuidShaped
    | LengthNotLess(n: nat)
    | LengthNotGreater(n: nat)
    | Unique

  datatype Combinator = AnyOf | OneOf

  datatype Message =
    | Expected(kinds: seq<TypeName>)
    | ExpectedConst(lit: Json)
    | NotInEnum
    | Violated(keyword: string)
    | MissingRequired(key: string)
    | AdditionalProperty
    | NoAlternative
    | MatchedTimes(n: nat)

  datatype Segment = Key(key: string) | Index(i: nat)

  datatype Issue = Issue(path: seq<Segment>, message: Message)

  datatype Stmt =
    | Check(test: Test, message: Message)           // if (!test) errs.push({ path, message });
    | CheckOrReturn(test: Test, message: Message)   // if (!test) { errs.push({ path, message }); return; }
    | When(guard: TypeName, body: seq<Stmt>)        // if (guard) { body }
    | NeedKey(key: string)                          // if (!(key in o)) errs.push(...);
    | CallKey(key: string, fn: string)              // if (key in o) fn(o[key], path + "/" + key, errs);
    | OnlyKeys(known: seq<string>)                  // for (const k of Object.keys(o)) if (!known.includes(k)) ...
    | CallIndex(i: nat, fn: string)                 // if (v.length > i) fn(v[i], path + "/" + i, errs);
    | CallEach(fn: string)                          // for (let i = 0; i < v.length; i++) fn(v[i], ...);
    | Choose(comb: Combinator, fns: seq<string>)    // let matched = 0; { const inner = []; ... } if (matched ...) ...
    | Call(fn: string)                              // fn(v, path, errs);

  /** `source` is the dictionary a function was emitted for; running it never looks at it. */
  datatype Function = Function(name: string, source: Id, body: seq<Stmt>)

  /** `consts` are the `RE<n>` declarations, in order. */
  datatype Program = Program(consts: seq<(string, string)>, funs: seq<Function>)

  function Lookup(table: seq<(string, string)>, name: string): Option<string> {
    if table == [] then None
    else if table[0].0 == name then Some(table[0].1)
    else Lookup(table[1..], name)
  }

  function BodyOf(funs: seq<Function>, name: string): Option<seq<Stmt>> {
    if funs == [] then None
    else if funs[0].name == name then Some(funs[0].body)
    else BodyOf(funs[1..], name)
  }

  /** `None` when the value has not the type the comparison needs, or the constant is undeclared. */
  function Eval(p: Program, m: Matcher, t: Test, v: Json): Option<bool> {
    match t
    case TypeIn(ks) => Some(exists i :: 0 <= i < |ks| && HasType(v, ks[i]))
    case EqLit(lit) => Some(Same(v, lit))
    case SomeEq(lits) => Some(InEnumeration(v, lits))
    case NotLess(b) => if v.Num? then Some(!(v.n < b)) else None
    case NotGreater(b) => if v.Num? then Some(!(v.n > b)) else None
    case NotAtMost(b) => if v.Num? then Some(!(v.n <= b)) else None
    case NotAtLeast(b) => if v.Num? then Some(!(v.n >= b)) else None
    case StrlenNotLess(n) => if v.Str? then Some(!(|v.s| < n)) else None
    case StrlenNotGreater(n) => if v.Str? then Some(!(|v.s| > n)) else None
    case TestPattern(re) =>
      if v.Str? && Lookup(p.consts, re).Some? then Some(m(Lookup(p.consts, re).value, v.s)) else None
    case UuidShaped => if v.Str? then Some(IsUuid(v.s)) else None
    case LengthNotLess(n) => if v.Arr? then Some(!(|v.items| < n)) else None
    case LengthNotGreater(n) => if v.Arr? then Some(!(|v.items| > n)) else None
    case Unique => if v.Arr? then Some(AllDistinct(v.items)) else None
  }

  /** The error list after a statement, and whether the function returned. */
  datatype State = State(errs: seq<Issue>, returned: bool)

  /** One invocation. `fuel` bounds the call depth; `None` is a stuck or unfinished run. */
  function Invoke(p: Program, m: Matcher, fuel: nat, fn: string, v: Json, path: seq<Segment>, errs: seq<Issue>)
    : Option<seq<Issue>>
    decreases fuel, 0
  {
    if fuel == 0 || BodyOf(p.funs, fn) == None then None
    else
      match Exec(p, m, fuel - 1, BodyOf(p.funs, fn).value, v, path, State(errs, false))
      case None => None
      case Some(st) => Some(st.errs)
  }

  function Exec(p: Program, m: Matcher, fuel: nat, ss: seq<Stmt>, v: Json, path: seq<Segment>, st: State)
    : Option<State>
    decreases fuel, 2, ss
  {
    if ss == [] || st.returned then Some(st)
    else
      match Step(p, m, fuel, ss[0], v, path, st.errs)
      case None => None
      case Some(st') => Exec(p, m, fuel, ss[1..], v, path, st')
  }

  function Step(p: Program, m: Matcher, fuel: nat, s: Stmt, v: Json, path: seq<Segment>, errs: seq<Issue>)
    : Option<State>
    decreases fuel, 2, s
  {
    match s
    case Check(t, msg) =>
      (match Eval(p, m, t, v)
       case None => None
       case Some(ok) => Some(State(if ok then errs else errs + [Issue(path, msg)], false)))
    case CheckOrReturn(t, msg) =>
      (match Eval(p, m, t, v)
       case None => None
       case Some(ok) => Some(if ok then State(errs, false) else State(errs + [Issue(path, msg)], true)))
    case When(g, body) =>
      if HasType(v, g) then Exec(p, m, fuel, body, v, path, State(errs, false)) else Some(State(errs, false))
    case NeedKey(k) =>
      if !v.Obj? then None
      else Some(State(if HasKey(v.fields, k) then errs
                      else errs + [Issue(path + [Key(k)], MissingRequired(k))], false))
    case CallKey(k, fn) =>
      if !v.Obj? then None
      else if HasKey(v.fields, k) then
        Continue(Invoke(p, m, fuel, fn, Get(v.fields, k), path + [Key(k)], errs))
      else Some(State(errs, false))
    case OnlyKeys(known) =>
      if !v.Obj? then None else Some(State(errs + Extras(v.fields, known, path), false))
    case CallIndex(i, fn) =>
      if !v.Arr? then None
      else if |v.items| > i then Continue(Invoke(p, m, fuel, fn, v.items[i], path + [Index(i)], errs))
      else Some(State(errs, false))
    case CallEach(fn) =>
      if !v.Arr? then None else Continue(Each(p, m, fuel, fn, v.items, 0, path, errs))
    case Choose(comb, fns) =>
      (match Matched(p, m, fuel, fns, v, path, 0)
       case None => None
       case Some(matched) =>
         Some(State(match comb
                    case AnyOf => if matched == 0 then errs + [Issue(path, NoAlternative)] else errs
                    case OneOf => if matched != 1 then errs + [Issue(path, MatchedTimes(matched))] else errs,
                    false)))
    case Call(fn) => Continue(Invoke(p, m, fuel, fn, v, path, errs))
  }

  function Continue(r: Option<seq<Issue>>): Option<State> {
    match r
    case None => None
    case Some(errs) => Some(State(errs, false))
  }

  /** `for (const k of Object.keys(o))` over the keys outside `known`. */
  function Extras(fs: seq<Field>, known: seq<string>, path: seq<Segment>): seq<Issue> {
    if fs == [] then []
    else
      (if fs[0].key in known then [] else [Issue(path + [Key(fs[0].key)], AdditionalProperty)])
      + Extras(fs[1..], known, path)
  }

  /** `for (let i = ...; i < v.length; i++) fn(v[i], path + "/" + i, errs)`. */
  function Each(p: Program, m: Matcher, fuel: nat, fn: string, xs: seq<Json>, i: nat, path: seq<Segment>,
                errs: seq<Issue>): Option<seq<Issue>>
    requires i <= |xs|
    decreases fuel, 1, |xs| - i
  {
    if i == |xs| then Some(errs)
    else
      match Invoke(p, m, fuel, fn, xs[i], path + [Index(i)], errs)
      case None => None
      case Some(errs') => Each(p, m, fuel, fn, xs, i + 1, path, errs')
  }

  /** The counter of a combinator block: an alternative matches when its own list stays empty. */
  function Matched(p: Program, m: Matcher, fuel: nat, fns: seq<string>, v: Json, path: seq<Segment>, matched: nat)
    : Option<nat>
    decreases fuel, 1, |fns|
  {
    if fns == [] then Some(matched)
    else
      match Invoke(p, m, fuel, fns[0], v, path, [])
      case None => None
      case Some(inner) =>
        Matched(p, m, fuel, fns[1..], v, path, if inner == [] then matched + 1 else matched)
  }
}
