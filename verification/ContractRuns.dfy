/**
 * What running emitted statements reports, given what each callee reports. Nothing here knows
 * about schemas beyond the type names the guards test.
 */
module ContractRuns {
  import opened Outcome
  import opened Json
  import opened JsonSchema
  import opened ContractIr

  /** The verdict expected of calling a function on a value; `None` where it may not be called. */
  type Verdict = (string, Json) -> Option<bool>

  /** A program, the depth its callees may still use, and what they are expected to say. */
  datatype Frame = Frame(p: Program, m: Matcher, fuel: nat, verdict: Verdict)

  /** `after` extends `before` by issues at or below `path`. */
  predicate Appends(before: seq<Issue>, after: seq<Issue>, path: seq<Segment>) {
    before <= after && forall i :: |before| <= i < |after| ==> path <= after[i].path
  }

  lemma AppendsTransitive(a: seq<Issue>, b: seq<Issue>, c: seq<Issue>, path: seq<Segment>)
    requires Appends(a, b, path) && Appends(b, c, path)
    ensures Appends(a, c, path) && (a == c <==> a == b && b == c)
  {
  }

  lemma AppendsDeeper(a: seq<Issue>, b: seq<Issue>, path: seq<Segment>, seg: Segment)
    requires Appends(a, b, path + [seg])
    ensures Appends(a, b, path)
  {
    forall i | |a| <= i < |b|
      ensures path <= b[i].path
    {
      assert path <= path + [seg] <= b[i].path;
    }
  }

  /** An invocation finishes, only appends below its path, and appends nothing on a true verdict. */
  ghost predicate Honest(f: Frame, fn: string, v: Json, path: seq<Segment>, errs: seq<Issue>) {
    f.verdict(fn, v).Some? ==>
      var r := Invoke(f.p, f.m, f.fuel, fn, v, path, errs);
      r.Some? && Appends(errs, r.value, path) && (r.value == errs <==> f.verdict(fn, v).value)
  }

  ghost predicate AllHonest(f: Frame) {
    forall fn, v, path, errs :: Honest(f, fn, v, path, errs)
  }

  predicate Callee(f: Frame, fn: string, v: Json) {
    f.verdict(fn, v).Some?
  }

  predicate Says(f: Frame, fn: string, v: Json) {
    f.verdict(fn, v) == Some(true)
  }

  /** A statement meets only values and callees it can deal with. */
  predicate Ready(f: Frame, st: Stmt, v: Json)
    decreases st
  {
    match st
    case Check(t, _) => Eval(f.p, f.m, t, v).Some?
    case CheckOrReturn(t, _) => Eval(f.p, f.m, t, v).Some?
    case When(g, body) => HasType(v, g) ==> AllReady(f, body, v)
    case NeedKey(_) => v.Obj?
    case CallKey(k, fn) => v.Obj? && (HasKey(v.fields, k) ==> Callee(f, fn, Get(v.fields, k)))
    case OnlyKeys(_) => v.Obj?
    case CallIndex(i, fn) => v.Arr? && (i < |v.items| ==> Callee(f, fn, v.items[i]))
    case CallEach(fn) => v.Arr? && forall i :: 0 <= i < |v.items| ==> Callee(f, fn, v.items[i])
    case Choose(_, fns) => forall i :: 0 <= i < |fns| ==> Callee(f, fns[i], v)
    case Call(fn) => Callee(f, fn, v)
  }

  predicate Halts(f: Frame, st: Stmt, v: Json) {
    st.CheckOrReturn? && Eval(f.p, f.m, st.test, v) == Some(false)
  }

  /** After a failed early-return check nothing runs. */
  predicate AllReady(f: Frame, ss: seq<Stmt>, v: Json)
    decreases ss
  {
    ss == [] || (Ready(f, ss[0], v) && (Halts(f, ss[0], v) || AllReady(f, ss[1..], v)))
  }

  function VerdictsOf(f: Frame, fns: seq<string>, v: Json): seq<bool> {
    seq(|fns|, i requires 0 <= i < |fns| => Says(f, fns[i], v))
  }

  /** The statement has nothing to report. */
  predicate Passes(f: Frame, st: Stmt, v: Json)
    decreases st
  {
    match st
    case Check(t, _) => Eval(f.p, f.m, t, v) == Some(true)
    case CheckOrReturn(t, _) => Eval(f.p, f.m, t, v) == Some(true)
    case When(g, body) => HasType(v, g) ==> AllPass(f, body, v)
    case NeedKey(k) => v.Obj? && HasKey(v.fields, k)
    case CallKey(k, fn) => v.Obj? && (HasKey(v.fields, k) ==> Says(f, fn, Get(v.fields, k)))
    case OnlyKeys(known) => v.Obj? && forall i :: 0 <= i < |v.fields| ==> v.fields[i].key in known
    case CallIndex(i, fn) => v.Arr? && (i < |v.items| ==> Says(f, fn, v.items[i]))
    case CallEach(fn) => v.Arr? && forall i :: 0 <= i < |v.items| ==> Says(f, fn, v.items[i])
    case Choose(AnyOf, fns) => Any(VerdictsOf(f, fns, v))
    case Choose(OneOf, fns) => ExactlyOne(VerdictsOf(f, fns, v))
    case Call(fn) => Says(f, fn, v)
  }

  predicate AllPass(f: Frame, ss: seq<Stmt>, v: Json)
    decreases ss
  {
    ss == [] || (Passes(f, ss[0], v) && AllPass(f, ss[1..], v))
  }

  lemma {:induction false} RunAll(f: Frame, ss: seq<Stmt>, v: Json, path: seq<Segment>, errs: seq<Issue>)
    requires AllHonest(f) && AllReady(f, ss, v)
    ensures var r := Exec(f.p, f.m, f.fuel, ss, v, path, State(errs, false));
      && r.Some? && Appends(errs, r.value.errs, path)
      && (r.value.errs == errs <==> AllPass(f, ss, v))
      && (r.value.returned ==> !AllPass(f, ss, v))
    decreases ss
  {
    if ss != [] {
      RunStep(f, ss[0], v, path, errs);
      var st := Step(f.p, f.m, f.fuel, ss[0], v, path, errs).value;
      if !st.returned {
        RunAll(f, ss[1..], v, path, st.errs);
        var after := Exec(f.p, f.m, f.fuel, ss[1..], v, path, st).value.errs;
        AppendsTransitive(errs, st.errs, after, path);
      }
    }
  }

  ghost predicate StepOk(f: Frame, st: Stmt, v: Json, path: seq<Segment>, errs: seq<Issue>) {
    var r := Step(f.p, f.m, f.fuel, st, v, path, errs);
    && r.Some? && Appends(errs, r.value.errs, path)
    && (r.value.errs == errs <==> Passes(f, st, v))
    && (r.value.returned ==> !Passes(f, st, v))
    && (Halts(f, st, v) ==> r.value.returned)
  }

  lemma {:induction false} RunStep(f: Frame, st: Stmt, v: Json, path: seq<Segment>, errs: seq<Issue>)
    requires AllHonest(f) && Ready(f, st, v)
    ensures StepOk(f, st, v, path, errs)
    decreases st
  {
    match st
    case When(g, body) =>
      if HasType(v, g) {
        RunAll(f, body, v, path, errs);
      }
    case Choose(comb, fns) =>
      RunChoose(f, comb, fns, v, path, errs);
    case Check(_, _) => RunTest(f, st, v, path, errs);
    case CheckOrReturn(_, _) => RunTest(f, st, v, path, errs);
    case NeedKey(_) => RunTest(f, st, v, path, errs);
    case OnlyKeys(known) => RunOnlyKeys(f, known, v, path, errs);
    case CallKey(_, _) => RunMemberCall(f, st, v, path, errs);
    case CallIndex(_, _) => RunMemberCall(f, st, v, path, errs);
    case CallEach(fn) => RunEach(f, fn, v.items, 0, path, errs);
    case Call(fn) => assert Honest(f, fn, v, path, errs);
  }

  lemma RunTest(f: Frame, st: Stmt, v: Json, path: seq<Segment>, errs: seq<Issue>)
    requires st.Check? || st.CheckOrReturn? || st.NeedKey?
    requires Ready(f, st, v)
    ensures StepOk(f, st, v, path, errs)
  {
  }

  lemma RunOnlyKeys(f: Frame, known: seq<string>, v: Json, path: seq<Segment>, errs: seq<Issue>)
    requires v.Obj?
    ensures StepOk(f, OnlyKeys(known), v, path, errs)
  {
    ExtrasMeaning(v.fields, known, path);
  }

  lemma RunMemberCall(f: Frame, st: Stmt, v: Json, path: seq<Segment>, errs: seq<Issue>)
    requires st.CallKey? || st.CallIndex?
    requires AllHonest(f) && Ready(f, st, v)
    ensures StepOk(f, st, v, path, errs)
  {
    match st
    case CallKey(k, fn) =>
      if HasKey(v.fields, k) {
        RunCall(f, fn, Get(v.fields, k), path, Key(k), errs);
      }
    case CallIndex(i, fn) =>
      if i < |v.items| {
        RunCall(f, fn, v.items[i], path, Index(i), errs);
      }
  }

  lemma RunChoose(f: Frame, comb: Combinator, fns: seq<string>, v: Json, path: seq<Segment>, errs: seq<Issue>)
    requires AllHonest(f) && Ready(f, Choose(comb, fns), v)
    ensures StepOk(f, Choose(comb, fns), v, path, errs)
  {
    var says := VerdictsOf(f, fns, v);
    RunMatched(f, fns, v, path, 0);
    if comb == AnyOf {
      CountNone(says);
    } else {
      CountSingle(says);
    }
  }

  lemma RunCall(f: Frame, fn: string, v: Json, path: seq<Segment>, seg: Segment, errs: seq<Issue>)
    requires AllHonest(f) && Callee(f, fn, v)
    ensures var r := Invoke(f.p, f.m, f.fuel, fn, v, path + [seg], errs);
      r.Some? && Appends(errs, r.value, path) && (r.value == errs <==> Says(f, fn, v))
  {
    assert Honest(f, fn, v, path + [seg], errs);
    AppendsDeeper(errs, Invoke(f.p, f.m, f.fuel, fn, v, path + [seg], errs).value, path, seg);
  }

  lemma {:induction false} ExtrasMeaning(fs: seq<Field>, known: seq<string>, path: seq<Segment>)
    ensures Extras(fs, known, path) == [] <==> forall i :: 0 <= i < |fs| ==> fs[i].key in known
    ensures Appends([], Extras(fs, known, path), path)
  {
    if fs != [] {
      ExtrasMeaning(fs[1..], known, path);
      assert forall i :: 1 <= i < |fs| ==> fs[i] == fs[1..][i - 1];
      assert forall i :: 0 <= i < |fs[1..]| ==> fs[1..][i] == fs[i + 1];
    }
  }

  lemma {:induction false} RunEach(f: Frame, fn: string, xs: seq<Json>, i: nat, path: seq<Segment>, errs: seq<Issue>)
    requires AllHonest(f) && i <= |xs| && forall j :: i <= j < |xs| ==> Callee(f, fn, xs[j])
    ensures var r := Each(f.p, f.m, f.fuel, fn, xs, i, path, errs);
      && r.Some? && Appends(errs, r.value, path)
      && (r.value == errs <==> forall j :: i <= j < |xs| ==> Says(f, fn, xs[j]))
    decreases |xs| - i
  {
    if i < |xs| {
      RunCall(f, fn, xs[i], path, Index(i), errs);
      var errs' := Invoke(f.p, f.m, f.fuel, fn, xs[i], path + [Index(i)], errs).value;
      RunEach(f, fn, xs, i + 1, path, errs');
      AppendsTransitive(errs, errs', Each(f.p, f.m, f.fuel, fn, xs, i + 1, path, errs').value, path);
    }
  }

  function CountTrue(bs: seq<bool>): nat {
    if bs == [] then 0 else (if bs[0] then 1 else 0) + CountTrue(bs[1..])
  }

  lemma {:induction false} RunMatched(f: Frame, fns: seq<string>, v: Json, path: seq<Segment>, matched: nat)
    requires AllHonest(f) && forall i :: 0 <= i < |fns| ==> Callee(f, fns[i], v)
    ensures Matched(f.p, f.m, f.fuel, fns, v, path, matched) == Some(matched + CountTrue(VerdictsOf(f, fns, v)))
    decreases |fns|
  {
    if fns != [] {
      assert Honest(f, fns[0], v, path, []);
      assert VerdictsOf(f, fns, v)[1..] == VerdictsOf(f, fns[1..], v);
      RunMatched(f, fns[1..], v, path, if Says(f, fns[0], v) then matched + 1 else matched);
    }
  }

  lemma {:induction false} CountNone(bs: seq<bool>)
    ensures CountTrue(bs) == 0 <==> !Any(bs)
  {
    if bs != [] {
      var rest := bs[1..];
      CountNone(rest);
      assert forall i :: 1 <= i < |bs| ==> bs[i] == rest[i - 1];
      assert forall i :: 0 <= i < |rest| ==> rest[i] == bs[i + 1];
    }
  }

  lemma ExactlyOneLater(bs: seq<bool>)
    requires bs != [] && !bs[0]
    ensures ExactlyOne(bs) <==> ExactlyOne(bs[1..])
  {
    var rest := bs[1..];
    if ExactlyOne(bs) {
      var i :| 0 <= i < |bs| && bs[i] && forall j :: 0 <= j < |bs| && bs[j] ==> j == i;
      assert rest[i - 1] && forall j :: 0 <= j < |rest| && rest[j] ==> bs[j + 1];
    }
    if ExactlyOne(rest) {
      var i :| 0 <= i < |rest| && rest[i] && forall j :: 0 <= j < |rest| && rest[j] ==> j == i;
      assert bs[i + 1] && forall j :: 1 <= j < |bs| && bs[j] ==> rest[j - 1];
    }
  }

  lemma {:induction false} CountSingle(bs: seq<bool>)
    ensures CountTrue(bs) == 1 <==> ExactlyOne(bs)
  {
    if bs != [] {
      var rest := bs[1..];
      CountSingle(rest);
      CountNone(rest);
      if bs[0] {
        assert forall i :: 1 <= i < |bs| ==> bs[i] == rest[i - 1];
        assert ExactlyOne(bs) <==> !Any(rest);
      } else {
        ExactlyOneLater(bs);
      }
    }
  }

  // ----- Building bodies from parts -----

  lemma {:induction false} Concat(f: Frame, a: seq<Stmt>, b: seq<Stmt>, v: Json)
    requires AllReady(f, a, v) && AllReady(f, b, v)
    ensures AllReady(f, a + b, v)
    ensures AllPass(f, a + b, v) <==> AllPass(f, a, v) && AllPass(f, b, v)
  {
    if a == [] {
      assert a + b == b;
    } else {
      assert (a + b)[1..] == a[1..] + b;
      if !Halts(f, a[0], v) {
        Concat(f, a[1..], b, v);
      }
    }
  }

  lemma {:induction false} Flat(f: Frame, ss: seq<Stmt>, v: Json)
    requires forall i :: 0 <= i < |ss| ==> Ready(f, ss[i], v)
    ensures AllReady(f, ss, v)
    ensures AllPass(f, ss, v) <==> forall i :: 0 <= i < |ss| ==> Passes(f, ss[i], v)
  {
    if ss != [] {
      var rest := ss[1..];
      assert forall i :: 0 <= i < |rest| ==> rest[i] == ss[i + 1];
      assert forall i :: 1 <= i < |ss| ==> ss[i] == rest[i - 1];
      Flat(f, rest, v);
    }
  }
}
