/** Writer scopes: repository paths, possibly with wildcards, and when two of them collide. */
module Scopes {
  import opened Sequences
  import opened Globs

  /** `re.split(r"[*?\[]", scope, maxsplit=1)[0]`: the text before the first wildcard. */
  function Cut(scope: string): (r: string)
    ensures r <= scope && !HasWildcard(r)
    ensures HasWildcard(scope) ==> |r| < |scope| && IsWildcard(scope[|r|])
    ensures !HasWildcard(scope) ==> r == scope
  {
    if scope == "" || IsWildcard(scope[0]) then ""
    else
      var rest := Cut(scope[1..]);
      assert HasWildcard(scope) <==> HasWildcard(scope[1..]) by {
        if HasWildcard(scope) {
          var i :| 0 <= i < |scope| && IsWildcard(scope[i]);
          assert scope[1..][i - 1] == scope[i];
        }
      }
      [scope[0]] + rest
  }

  /** `rstrip("/")`. */
  function Strip(s: string): (r: string)
    ensures r <= s && (r == "" || r[|r| - 1] != '/')
    ensures forall i :: |r| <= i < |s| ==> s[i] == '/'
  {
    if s != "" && s[|s| - 1] == '/' then Strip(s[..|s| - 1]) else s
  }

  function Base(scope: string): string {
    Strip(Cut(scope))
  }

  /** `path` is `dir` or lies below it. */
  predicate Under(path: string, dir: string) {
    path == dir || dir + "/" <= path
  }

  /** `scopes_overlap`. */
  predicate Overlap(left: string, right: string) {
    var a, b := Base(left), Base(right);
    a == "" || b == "" || a == b || b + "/" <= a || a + "/" <= b
  }

  // ----- Owning paths -----

  /** Which paths a scope stands for. */
  type Ownership = (string, string) -> bool

  /** At most these: for a literal scope its path and all below it, for a wildcard scope what starts with the text
      before the wildcard. */
  predicate MayOwn(scope: string, path: string) {
    if HasWildcard(scope) then Cut(scope) <= path else Base(scope) == "" || Under(path, Base(scope))
  }

  ghost predicate Contained(own: Ownership) {
    forall scope, path :: own(scope, path) ==> MayOwn(scope, path)
  }

  ghost predicate Collide(left: string, right: string) {
    exists path :: MayOwn(left, path) && MayOwn(right, path)
  }

  /** What a scope stands for as a git pathspec. */
  predicate Pathspec(b: Brackets, scope: string, path: string) {
    if HasWildcard(scope) then Glob(b, Tokens(b, scope), path) else Base(scope) == "" || Under(path, Base(scope))
  }

  ghost predicate Shared(b: Brackets, left: string, right: string) {
    exists path :: Pathspec(b, left, path) && Pathspec(b, right, path)
  }

  lemma GlobFront(b: Brackets, scope: string, s: string)
    requires Glob(b, Tokens(b, scope), s)
    ensures Cut(scope) <= s
  {
    var front, rest := Cut(scope), scope[|Cut(scope)|..];
    assert front + rest == scope;
    TokensLiteral(b, front, rest);
    GlobLiteral(b, front, Tokens(b, rest), s);
  }

  /** Pathspecs own no more than they may. */
  lemma PathspecContained(b: Brackets)
    ensures Contained((scope, path) => Pathspec(b, scope, path))
  {
    forall scope, path | Pathspec(b, scope, path)
      ensures MayOwn(scope, path)
    {
      if HasWildcard(scope) {
        GlobFront(b, scope, path);
      }
    }
  }

  // ----- When two scopes share a path -----

  /** The patterns of a scope: a literal path stands for itself and for all below it. */
  function Forms(b: Brackets, scope: string): seq<seq<Token>> {
    if HasWildcard(scope) then [Tokens(b, scope)]
    else if Base(scope) == "" then [[Many]]
    else [Literal(Base(scope)), Literal(Base(scope)) + [One('/'), Many]]
  }

  predicate Matches(b: Brackets, forms: seq<seq<Token>>, path: string) {
    exists i :: 0 <= i < |forms| && Glob(b, forms[i], path)
  }

  lemma GlobBelow(b: Brackets, base: string, path: string)
    ensures Glob(b, Literal(base) + [One('/'), Many], path) <==> base + "/" <= path
  {
    GlobLiteral(b, base, [One('/'), Many], path);
    assert [One('/'), Many][1..] == [Many];
    if base <= path && path != base {
      GlobAll(b, path[|base|..][1..]);
    }
    assert base + "/" <= path <==> base <= path && path != base && path[|base|] == '/';
  }

  lemma FormsMatch(b: Brackets, scope: string, path: string)
    ensures Pathspec(b, scope, path) <==> Matches(b, Forms(b, scope), path)
  {
    var forms := Forms(b, scope);
    if HasWildcard(scope) {
      assert forms[0] == Tokens(b, scope);
    } else if Base(scope) == "" {
      GlobAll(b, path);
      assert forms[0] == [Many];
    } else {
      GlobWhole(b, Base(scope), path);
      GlobBelow(b, Base(scope), path);
      assert forms[0] == Literal(Base(scope)) && forms[1] == Literal(Base(scope)) + [One('/'), Many];
    }
  }

  /** Whether a pattern of one meets a pattern of the other. */
  ghost predicate Crossing(b: Brackets, left: string, right: string) {
    exists i, j :: 0 <= i < |Forms(b, left)| && 0 <= j < |Forms(b, right)|
      && Meets(b, Forms(b, left)[i], Forms(b, right)[j])
  }

  /** Scopes share a path exactly when their patterns meet, token by token. */
  lemma SharedExactly(b: Brackets, left: string, right: string)
    ensures Shared(b, left, right) <==> Crossing(b, left, right)
  {
    if Shared(b, left, right) {
      var path :| Pathspec(b, left, path) && Pathspec(b, right, path);
      FormsMatch(b, left, path);
      FormsMatch(b, right, path);
      var i :| 0 <= i < |Forms(b, left)| && Glob(b, Forms(b, left)[i], path);
      var j :| 0 <= j < |Forms(b, right)| && Glob(b, Forms(b, right)[j], path);
      CommonMeets(b, Forms(b, left)[i], Forms(b, right)[j], path);
    }
    if Crossing(b, left, right) {
      var i, j :| 0 <= i < |Forms(b, left)| && 0 <= j < |Forms(b, right)|
        && Meets(b, Forms(b, left)[i], Forms(b, right)[j]);
      var path := MeetingText(b, Forms(b, left)[i], Forms(b, right)[j]);
      FormsMatch(b, left, path);
      FormsMatch(b, right, path);
      assert Pathspec(b, left, path) && Pathspec(b, right, path);
    }
  }

  // ----- Scopes with at most one star -----

  lemma {:induction false} GlobStar(b: Brackets, tail: string, s: string)
    ensures Glob(b, [Many] + Literal(tail), s) <==> EndsWith(s, tail)
    decreases |s|
  {
    GlobWhole(b, tail, s);
    assert ([Many] + Literal(tail))[1..] == Literal(tail);
    if s != "" {
      GlobStar(b, tail, s[1..]);
      if |tail| < |s| {
        assert s[1..][|s| - 1 - |tail|..] == s[|s| - |tail|..];
      }
    }
  }

  /** What stands after the first wildcard. */
  function Tail(scope: string): string {
    if HasWildcard(scope) then scope[|Cut(scope)| + 1..] else ""
  }

  /** A literal path, or one with a single star. */
  predicate Plain(scope: string) {
    HasWildcard(scope) ==> scope[|Cut(scope)|] == '*' && !HasWildcard(Tail(scope))
  }

  lemma EndsLater(path: string, n: nat, tail: string)
    requires n <= |path|
    ensures EndsWith(path[n..], tail) <==> EndsWith(path, tail) && n + |tail| <= |path|
  {
    if n + |tail| <= |path| {
      assert path[n..][|path| - n - |tail|..] == path[|path| - |tail|..];
    }
  }

  lemma StarTokens(b: Brackets, front: string, tail: string)
    requires !HasWildcard(front) && !HasWildcard(tail)
    ensures Tokens(b, front + ("*" + tail)) == Literal(front) + ([Many] + Literal(tail))
  {
    TokensLiteral(b, front, "*" + tail);
    TokensLiteral(b, tail, "");
    assert tail + "" == tail && Literal(tail) + [] == Literal(tail);
    assert ("*" + tail)[1..] == tail;
  }

  lemma GlobParts(b: Brackets, front: string, tail: string, path: string)
    requires !HasWildcard(front) && !HasWildcard(tail)
    ensures Glob(b, Tokens(b, front + ("*" + tail)), path) <==>
      front <= path && EndsWith(path, tail) && |front| + |tail| <= |path|
  {
    StarTokens(b, front, tail);
    GlobLiteral(b, front, [Many] + Literal(tail), path);
    if front <= path {
      GlobStar(b, tail, path[|front|..]);
      EndsLater(path, |front|, tail);
    }
  }

  lemma StarAt(s: string, n: nat)
    requires n < |s| && s[n] == '*'
    ensures s == s[..n] + ("*" + s[n + 1..])
  {
  }

  lemma StarParts(scope: string)
    requires HasWildcard(scope) && Plain(scope)
    ensures scope == Cut(scope) + ("*" + Tail(scope)) && !HasWildcard(Cut(scope)) && !HasWildcard(Tail(scope))
  {
    var n := |Cut(scope)|;
    StarAt(scope, n);
    assert scope[..n] == Cut(scope);
  }

  lemma PathspecParts(b: Brackets, scope: string, front: string, tail: string, path: string)
    requires HasWildcard(scope) && scope == front + ("*" + tail) && !HasWildcard(front) && !HasWildcard(tail)
    ensures Pathspec(b, scope, path) <==> front <= path && EndsWith(path, tail) && |front| + |tail| <= |path|
  {
    GlobParts(b, front, tail, path);
  }

  /** A star matches what starts and ends as the scope does, without the two meeting. */
  lemma StarMatches(b: Brackets, scope: string, path: string)
    requires HasWildcard(scope) && Plain(scope)
    ensures Pathspec(b, scope, path) <==>
      Cut(scope) <= path && EndsWith(path, Tail(scope)) && |Cut(scope)| + |Tail(scope)| <= |path|
  {
    StarParts(scope);
    PathspecParts(b, scope, Cut(scope), Tail(scope), path);
  }

  /** One tail ends with the other. */
  predicate TailsMeet(left: string, right: string) {
    EndsWith(Tail(left), Tail(right)) || EndsWith(Tail(right), Tail(left))
  }

  lemma TailsComparable(path: string, a: string, b: string)
    requires EndsWith(path, a) && EndsWith(path, b) && |a| <= |b|
    ensures EndsWith(b, a)
  {
    assert path[|path| - |b|..][|b| - |a|..] == path[|path| - |a|..];
  }

  lemma EndsTransitive(path: string, b: string, a: string)
    requires EndsWith(path, b) && EndsWith(b, a)
    ensures EndsWith(path, a)
  {
    assert path[|path| - |b|..][|b| - |a|..] == path[|path| - |a|..];
  }

  lemma PlainEnds(b: Brackets, scope: string, path: string)
    requires Plain(scope) && Pathspec(b, scope, path)
    ensures MayOwn(scope, path) && EndsWith(path, Tail(scope))
  {
    if HasWildcard(scope) {
      StarMatches(b, scope, path);
    }
  }

  /** Below a path a scope may own it stands for every path with its tail. */
  lemma PlainBelow(b: Brackets, scope: string, path: string, tail: string)
    requires Plain(scope) && MayOwn(scope, path) && EndsWith(tail, Tail(scope))
    ensures Pathspec(b, scope, path + "/" + tail)
  {
    var below := path + "/" + tail;
    assert below[|below| - |tail|..] == tail;
    if HasWildcard(scope) {
      EndsTransitive(below, tail, Tail(scope));
      StarMatches(b, scope, below);
    } else if Base(scope) != "" && path == Base(scope) {
      assert path + "/" <= below;
    }
  }

  lemma SharedCollides(b: Brackets, left: string, right: string, path: string)
    requires Plain(left) && Plain(right) && Pathspec(b, left, path) && Pathspec(b, right, path)
    ensures MayOwn(left, path) && MayOwn(right, path) && TailsMeet(left, right)
  {
    PlainEnds(b, left, path);
    PlainEnds(b, right, path);
    if |Tail(left)| <= |Tail(right)| {
      TailsComparable(path, Tail(left), Tail(right));
    } else {
      TailsComparable(path, Tail(right), Tail(left));
    }
  }

  lemma EndsWithItself(tail: string)
    ensures EndsWith(tail, tail)
  {
  }

  lemma CollisionShared(b: Brackets, left: string, right: string, path: string) returns (below: string)
    requires Plain(left) && Plain(right) && MayOwn(left, path) && MayOwn(right, path) && TailsMeet(left, right)
    ensures Pathspec(b, left, below) && Pathspec(b, right, below)
  {
    var tail := if EndsWith(Tail(left), Tail(right)) then Tail(left) else Tail(right);
    EndsWithItself(tail);
    PlainBelow(b, left, path, tail);
    PlainBelow(b, right, path, tail);
    below := path + "/" + tail;
  }

  /** Plain scopes share a path exactly when they may collide and their tails agree. */
  lemma PlainShared(b: Brackets, left: string, right: string)
    requires Plain(left) && Plain(right)
    ensures Shared(b, left, right) <==> Collide(left, right) && TailsMeet(left, right)
  {
    if Shared(b, left, right) {
      var path :| Pathspec(b, left, path) && Pathspec(b, right, path);
      SharedCollides(b, left, right, path);
    }
    if Collide(left, right) && TailsMeet(left, right) {
      var path :| MayOwn(left, path) && MayOwn(right, path);
      var below := CollisionShared(b, left, right, path);
    }
  }

  // ----- What the comparison misses -----

  /** A wildcard inside a path component: what stands before it is not a whole directory. */
  predicate MidComponent(scope: string) {
    HasWildcard(scope) && Cut(scope) != "" && Cut(scope)[|Cut(scope)| - 1] != '/'
  }

  lemma StripFixed(s: string)
    requires s == "" || s[|s| - 1] != '/'
    ensures Strip(s) == s
  {
  }

  lemma OwnedUnderBase(scope: string, path: string)
    requires MayOwn(scope, path) && !MidComponent(scope)
    ensures Base(scope) == "" || Under(path, Base(scope))
  {
    if HasWildcard(scope) && Base(scope) != "" {
      var c := Cut(scope);
      assert c[|Base(scope)|] == '/';
      assert Base(scope) + "/" <= c;
    }
  }

  lemma UnderComparable(path: string, a: string, b: string)
    requires Under(path, a) && Under(path, b)
    ensures a == b || b + "/" <= a || a + "/" <= b
  {
    if |a| < |b| {
      assert path[|a|] == '/' && a == path[..|a|] && b == path[..|b|];
      assert a + "/" <= b;
    } else if |b| < |a| {
      assert path[|b|] == '/' && a == path[..|a|] && b == path[..|b|];
      assert b + "/" <= a;
    } else {
      assert a == path[..|a|] && b == path[..|b|];
    }
  }

  /** The text before a wildcard of one scope is continued, in mid-component or not, by the other. */
  predicate Continues(left: string, right: string) {
    || (MidComponent(left) && Base(left) <= Base(right))
    || (MidComponent(right) && Base(right) <= Base(left))
  }

  /** At most one slash before a wildcard or at the end. */
  predicate Tidy(scope: string) {
    Cut(scope) == Base(scope) || (Base(scope) != "" && Cut(scope) == Base(scope) + "/")
  }

  /** Whatever the scopes stand for, a path of both that the comparison does not notice lies behind a wildcard in
      mid-component. */
  lemma UnnoticedContinues(own: Ownership, left: string, right: string, path: string)
    requires Contained(own) && own(left, path) && own(right, path) && !Overlap(left, right)
    ensures Continues(left, right)
  {
    CollisionFound(left, right, path);
  }

  lemma CollideExactly(left: string, right: string)
    requires !Overlap(left, right)
    ensures Collide(left, right) <==> Continues(left, right)
  {
    if path :| MayOwn(left, path) && MayOwn(right, path) {
      CollisionFound(left, right, path);
    }
    if MidComponent(left) && Base(left) <= Base(right) {
      MidCollides(left, right);
    }
    if MidComponent(right) && Base(right) <= Base(left) {
      MidCollides(right, left);
      assert MayOwn(right, Cut(left)) && MayOwn(left, Cut(left));
    }
  }

  /** The comparison misses a shared path exactly when it is false and the patterns meet; and then one scope continues
      the text before a wildcard in mid-component of the other. */
  lemma OverlapMisses(b: Brackets, left: string, right: string)
    ensures !Overlap(left, right) && Shared(b, left, right) <==> !Overlap(left, right) && Crossing(b, left, right)
    ensures !Overlap(left, right) && Crossing(b, left, right) ==> Continues(left, right)
  {
    SharedExactly(b, left, right);
    if !Overlap(left, right) && Shared(b, left, right) {
      var path :| Pathspec(b, left, path) && Pathspec(b, right, path);
      PathspecContained(b);
      UnnoticedContinues((scope, path) => Pathspec(b, scope, path), left, right, path);
    }
  }

  /** For plain scopes that is when one continues the text before a star in mid-component of the other, and their tails
      agree. */
  lemma PlainMisses(b: Brackets, left: string, right: string)
    requires Plain(left) && Plain(right) && !Overlap(left, right)
    ensures Shared(b, left, right) <==> Continues(left, right) && TailsMeet(left, right)
  {
    PlainShared(b, left, right);
    CollideExactly(left, right);
  }

  /** At component boundaries nothing is missed, and something noticed for nothing exactly when no patterns meet: for
      plain scopes, when the tails disagree. */
  lemma OverlapExact(b: Brackets, left: string, right: string)
    requires !MidComponent(left) && !MidComponent(right)
    ensures Shared(b, left, right) <==> Overlap(left, right) && Crossing(b, left, right)
    ensures Plain(left) && Plain(right) && Tidy(left) && Tidy(right) ==>
      (Crossing(b, left, right) <==> Overlap(left, right) && TailsMeet(left, right))
  {
    SharedExactly(b, left, right);
    OverlapMisses(b, left, right);
    if Plain(left) && Plain(right) && Tidy(left) && Tidy(right) {
      PlainExact(b, left, right);
    }
  }

  lemma PlainExact(b: Brackets, left: string, right: string)
    requires Plain(left) && Plain(right) && Tidy(left) && Tidy(right)
    requires !MidComponent(left) && !MidComponent(right)
    ensures Shared(b, left, right) <==> Overlap(left, right) && TailsMeet(left, right)
  {
    PlainShared(b, left, right);
    if Overlap(left, right) {
      OverlapCollides(left, right);
    } else {
      CollideExactly(left, right);
    }
  }

  lemma MidCollides(left: string, right: string)
    requires MidComponent(left) && Base(left) <= Base(right)
    ensures MayOwn(left, Cut(right)) && MayOwn(right, Cut(right))
  {
    StripFixed(Cut(left));
    assert Base(right) <= Cut(right);
    if !HasWildcard(right) {
      StripUnder(right);
    }
  }

  lemma StripUnder(s: string)
    ensures Strip(s) == "" || Under(s, Strip(s))
  {
    if |Strip(s)| < |s| {
      assert s[|Strip(s)|] == '/';
    }
  }

  lemma PlainParts(a: string, b: string)
    requires !HasWildcard(a + b)
    ensures !HasWildcard(a) && !HasWildcard(b)
  {
    assert forall i :: 0 <= i < |a| ==> a[i] == (a + b)[i];
    assert forall i :: 0 <= i < |b| ==> b[i] == (a + b)[|a| + i];
  }

  lemma StarOwns(b: Brackets, front: string, middle: string, tail: string)
    requires !HasWildcard(front) && !HasWildcard(tail)
    ensures HasWildcard(front + "*" + tail) && Pathspec(b, front + "*" + tail, front + (middle + tail))
  {
    var path := front + (middle + tail);
    assert front + "*" + tail == front + ("*" + tail);
    assert (front + "*" + tail)[|front|] == '*';
    assert path[|path| - |tail|..] == tail;
    PathspecParts(b, front + "*" + tail, front, tail, path);
  }

  lemma ContinuedUnnoticed(front: string, tail: string, rest: string)
    requires !HasWildcard(front) && !HasWildcard(front + rest) && front != "" && front[|front| - 1] != '/'
    requires rest != "" && rest[0] != '/' && rest[|rest| - 1] != '/'
    ensures !Overlap(front + "*" + tail, front + rest)
  {
    CutAt(front, '*', tail);
    assert ['*'] == "*";
    StripFixed(front);
    StripFixed(front + rest);
    assert (front + rest)[|front|] == rest[0];
  }

  lemma OwnsItself(b: Brackets, path: string)
    requires !HasWildcard(path) && (path == "" || path[|path| - 1] != '/')
    ensures Pathspec(b, path, path)
  {
    StripFixed(path);
  }

  /** A star in mid-component: the comparison does not reserve the directory before it, and a file that both scopes
      stand for goes unnoticed. */
  lemma MidComponentMissed(b: Brackets, front: string, middle: string, tail: string)
    requires !HasWildcard(front + (middle + tail)) && front != "" && front[|front| - 1] != '/'
    requires middle + tail != "" && (middle + tail)[0] != '/' && (middle + tail)[|middle + tail| - 1] != '/'
    ensures var left, path := front + "*" + tail, front + (middle + tail);
      !Overlap(left, path) && Pathspec(b, left, path) && Pathspec(b, path, path)
  {
    PlainParts(front, middle + tail);
    PlainParts(middle, tail);
    StarOwns(b, front, middle, tail);
    ContinuedUnnoticed(front, tail, middle + tail);
    OwnsItself(b, front + (middle + tail));
  }

  const DOCS_LEFT := "docs/T01" + "*" + ".md"
  const DOCS_RIGHT := "docs/T01" + ("-x" + ".md")

  /** `docs/T01*.md` against `docs/T01-x.md`. */
  lemma DocsExampleMissed(b: Brackets)
    ensures !Overlap(DOCS_LEFT, DOCS_RIGHT)
    ensures Pathspec(b, DOCS_LEFT, DOCS_RIGHT) && Pathspec(b, DOCS_RIGHT, DOCS_RIGHT)
  {
    assert !HasWildcard(DOCS_RIGHT) by {
      PlainConcat("docs/T01", "-x" + ".md");
    }
    MidComponentMissed(b, "docs/T01", "-x", ".md");
  }

  /** A question mark stands for one character only: here neither the comparison nor git sees anything shared. */
  lemma QuestionApart(b: Brackets, front: string, tail: string, right: string)
    requires !HasWildcard(front) && !HasWildcard(tail) && !HasWildcard(right)
    requires |front| + 1 + |tail| < |Base(right)|
    ensures !Shared(b, front + ("?" + tail), right)
  {
    var left := front + ("?" + tail);
    assert left[|front|] == '?';
    forall path | Pathspec(b, left, path)
      ensures |path| == |left|
    {
      TokensLiteral(b, front, "?" + tail);
      assert ("?" + tail)[1..] == tail;
      GlobLiteral(b, front, [AnyOne] + Tokens(b, tail), path);
      TokensLiteral(b, tail, "");
      assert tail + "" == tail && Literal(tail) + [] == Literal(tail);
      assert ([AnyOne] + Tokens(b, tail))[1..] == Tokens(b, tail);
      GlobWhole(b, tail, path[|front|..][1..]);
    }
  }

  lemma PlainConcat(a: string, b: string)
    requires (forall i :: 0 <= i < |a| ==> !IsWildcard(a[i])) && (forall i :: 0 <= i < |b| ==> !IsWildcard(b[i]))
    ensures !HasWildcard(a + b)
  {
  }

  lemma {:induction false} CutAt(front: string, w: char, back: string)
    requires !HasWildcard(front) && IsWildcard(w)
    ensures Cut(front + [w] + back) == front && HasWildcard(front + [w] + back)
  {
    var s := front + [w] + back;
    assert IsWildcard(s[|front|]);
    assert forall i :: 0 <= i < |front| ==> s[i] == front[i];
    assert forall i :: 0 <= i < |Cut(s)| ==> s[i] == Cut(s)[i] && !IsWildcard(s[i]);
  }

  lemma CollisionFound(left: string, right: string, path: string)
    requires MayOwn(left, path) && MayOwn(right, path)
    ensures Overlap(left, right) || Continues(left, right)
  {
    var a, b := Base(left), Base(right);
    BasePrefix(left, path);
    BasePrefix(right, path);
    assert a <= b || b <= a by {
      assert a == path[..|a|] && b == path[..|b|];
    }
    if !MidComponent(left) { OwnedUnderBase(left, path); }
    if !MidComponent(right) { OwnedUnderBase(right, path); }
    if a != "" && b != "" {
      if !MidComponent(left) && !MidComponent(right) {
        UnderComparable(path, a, b);
      } else if !MidComponent(left) && a <= b && a != b {
        assert a + "/" <= path;
        assert b[|a|] == path[|a|] == '/';
        assert a + "/" <= b;
      } else if !MidComponent(right) && b <= a && a != b {
        assert b + "/" <= path;
        assert a[|b|] == path[|b|] == '/';
        assert b + "/" <= a;
      }
    }
  }

  lemma BasePrefix(scope: string, path: string)
    requires MayOwn(scope, path)
    ensures Base(scope) <= path
  {
  }

  /** The text before the wildcard of the deeper scope, or one slash more, lies in both. */
  lemma OverlapCollides(left: string, right: string)
    requires Overlap(left, right) && Tidy(left) && Tidy(right)
    ensures Collide(left, right)
  {
    var a, b := Base(left), Base(right);
    if a == "" || a + "/" <= b {
      OwnsDeeper(left, right);
    } else if b == "" || b + "/" <= a {
      OwnsDeeper(right, left);
    } else {
      OwnsSlash(left);
      OwnsSlash(right);
      assert MayOwn(left, a + "/") && MayOwn(right, a + "/");
    }
  }

  lemma OwnsSlash(scope: string)
    requires Tidy(scope) && Base(scope) != ""
    ensures MayOwn(scope, Base(scope) + "/")
  {
  }

  lemma OwnsCut(scope: string)
    requires Tidy(scope)
    ensures MayOwn(scope, Cut(scope))
  {
  }

  lemma OwnsBelow(scope: string, path: string)
    requires Tidy(scope) && (Base(scope) == "" || Base(scope) + "/" <= path)
    ensures MayOwn(scope, path)
  {
  }

  lemma PrefixChain(a: string, b: string, c: string)
    requires a <= b <= c
    ensures a <= c
  {
  }

  lemma OwnsDeeper(outer: string, inner: string)
    requires Tidy(outer) && Tidy(inner)
    requires Base(outer) == "" || Base(outer) + "/" <= Base(inner)
    ensures MayOwn(outer, Cut(inner)) && MayOwn(inner, Cut(inner))
  {
    OwnsCut(inner);
    if Base(outer) != "" {
      PrefixChain(Base(outer) + "/", Base(inner), Cut(inner));
    }
    OwnsBelow(outer, Cut(inner));
  }
}
