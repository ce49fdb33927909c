/** Git's matching of wildcard patterns, and when two patterns match a common text. */
module Globs {

  predicate IsWildcard(c: char) {
    c == '*' || c == '?' || c == '['
  }

  predicate HasWildcard(scope: string) {
    exists i :: 0 <= i < |scope| && IsWildcard(scope[i])
  }

  /** How long the bracket expression at the head of a pattern is, zero where it does not close, and which characters it
      stands for: either may be anything. */
  datatype Brackets = Brackets(length: string -> nat, holds: (string, char) -> bool)

  datatype Token = One(c: char) | AnyOne | OneOf(text: string) | Many | Never

  function Tokens(b: Brackets, pattern: string): seq<Token> {
    if pattern == "" then []
    else if pattern[0] == '*' then [Many] + Tokens(b, pattern[1..])
    else if pattern[0] == '?' then [AnyOne] + Tokens(b, pattern[1..])
    else if pattern[0] != '[' then [One(pattern[0])] + Tokens(b, pattern[1..])
    else
      var n := b.length(pattern);
      if n == 0 || n > |pattern| then [Never] else [OneOf(pattern[..n])] + Tokens(b, pattern[n..])
  }

  predicate Fits(b: Brackets, t: Token, c: char) {
    match t
    case One(d) => c == d
    case AnyOne => true
    case OneOf(text) => b.holds(text, c)
    case Many => false
    case Never => false
  }

  /** A star stands for any text, slashes included. */
  predicate Glob(b: Brackets, ts: seq<Token>, s: string)
    decreases |ts| + |s|
  {
    if ts == [] then s == ""
    else if ts[0].Many? then Glob(b, ts[1..], s) || (s != "" && Glob(b, ts, s[1..]))
    else s != "" && Fits(b, ts[0], s[0]) && Glob(b, ts[1..], s[1..])
  }

  // ----- Two patterns -----

  ghost predicate Fillable(b: Brackets, t: Token) {
    exists c :: Fits(b, t, c)
  }

  ghost predicate Compatible(b: Brackets, t: Token, u: Token) {
    exists c :: Fits(b, t, c) && Fits(b, u, c)
  }

  /** Whether two patterns meet, token by token: a star takes nothing, or what the other pattern has next. */
  ghost predicate Meets(b: Brackets, p: seq<Token>, q: seq<Token>)
    decreases |p| + |q|
  {
    if p != [] && p[0].Many? then
      Meets(b, p[1..], q) || (q != [] && (q[0].Many? || Fillable(b, q[0])) && Meets(b, p, q[1..]))
    else if q != [] && q[0].Many? then
      Meets(b, p, q[1..]) || (p != [] && Fillable(b, p[0]) && Meets(b, p[1..], q))
    else if p == [] || q == [] then p == q
    else Compatible(b, p[0], q[0]) && Meets(b, p[1..], q[1..])
  }

  lemma GlobSkips(b: Brackets, ts: seq<Token>, s: string)
    requires ts != [] && ts[0].Many? && Glob(b, ts[1..], s)
    ensures Glob(b, ts, s)
  {
  }

  lemma GlobTakes(b: Brackets, ts: seq<Token>, c: char, s: string)
    requires ts != [] && Glob(b, if ts[0].Many? then ts else ts[1..], s) && (ts[0].Many? || Fits(b, ts[0], c))
    ensures Glob(b, ts, [c] + s)
  {
    assert ([c] + s)[1..] == s;
  }

  /** A text both match. */
  lemma {:induction false} MeetingText(b: Brackets, p: seq<Token>, q: seq<Token>) returns (s: string)
    requires Meets(b, p, q)
    ensures Glob(b, p, s) && Glob(b, q, s)
    decreases |p| + |q|
  {
    if p != [] && p[0].Many? {
      if Meets(b, p[1..], q) {
        s := MeetingText(b, p[1..], q);
        GlobSkips(b, p, s);
      } else {
        s := MeetingText(b, p, q[1..]);
        if q[0].Many? {
          GlobSkips(b, q, s);
        } else {
          var c :| Fits(b, q[0], c);
          GlobTakes(b, p, c, s);
          GlobTakes(b, q, c, s);
          s := [c] + s;
        }
      }
    } else if q != [] && q[0].Many? {
      if Meets(b, p, q[1..]) {
        s := MeetingText(b, p, q[1..]);
        GlobSkips(b, q, s);
      } else {
        s := MeetingText(b, p[1..], q);
        var c :| Fits(b, p[0], c);
        GlobTakes(b, p, c, s);
        GlobTakes(b, q, c, s);
        s := [c] + s;
      }
    } else if p == [] || q == [] {
      s := "";
    } else {
      s := MeetingText(b, p[1..], q[1..]);
      var c :| Fits(b, p[0], c) && Fits(b, q[0], c);
      GlobTakes(b, p, c, s);
      GlobTakes(b, q, c, s);
      s := [c] + s;
    }
  }

  lemma {:induction false} CommonMeets(b: Brackets, p: seq<Token>, q: seq<Token>, s: string)
    requires Glob(b, p, s) && Glob(b, q, s)
    ensures Meets(b, p, q)
    decreases |p| + |q| + |s|
  {
    if p != [] && p[0].Many? {
      if Glob(b, p[1..], s) {
        CommonMeets(b, p[1..], q, s);
      } else if q[0].Many? {
        if Glob(b, q[1..], s) {
          CommonMeets(b, p, q[1..], s);
        } else {
          CommonMeets(b, p, q, s[1..]);
        }
      } else {
        CommonMeets(b, p, q[1..], s[1..]);
      }
    } else if q != [] && q[0].Many? {
      if Glob(b, q[1..], s) {
        CommonMeets(b, p, q[1..], s);
      } else {
        CommonMeets(b, p[1..], q, s[1..]);
      }
    } else if p != [] {
      CommonMeets(b, p[1..], q[1..], s[1..]);
    }
  }

  predicate Both(b: Brackets, p: seq<Token>, q: seq<Token>, s: string) {
    Glob(b, p, s) && Glob(b, q, s)
  }

  /** Two patterns match a common text exactly when they meet. */
  lemma MeetsExactly(b: Brackets, p: seq<Token>, q: seq<Token>)
    ensures Meets(b, p, q) <==> exists s :: Both(b, p, q, s)
  {
    if Meets(b, p, q) {
      var s := MeetingText(b, p, q);
      assert Both(b, p, q, s);
    }
    if s :| Both(b, p, q, s) {
      CommonMeets(b, p, q, s);
    }
  }

  // ----- Literal text -----

  function Literal(s: string): (ts: seq<Token>)
    ensures |ts| == |s| && forall i :: 0 <= i < |s| ==> ts[i] == One(s[i])
  {
    seq(|s|, i requires 0 <= i < |s| => One(s[i]))
  }

  lemma LiteralCons(s: string, ts: seq<Token>)
    requires s != ""
    ensures Literal(s) + ts == [One(s[0])] + (Literal(s[1..]) + ts)
  {
  }

  lemma {:induction false} TokensLiteral(b: Brackets, front: string, rest: string)
    requires !HasWildcard(front)
    ensures Tokens(b, front + rest) == Literal(front) + Tokens(b, rest)
  {
    if front == "" {
      assert "" + rest == rest;
    } else {
      assert !IsWildcard(front[0]);
      assert forall i :: 0 <= i < |front[1..]| ==> front[1..][i] == front[i + 1];
      assert (front + rest)[1..] == front[1..] + rest;
      TokensLiteral(b, front[1..], rest);
      LiteralCons(front, Tokens(b, rest));
    }
  }

  lemma {:induction false} GlobLiteral(b: Brackets, front: string, ts: seq<Token>, s: string)
    ensures Glob(b, Literal(front) + ts, s) <==> front <= s && Glob(b, ts, s[|front|..])
    decreases |front|
  {
    if front == "" {
      assert Literal(front) + ts == ts && s[0..] == s;
    } else {
      LiteralCons(front, ts);
      assert ([One(front[0])] + (Literal(front[1..]) + ts))[1..] == Literal(front[1..]) + ts;
      if s != "" {
        GlobLiteral(b, front[1..], ts, s[1..]);
        if front[0] == s[0] && front[1..] <= s[1..] {
          assert s[..|front|] == front;
          assert s[1..][|front[1..]|..] == s[|front|..];
        }
      }
    }
  }

  lemma GlobWhole(b: Brackets, text: string, s: string)
    ensures Glob(b, Literal(text), s) <==> s == text
  {
    GlobLiteral(b, text, [], s);
    assert Literal(text) + [] == Literal(text);
    if text <= s && s[|text|..] == "" {
      assert s == s[..|text|] + s[|text|..];
    }
  }

  lemma {:induction false} GlobAll(b: Brackets, s: string)
    ensures Glob(b, [Many], s)
  {
    if s != "" {
      GlobAll(b, s[1..]);
    }
  }
}
