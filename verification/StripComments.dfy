/** Line counting by index. */
module SourceLines {
  import opened Sequences

  /** The line ends from `i` up to `j`. */
  function Lines(s: string, i: nat, j: nat): nat
    requires i <= j <= |s|
    decreases j - i
  {
    if i == j then 0 else Lines(s, i, j - 1) + if s[j - 1] == '\n' then 1 else 0
  }

  lemma {:induction false} LinesSplit(s: string, i: nat, j: nat, k: nat)
    requires i <= j <= k <= |s|
    ensures Lines(s, i, k) == Lines(s, i, j) + Lines(s, j, k)
    decreases k - j
  {
    if j < k {
      LinesSplit(s, i, j, k - 1);
    }
  }

  /** A text that stands at `at` in another has as many line ends there. */
  lemma {:induction false} LinesShifted(s: string, t: string, at: nat, n: nat)
    requires n <= |s| && at + n <= |t| && forall k :: 0 <= k < n ==> s[k] == t[at + k]
    ensures Lines(s, 0, n) == Lines(t, at, at + n)
    decreases n
  {
    if n > 0 {
      LinesShifted(s, t, at, n - 1);
    }
  }

  lemma LinesAppend(a: string, b: string, n: nat)
    requires n <= |b|
    ensures Lines(a + b, 0, |a| + n) == Lines(a, 0, |a|) + Lines(b, 0, n)
  {
    LinesSplit(a + b, 0, |a|, |a| + n);
    LinesShifted(a, a + b, 0, |a|);
    LinesShifted(b, a + b, |a|, n);
  }

  lemma LinesPrefix(a: string, b: string, n: nat)
    requires n <= |a|
    ensures Lines(a + b, 0, n) == Lines(a, 0, n)
  {
    LinesShifted(a, a + b, 0, n);
  }

  /** `c` at `i`, and the same two, three or four characters. */
  predicate At(text: string, i: nat, word: string) {
    i + |word| <= |text| && text[i..i + |word|] == word
  }

  lemma Spelled(text: string, i: nat, word: string)
    requires At(text, i, word)
    ensures forall k :: 0 <= k < |word| ==> text[i + k] == word[k]
  {
    forall k | 0 <= k < |word|
      ensures text[i + k] == word[k]
    {
      assert text[i..i + |word|][k] == text[i + k];
    }
  }

  lemma OneAndTwo(text: string, i: nat)
    ensures i + 1 <= |text| ==> text[i..i + 1] == [text[i]]
    ensures i + 2 <= |text| ==> text[i..i + 2] == [text[i], text[i + 1]]
  {
  }

  function Spaces(n: nat): (s: string)
    ensures |s| == n && forall k :: 0 <= k < n ==> s[k] == ' '
  {
    seq(n, _ => ' ')
  }

  /** Where a comment that runs from `i` on is closed, or the end of the text. */
  function Close(text: string, i: nat, word: string): (j: nat)
    requires i <= |text| && word != ""
    ensures i <= j <= |text| && (j < |text| ==> At(text, j, word))
    ensures forall k :: i <= k < j ==> !At(text, k, word)
    decreases |text| - i
  {
    if i == |text| || At(text, i, word) then i else Close(text, i + 1, word)
  }

  /** Blanked, with the line ends kept. */
  function Blank(text: string, i: nat, j: nat): (s: string)
    requires i <= j <= |text|
    ensures |s| == j - i && forall k :: 0 <= k < j - i ==> s[k] == if text[i + k] == '\n' then '\n' else ' '
  {
    seq(j - i, k requires 0 <= k < j - i => if text[i + k] == '\n' then '\n' else ' ')
  }

  /** A character of the output is that of the text, or a space for one that is no line end. */
  predicate Same(out: char, c: char) {
    out == c || (out == ' ' && c != '\n')
  }

  lemma BlankStep(text: string, i: nat, j: nat)
    requires i < j <= |text|
    ensures Blank(text, i, j) == [if text[i] == '\n' then '\n' else ' '] + Blank(text, i + 1, j)
  {
    var b, rest := Blank(text, i, j), Blank(text, i + 1, j);
    forall k | 1 <= k < j - i
      ensures b[k] == rest[k - 1]
    {
      assert text[i + k] == text[i + 1 + (k - 1)];
    }
  }

  lemma Front(text: string, i: nat, k: nat, j: nat, rest: string)
    requires i <= k <= j <= |text|
    ensures text[i..k] + (text[k..j] + rest) == text[i..j] + rest
  {
    assert text[i..k] + text[k..j] == text[i..j];
    Assoc(text[i..k], text[k..j], rest);
  }

  /** Where a quoted text that runs from `i` on ends: after the first quote no backslash stands before. */
  function QuoteEnd(text: string, i: nat, quote: char): (j: nat)
    requires i <= |text|
    ensures i <= j <= |text|
    decreases |text| - i
  {
    if i == |text| then i
    else if text[i] == '\\' && i + 1 < |text| then QuoteEnd(text, i + 2, quote)
    else if text[i] == quote then i + 1
    else QuoteEnd(text, i + 1, quote)
  }
}

/** The comment strippers for style sheets and pages. */
module StripComments {
  import opened Sequences
  import opened SourceLines

  datatype Language = Css | Html

  datatype Mode = Normal | Comment | Tag | Quoted(quote: char)

  datatype Move = Move(out: string, next: nat, mode: Mode)

  function Opening(lang: Language): string {
    if lang == Css then "/*" else "<!--"
  }

  function Closing(lang: Language): string {
    if lang == Css then "*/" else "-->"
  }

  /** Where quotes open and what they return to: anywhere in a style sheet, inside tags on a page. */
  function Outer(lang: Language): Mode {
    if lang == Css then Normal else Tag
  }

  function Copied(text: string, i: nat, mode: Mode): Move
    requires i < |text|
  {
    Move([text[i]], i + 1, mode)
  }

  /** One turn of the loop. */
  function Turn(lang: Language, text: string, i: nat, mode: Mode): Move
    requires i < |text|
  {
    var c := text[i];
    match mode
    case Quoted(quote) =>
      if c == '\\' && i + 1 < |text| then Move([c, text[i + 1]], i + 2, mode)
      else Copied(text, i, if c == quote then Outer(lang) else mode)
    case Comment =>
      if At(text, i, Closing(lang)) then Move(Spaces(|Closing(lang)|), i + |Closing(lang)|, Normal)
      else Move([if c == '\n' then '\n' else ' '], i + 1, mode)
    case Tag =>
      if c == '>' then Copied(text, i, Normal)
      else if c == '\'' || c == '"' then Copied(text, i, Quoted(c))
      else Copied(text, i, mode)
    case Normal =>
      if At(text, i, Opening(lang)) then Move(Spaces(|Opening(lang)|), i + |Opening(lang)|, Comment)
      else if lang == Css && (c == '\'' || c == '"') then Copied(text, i, Quoted(c))
      else if lang == Html && c == '<' then Copied(text, i, Tag)
      else Copied(text, i, mode)
  }

  /** Every character of `out` is the one that stands in its place from `i` on, or blank for it. */
  predicate Kept(text: string, i: nat, out: string) {
    i + |out| <= |text| && forall k :: 0 <= k < |out| ==> Same(out[k], text[i + k])
  }

  lemma KeptAppend(text: string, i: nat, a: string, b: string)
    requires Kept(text, i, a) && Kept(text, i + |a|, b)
    ensures Kept(text, i, a + b)
  {
    forall k | 0 <= k < |a + b|
      ensures Same((a + b)[k], text[i + k])
    {
      if k >= |a| {
        assert Same(b[k - |a|], text[i + |a| + (k - |a|)]);
      }
    }
  }

  lemma TurnFaithful(lang: Language, text: string, i: nat, mode: Mode)
    requires i < |text|
    ensures var m := Turn(lang, text, i, mode);
      i < m.next <= |text| && |m.out| == m.next - i && Kept(text, i, m.out)
  {
    WordsInLine(lang);
    if mode == Normal && At(text, i, Opening(lang)) {
      WordBlanked(text, i, Opening(lang));
    } else if mode == Comment && At(text, i, Closing(lang)) {
      WordBlanked(text, i, Closing(lang));
    }
  }

  lemma WordBlanked(text: string, i: nat, word: string)
    requires At(text, i, word) && forall k :: 0 <= k < |word| ==> word[k] != '\n'
    ensures forall k :: 0 <= k < |Spaces(|word|)| ==> Same(Spaces(|word|)[k], text[i + k])
  {
    Spelled(text, i, word);
    forall k | 0 <= k < |word|
      ensures Same(Spaces(|word|)[k], text[i + k])
    {
      assert text[i + k] == word[k] && word[k] != '\n';
    }
  }

  lemma WordsInLine(lang: Language)
    ensures forall k :: 0 <= k < |Opening(lang)| ==> Opening(lang)[k] != '\n'
    ensures forall k :: 0 <= k < |Closing(lang)| ==> Closing(lang)[k] != '\n'
  {
  }

  /** What the rest of the loop writes. */
  function Rest(lang: Language, text: string, i: nat, mode: Mode): string
    decreases |text| - i
  {
    if i >= |text| then ""
    else
      var m := Turn(lang, text, i, mode);
      TurnFaithful(lang, text, i, mode);
      m.out + Rest(lang, text, m.next, m.mode)
  }

  function Strip(lang: Language, text: string): string {
    Rest(lang, text, 0, Normal)
  }

  /** Nothing moves: every character of the rest stands where it stood, or is blanked. */
  lemma {:induction false} RestFaithful(lang: Language, text: string, i: nat, mode: Mode)
    requires i <= |text|
    ensures var out := Rest(lang, text, i, mode); |out| == |text| - i && Kept(text, i, out)
    decreases |text| - i
  {
    if i < |text| {
      var m := Turn(lang, text, i, mode);
      TurnFaithful(lang, text, i, mode);
      RestFaithful(lang, text, m.next, m.mode);
      KeptAppend(text, i, m.out, Rest(lang, text, m.next, m.mode));
    }
  }

  /** Length, positions and line numbers are kept. */
  lemma StripKeepsPlaces(lang: Language, text: string)
    ensures |Strip(lang, text)| == |text|
    ensures forall k :: 0 <= k < |text| ==> Same(Strip(lang, text)[k], text[k])
    ensures forall k :: 0 <= k <= |text| ==> Lines(Strip(lang, text), 0, k) == Lines(text, 0, k)
  {
    RestFaithful(lang, text, 0, Normal);
    var out := Strip(lang, text);
    assert forall k :: 0 <= k < |text| ==> Same(out[k], text[0 + k]);
    forall k | 0 <= k <= |text|
      ensures Lines(out, 0, k) == Lines(text, 0, k)
    {
      SameLines(out, text, k);
    }
  }

  lemma {:induction false} SameLines(out: string, text: string, k: nat)
    requires |out| == |text| && k <= |text| && forall j :: 0 <= j < |text| ==> Same(out[j], text[j])
    ensures Lines(out, 0, k) == Lines(text, 0, k)
  {
    if k > 0 {
      SameLines(out, text, k - 1);
    }
  }

  /** What follows a comment closed at `j`. */
  function AfterComment(lang: Language, text: string, j: nat): string {
    if j < |text| then Spaces(|Closing(lang)|) + Rest(lang, text, j + |Closing(lang)|, Normal) else ""
  }

  /** Inside a comment everything is blanked up to where it closes first, or to the end. */
  lemma {:induction false} CommentBlanked(lang: Language, text: string, i: nat)
    requires i <= |text|
    ensures var j := Close(text, i, Closing(lang));
      Rest(lang, text, i, Comment) == Blank(text, i, j) + AfterComment(lang, text, j)
    decreases |text| - i
  {
    var j := Close(text, i, Closing(lang));
    if i < |text| {
      if At(text, i, Closing(lang)) {
        CommentCloses(lang, text, i);
      } else {
        CommentBlanked(lang, text, i + 1);
        CommentGoesOn(lang, text, i);
        BlankStep(text, i, j);
        Assoc([if text[i] == '\n' then '\n' else ' '], Blank(text, i + 1, j), AfterComment(lang, text, j));
      }
    }
  }

  lemma CommentGoesOn(lang: Language, text: string, i: nat)
    requires i < |text| && !At(text, i, Closing(lang))
    ensures Rest(lang, text, i, Comment) == [if text[i] == '\n' then '\n' else ' '] + Rest(lang, text, i + 1, Comment)
  {
  }

  lemma CommentCloses(lang: Language, text: string, i: nat)
    requires i < |text| && At(text, i, Closing(lang))
    ensures Rest(lang, text, i, Comment) == Blank(text, i, i) + AfterComment(lang, text, i)
  {
    assert Blank(text, i, i) == "";
  }

  lemma QuotedStep(lang: Language, text: string, i: nat, quote: char)
    requires i < |text|
    ensures var k := if text[i] == '\\' && i + 1 < |text| then i + 2 else i + 1;
      var mode := if k == i + 1 && text[i] == quote then Outer(lang) else Quoted(quote);
      k <= |text| && Rest(lang, text, i, Quoted(quote)) == text[i..k] + Rest(lang, text, k, mode)
  {
    OneAndTwo(text, i);
  }

  /** Inside quotes everything is copied to their end. */
  lemma {:induction false} QuotedCopied(lang: Language, text: string, i: nat, quote: char)
    requires i <= |text| && quote != '\\'
    ensures var j := QuoteEnd(text, i, quote);
      Rest(lang, text, i, Quoted(quote)) == text[i..j] + Rest(lang, text, j, Outer(lang))
    decreases |text| - i
  {
    if i < |text| {
      var j := QuoteEnd(text, i, quote);
      QuotedStep(lang, text, i, quote);
      if text[i] == '\\' && i + 1 < |text| {
        QuotedCopied(lang, text, i + 2, quote);
        Front(text, i, i + 2, j, Rest(lang, text, j, Outer(lang)));
      } else if text[i] != quote {
        QuotedCopied(lang, text, i + 1, quote);
        Front(text, i, i + 1, j, Rest(lang, text, j, Outer(lang)));
      }
    } else {
      assert text[i..i] == "";
    }
  }

  /** The branches of the loop body. */
  method TakeTurn(lang: Language, text: string, i: nat, mode: Mode) returns (piece: string, next: nat, after: Mode)
    requires i < |text|
    ensures Move(piece, next, after) == Turn(lang, text, i, mode)
  {
    var c := text[i];
    piece, next, after := [c], i + 1, mode;
    if mode == Normal {
      if At(text, i, Opening(lang)) {
        return Spaces(|Opening(lang)|), i + |Opening(lang)|, Comment;
      } else if lang == Css && (c == '\'' || c == '"') {
        after := Quoted(c);
      } else if lang == Html && c == '<' {
        after := Tag;
      }
    } else if mode == Tag {
      if c == '>' {
        after := Normal;
      } else if c == '\'' || c == '"' {
        after := Quoted(c);
      }
    } else if mode == Comment {
      if At(text, i, Closing(lang)) {
        return Spaces(|Closing(lang)|), i + |Closing(lang)|, Normal;
      }
      piece := [if c == '\n' then '\n' else ' '];
    } else if c == '\\' && i + 1 < |text| {
      piece, next := [c, text[i + 1]], i + 2;
    } else if c == mode.quote {
      after := Outer(lang);
    }
  }

  /** `strip_comments` for `.css` and `.html`. */
  method StripText(lang: Language, text: string) returns (out: string)
    ensures out == Strip(lang, text)
  {
    out := "";
    var i, mode := 0, Normal;
    while i < |text|
      invariant 0 <= i <= |text| && out + Rest(lang, text, i, mode) == Strip(lang, text)
      decreases |text| - i
    {
      TurnFaithful(lang, text, i, mode);
      var piece, next, after := TakeTurn(lang, text, i, mode);
      Assoc(out, piece, Rest(lang, text, next, after));
      out, i, mode := out + piece, next, after;
    }
    assert out + "" == out;
  }
}
