/** The comment stripper for scripts. */
module StripScript {
  import opened Sequences
  import opened SourceLines

  /** Python's `isspace` and `isalnum` for one character. */
  datatype Unicode = Unicode(space: char -> bool, alnum: char -> bool)

  datatype Mode = Normal | LineComment | BlockComment | Quoted(quote: char) | Regex

  /** `state`, `last_token`, `control_paren_depth` and `in_control_stmt`. */
  datatype State = State(mode: Mode, last: string, depth: int, control: bool)

  const START := State(Normal, "", 0, false)

  /** What a turn writes, where each character of it comes from, and where it goes on. */
  datatype Turn = Turn(out: string, from: seq<nat>, next: nat, state: State)

  const OPERATORS := "=(:[{;,!&|?+-*^%~<>/"
  const BEFORE_REGEX := {"return", "case", "throw", "yield", "await", "typeof", "delete", "void", "in", "of", ")_ctrl"}
  const CONTROL := {"if", "while", "for", "with", "switch"}

  /** Python's `in` on strings. */
  predicate Inside(word: string, s: string) {
    exists k :: 0 <= k <= |s| - |word| && At(s, k, word)
  }

  predicate CanBeRegex(last: string) {
    last == "" || Inside(last, OPERATORS) || last in BEFORE_REGEX
  }

  predicate WordChar(u: Unicode, c: char) {
    u.alnum(c) || c == '_' || c == '$'
  }

  function NextToken(u: Unicode, last: string, c: char): string {
    if u.space(c) then last
    else if WordChar(u, c) && last != "" && WordChar(u, last[|last| - 1]) then last + [c]
    else [c]
  }

  function CopyOne(text: string, i: nat, s: State): Turn
    requires i < |text|
  {
    Turn([text[i]], [i], i + 1, s)
  }

  function CopyTwo(text: string, i: nat, s: State): Turn
    requires i + 1 < |text|
  {
    Turn([text[i], text[i + 1]], [i, i + 1], i + 2, s)
  }

  function BlankOne(text: string, i: nat, s: State): Turn
    requires i < |text|
  {
    Turn([if text[i] == '\n' then '\n' else ' '], [i], i + 1, s)
  }

  /** Where the class that opens before `j` closes: at a bracket no backslash stands before, or at the end. */
  function ClassEnd(text: string, j: nat): (e: nat)
    requires j <= |text|
    ensures j <= e <= |text|
    decreases |text| - j
  {
    if j == |text| || text[j] == ']' then j
    else if text[j] == '\\' && j + 1 < |text| then ClassEnd(text, j + 2)
    else ClassEnd(text, j + 1)
  }

  function Indices(i: nat, j: nat): (s: seq<nat>)
    requires i <= j
    ensures |s| == j - i && forall k :: 0 <= k < j - i ==> s[k] == i + k
  {
    seq(j - i, k requires 0 <= k < j - i => i + k)
  }

  /** A class is copied to its end, its opening bracket twice. */
  function CopyClass(text: string, i: nat, s: State): Turn
    requires i < |text|
  {
    var e := ClassEnd(text, i + 1);
    var end := if e < |text| then e + 1 else e;
    Turn([text[i]] + text[i..end], [i] + Indices(i, end), end, s)
  }

  function NormalTurn(u: Unicode, text: string, i: nat, s: State): Turn
    requires i < |text|
  {
    var c := text[i];
    if At(text, i, "//") then Turn("  ", [i, i + 1], i + 2, s.(mode := LineComment))
    else if At(text, i, "/*") then Turn("  ", [i, i + 1], i + 2, s.(mode := BlockComment))
    else if c == '\'' || c == '"' || c == '`' then CopyOne(text, i, s.(mode := Quoted(c)))
    else if c == '(' then
      if s.last in CONTROL then CopyOne(text, i, s.(control := true, depth := 1, last := "("))
      else if s.control then CopyOne(text, i, s.(depth := s.depth + 1, last := "("))
      else CopyOne(text, i, s.(last := "("))
    else if c == ')' then
      if s.control && s.depth == 1 then CopyOne(text, i, s.(depth := 0, control := false, last := ")_ctrl"))
      else if s.control then CopyOne(text, i, s.(depth := s.depth - 1, last := ")"))
      else CopyOne(text, i, s.(last := ")"))
    else if c == '/' then
      if CanBeRegex(s.last) then CopyOne(text, i, s.(mode := Regex)) else CopyOne(text, i, s.(last := "/"))
    else CopyOne(text, i, s.(last := NextToken(u, s.last, c)))
  }

  /** One turn of the loop. At the end of a block comment the index moves on by three. */
  function TurnAt(u: Unicode, text: string, i: nat, s: State): Turn
    requires i < |text|
  {
    var c := text[i];
    match s.mode
    case Normal => NormalTurn(u, text, i, s)
    case LineComment => BlankOne(text, i, if c == '\n' then s.(mode := Normal) else s)
    case BlockComment =>
      if At(text, i, "*/") then Turn("  ", [i, i + 1], i + 3, s.(mode := Normal)) else BlankOne(text, i, s)
    case Quoted(quote) =>
      if c == '\\' && i + 1 < |text| then CopyTwo(text, i, s)
      else CopyOne(text, i, if c == quote then s.(mode := Normal, last := [quote]) else s)
    case Regex =>
      if c == '\\' && i + 1 < |text| then CopyTwo(text, i, s)
      else if c == '[' then CopyClass(text, i, s)
      else CopyOne(text, i, if c == '/' then s.(mode := Normal, last := "/") else s)
  }

  /** The character after the end of a block comment is passed over. */
  predicate Drops(text: string, i: nat, s: State) {
    s.mode == BlockComment && At(text, i, "*/") && i + 2 < |text|
  }

  predicate DropsLine(text: string, i: nat, s: State) {
    Drops(text, i, s) && text[i + 2] == '\n'
  }

  function Min(a: nat, b: nat): nat {
    if a < b then a else b
  }

  // ----- One turn and its lines -----

  /** The character written at `k` is one of those passed, or blank for one, and stands in its line. */
  ghost predicate InPlace(text: string, i: nat, t: Turn, k: nat)
    requires i <= |text| && k < |t.out| == |t.from|
  {
    && i <= t.from[k] < Min(t.next, |text|) && Same(t.out[k], text[t.from[k]])
    && Lines(t.out, 0, k) == Lines(text, i, t.from[k])
  }

  /** So is each, and all line ends passed are written, but for `lost` of them. */
  ghost predicate Sound(text: string, i: nat, t: Turn, lost: nat) {
    && i < t.next && i <= |text| && |t.from| == |t.out|
    && (forall k {:trigger InPlace(text, i, t, k)} :: 0 <= k < |t.out| ==> InPlace(text, i, t, k))
    && Lines(t.out, 0, |t.out|) + lost == Lines(text, i, Min(t.next, |text|))
  }

  lemma OneSound(text: string, i: nat, t: Turn)
    requires i < |text| && |t.out| == 1 && t.from == [i] && t.next == i + 1
    requires Same(t.out[0], text[i]) && (t.out[0] == '\n' <==> text[i] == '\n')
    ensures Sound(text, i, t, 0)
  {
    assert Lines(text, i, i + 1) == if text[i] == '\n' then 1 else 0;
  }

  lemma TwoSound(text: string, i: nat, t: Turn)
    requires i + 1 < |text| && |t.out| == 2 && t.from == [i, i + 1] && t.next == i + 2
    requires text[i] != '\n' && t.out[0] != '\n' && Same(t.out[0], text[i])
    requires Same(t.out[1], text[i + 1]) && (t.out[1] == '\n' <==> text[i + 1] == '\n')
    ensures Sound(text, i, t, 0)
  {
    assert Lines(text, i, i + 1) == 0;
    assert Lines(t.out, 0, 1) == 0;
  }

  lemma CloseSound(text: string, i: nat, s: State)
    requires At(text, i, "*/")
    ensures Sound(text, i, Turn("  ", [i, i + 1], i + 3, s), if i + 2 < |text| && text[i + 2] == '\n' then 1 else 0)
  {
    Spelled(text, i, "*/");
    assert text[i + 0] == '*' && text[i + 1] == '/';
    assert Lines(text, i, i + 1) == 0 && Lines(text, i, i + 2) == 0;
    var t := Turn("  ", [i, i + 1], i + 3, s);
    assert Lines(t.out, 0, 1) == 0;
  }

  lemma ClassLines(text: string, i: nat, end: nat, k: nat)
    requires i < end <= |text| && text[i] != '\n' && k <= end - i
    ensures Lines([text[i]] + text[i..end], 0, 1 + k) == Lines(text, i, i + k)
  {
    assert Lines([text[i]], 0, 1) == 0;
    LinesAppend([text[i]], text[i..end], k);
    LinesShifted(text[i..end], text, i, k);
  }

  lemma ClassAt(text: string, i: nat, s: State, k: nat)
    requires i < |text| && text[i] == '[' && k < |CopyClass(text, i, s).out|
    ensures InPlace(text, i, CopyClass(text, i, s), k)
  {
    var t := CopyClass(text, i, s);
    if k > 0 {
      assert t.out[k] == text[i..t.next][k - 1];
      ClassLines(text, i, t.next, k - 1);
    }
  }

  lemma ClassSound(text: string, i: nat, s: State)
    requires i < |text| && text[i] == '['
    ensures Sound(text, i, CopyClass(text, i, s), 0)
  {
    var t := CopyClass(text, i, s);
    forall k | 0 <= k < |t.out|
      ensures InPlace(text, i, t, k)
    {
      ClassAt(text, i, s, k);
    }
    ClassLines(text, i, t.next, t.next - i);
  }

  lemma OpenSound(text: string, i: nat, word: string, s: State)
    requires At(text, i, word) && (word == "//" || word == "/*")
    ensures Sound(text, i, Turn("  ", [i, i + 1], i + 2, s), 0)
  {
    Spelled(text, i, word);
    assert text[i + 0] == '/' && text[i + 1] == word[1];
    TwoSound(text, i, Turn("  ", [i, i + 1], i + 2, s));
  }

  lemma NormalSound(u: Unicode, text: string, i: nat, s: State)
    requires i < |text|
    ensures Sound(text, i, NormalTurn(u, text, i, s), 0)
  {
    var t := NormalTurn(u, text, i, s);
    if At(text, i, "//") {
      OpenSound(text, i, "//", t.state);
    } else if At(text, i, "/*") {
      OpenSound(text, i, "/*", t.state);
    } else {
      OneSound(text, i, t);
    }
  }

  lemma TurnSound(u: Unicode, text: string, i: nat, s: State)
    requires i < |text|
    ensures Sound(text, i, TurnAt(u, text, i, s), if DropsLine(text, i, s) then 1 else 0)
  {
    var t := TurnAt(u, text, i, s);
    match s.mode
    case Normal => NormalSound(u, text, i, s);
    case LineComment => OneSound(text, i, t);
    case BlockComment => if At(text, i, "*/") { CloseSound(text, i, t.state); } else { OneSound(text, i, t); }
    case Quoted(_) => if text[i] == '\\' && i + 1 < |text| { TwoSound(text, i, t); } else { OneSound(text, i, t); }
    case Regex =>
      if text[i] == '\\' && i + 1 < |text| { TwoSound(text, i, t); }
      else if text[i] == '[' { ClassSound(text, i, s); }
      else { OneSound(text, i, t); }
  }

  // ----- The whole text -----

  /** What the rest of the loop writes. */
  function Rest(u: Unicode, text: string, i: nat, s: State): string
    decreases |text| - i
  {
    if i >= |text| then ""
    else
      var t := TurnAt(u, text, i, s);
      t.out + Rest(u, text, t.next, t.state)
  }

  /** Where it comes from. */
  function Origins(u: Unicode, text: string, i: nat, s: State): seq<nat>
    decreases |text| - i
  {
    if i >= |text| then []
    else
      var t := TurnAt(u, text, i, s);
      t.from + Origins(u, text, t.next, t.state)
  }

  /** How many line ends it passes over. */
  function Lost(u: Unicode, text: string, i: nat, s: State): nat
    decreases |text| - i
  {
    if i >= |text| then 0
    else
      var t := TurnAt(u, text, i, s);
      (if DropsLine(text, i, s) then 1 else 0) + Lost(u, text, t.next, t.state)
  }

  function Strip(u: Unicode, text: string): string {
    Rest(u, text, 0, START)
  }

  lemma TurnLines(u: Unicode, text: string, i: nat, s: State)
    requires i < |text|
    ensures var t := TurnAt(u, text, i, s);
      && i < t.next
      && Lines(t.out, 0, |t.out|) + (if DropsLine(text, i, s) then 1 else 0) == Lines(text, i, Min(t.next, |text|))
  {
    TurnSound(u, text, i, s);
  }

  lemma JoinLines(text: string, i: nat, next: nat, out: string, rest: string, lost: nat, more: nat)
    requires i < next && i <= |text|
    requires Lines(out, 0, |out|) + lost == Lines(text, i, Min(next, |text|))
    requires if next <= |text| then Lines(rest, 0, |rest|) + more == Lines(text, next, |text|)
             else rest == "" && more == 0
    ensures Lines(out + rest, 0, |out + rest|) + (lost + more) == Lines(text, i, |text|)
  {
    LinesAppend(out, rest, |rest|);
    if next <= |text| {
      LinesSplit(text, i, next, |text|);
    }
  }

  /** Line ends are written or lost. */
  lemma {:induction false} RestLines(u: Unicode, text: string, i: nat, s: State)
    requires i <= |text|
    ensures Lines(Rest(u, text, i, s), 0, |Rest(u, text, i, s)|) + Lost(u, text, i, s) == Lines(text, i, |text|)
    decreases |text| - i
  {
    if i < |text| {
      var t := TurnAt(u, text, i, s);
      TurnLines(u, text, i, s);
      if t.next <= |text| {
        RestLines(u, text, t.next, t.state);
      }
      JoinLines(text, i, t.next, t.out, Rest(u, text, t.next, t.state),
        if DropsLine(text, i, s) then 1 else 0, Lost(u, text, t.next, t.state));
    }
  }

  /** Each character of the rest stands in the line it comes from. */
  ghost predicate Placed(text: string, i: nat, out: string, from: seq<nat>) {
    && |from| == |out|
    && forall k :: 0 <= k < |out| ==>
         i <= from[k] < |text| && Same(out[k], text[from[k]])
         && Lines(out, 0, k) == Lines(text, i, from[k])
  }

  lemma PlacedAppend(text: string, i: nat, t: Turn, out: string, from: seq<nat>, lost: nat)
    requires Sound(text, i, t, lost) && t.next <= |text| && Placed(text, t.next, out, from) && lost == 0
    ensures Placed(text, i, t.out + out, t.from + from)
  {
    var all, origins := t.out + out, t.from + from;
    forall k | 0 <= k < |all|
      ensures i <= origins[k] < |text| && Same(all[k], text[origins[k]])
      ensures Lines(all, 0, k) == Lines(text, i, origins[k])
    {
      if k < |t.out| {
        assert InPlace(text, i, t, k);
        LinesPrefix(t.out, out, k);
      } else {
        var j := k - |t.out|;
        LinesAppend(t.out, out, j);
        LinesSplit(text, i, t.next, from[j]);
      }
    }
  }

  lemma LastPlaced(text: string, i: nat, t: Turn)
    requires Sound(text, i, t, 0)
    ensures Placed(text, i, t.out + "", t.from + [])
  {
    assert t.out + "" == t.out && t.from + [] == t.from;
    forall k | 0 <= k < |t.out|
      ensures i <= t.from[k] < |text| && Same(t.out[k], text[t.from[k]])
      ensures Lines(t.out, 0, k) == Lines(text, i, t.from[k])
    {
      assert InPlace(text, i, t, k);
    }
  }

  /** If no line end is lost, each character of the output stands in the line it comes from. */
  lemma {:induction false} RestPlaced(u: Unicode, text: string, i: nat, s: State)
    requires i <= |text| && Lost(u, text, i, s) == 0
    ensures Placed(text, i, Rest(u, text, i, s), Origins(u, text, i, s))
    decreases |text| - i
  {
    if i < |text| {
      var t := TurnAt(u, text, i, s);
      TurnSound(u, text, i, s);
      if t.next <= |text| {
        RestPlaced(u, text, t.next, t.state);
        PlacedAppend(text, i, t, Rest(u, text, t.next, t.state), Origins(u, text, t.next, t.state), 0);
      } else {
        LastPlaced(text, i, t);
      }
    }
  }

  /** A closing with a line end behind it. */
  const CLOSED_LINE := "*/\n"

  lemma DropsSpelled(text: string, i: nat, s: State)
    requires DropsLine(text, i, s)
    ensures Inside(CLOSED_LINE, text)
  {
    assert text[i..i + 3] == text[i..i + 2] + [text[i + 2]];
    assert At(text, i, CLOSED_LINE);
  }

  lemma {:induction false} NoneLost(u: Unicode, text: string, i: nat, s: State)
    requires !Inside(CLOSED_LINE, text)
    ensures Lost(u, text, i, s) == 0
    decreases |text| - i
  {
    if i < |text| {
      var t := TurnAt(u, text, i, s);
      NoneLost(u, text, t.next, t.state);
      if DropsLine(text, i, s) {
        DropsSpelled(text, i, s);
      }
    }
  }

  /** The output has the lines of the text exactly when no block comment that the lexer closes is followed at once by a
      line end, as in every text without a closing before a line end; and then each character stands in the line it
      comes from. */
  lemma LinesKeptExactly(u: Unicode, text: string)
    ensures var out := Strip(u, text); Lines(out, 0, |out|) == Lines(text, 0, |text|) <==> Lost(u, text, 0, START) == 0
    ensures !Inside(CLOSED_LINE, text) ==> Lost(u, text, 0, START) == 0
    ensures Lost(u, text, 0, START) == 0 ==> Placed(text, 0, Strip(u, text), Origins(u, text, 0, START))
  {
    RestLines(u, text, 0, START);
    if !Inside(CLOSED_LINE, text) {
      NoneLost(u, text, 0, START);
    }
    if Lost(u, text, 0, START) == 0 {
      RestPlaced(u, text, 0, START);
    }
  }

  /** A comment whose first closing ends its line loses the line end. */
  lemma {:induction false} CommentLoses(u: Unicode, text: string, i: nat, s: State)
    requires i <= |text| && s.mode == BlockComment && At(text, Close(text, i, "*/"), CLOSED_LINE)
    ensures Lost(u, text, i, s) >= 1
    decreases |text| - i
  {
    if At(text, i, "*/") {
      Spelled(text, i, CLOSED_LINE);
    } else if i < |text| {
      CommentLoses(u, text, i + 1, s);
    }
  }

  /** A text that opens with such a comment comes out with fewer lines. */
  lemma LineLost(u: Unicode, text: string)
    requires At(text, 0, "/*") && At(text, Close(text, 2, "*/"), CLOSED_LINE)
    ensures var out := Strip(u, text); Lines(out, 0, |out|) < Lines(text, 0, |text|)
  {
    assert !At(text, 0, "//") by {
      assert text[0..2][1] == '*';
    }
    assert TurnAt(u, text, 0, START) == Turn("  ", [0, 1], 2, START.(mode := BlockComment));
    CommentLoses(u, text, 2, START.(mode := BlockComment));
    RestLines(u, text, 0, START);
  }

  // ----- What is stripped and what is kept -----

  /** What follows a comment closed at `j`: the character after it is gone. */
  function AfterComment(u: Unicode, text: string, j: nat, s: State): string {
    if j < |text| then "  " + Rest(u, text, j + 3, s.(mode := Normal)) else ""
  }

  lemma CommentTurn(u: Unicode, text: string, i: nat, s: State)
    requires i < |text| && s.mode == BlockComment
    ensures At(text, i, "*/") ==> Rest(u, text, i, s) == "  " + Rest(u, text, i + 3, s.(mode := Normal))
    ensures !At(text, i, "*/") ==>
      Rest(u, text, i, s) == [if text[i] == '\n' then '\n' else ' '] + Rest(u, text, i + 1, s)
  {
  }

  /** Inside a block comment everything is blanked up to where it closes first, or to the end. */
  lemma {:induction false} CommentBlanked(u: Unicode, text: string, i: nat, s: State)
    requires i <= |text| && s.mode == BlockComment
    ensures var j := Close(text, i, "*/"); Rest(u, text, i, s) == Blank(text, i, j) + AfterComment(u, text, j, s)
    decreases |text| - i
  {
    var j := Close(text, i, "*/");
    if i == |text| {
      assert Blank(text, i, i) == "";
    } else {
      CommentTurn(u, text, i, s);
      if At(text, i, "*/") {
        assert Blank(text, i, i) == "";
      } else {
        CommentBlanked(u, text, i + 1, s);
        BlankStep(text, i, j);
        Assoc([if text[i] == '\n' then '\n' else ' '], Blank(text, i + 1, j), AfterComment(u, text, j, s));
      }
    }
  }

  lemma QuotedTurn(u: Unicode, text: string, i: nat, s: State)
    requires i < |text| && s.mode.Quoted?
    ensures var k := if text[i] == '\\' && i + 1 < |text| then i + 2 else i + 1;
      var after := if k == i + 1 && text[i] == s.mode.quote then s.(mode := Normal, last := [s.mode.quote]) else s;
      k <= |text| && Rest(u, text, i, s) == text[i..k] + Rest(u, text, k, after)
  {
    OneAndTwo(text, i);
  }

  /** Strings and templates are copied to their end, comment signs and all. */
  lemma {:induction false} QuotedCopied(u: Unicode, text: string, i: nat, s: State)
    requires i <= |text| && s.mode.Quoted? && s.mode.quote != '\\'
    ensures var j := QuoteEnd(text, i, s.mode.quote);
      Rest(u, text, i, s) == text[i..j] + Rest(u, text, j, s.(mode := Normal, last := [s.mode.quote]))
    decreases |text| - i
  {
    if i == |text| {
      assert text[i..i] == "";
    } else {
      var quote := s.mode.quote;
      var j := QuoteEnd(text, i, quote);
      var rest := Rest(u, text, j, s.(mode := Normal, last := [quote]));
      QuotedTurn(u, text, i, s);
      if text[i] == '\\' && i + 1 < |text| {
        QuotedCopied(u, text, i + 2, s);
        Front(text, i, i + 2, j, rest);
      } else if text[i] != quote {
        QuotedCopied(u, text, i + 1, s);
        Front(text, i, i + 1, j, rest);
      }
    }
  }

  // ----- Length -----

  predicate Doubles(text: string, i: nat, s: State)
    requires i < |text|
  {
    s.mode == Regex && text[i] == '['
  }

  /** Characters passed over after block comments. */
  function Dropped(u: Unicode, text: string, i: nat, s: State): nat
    decreases |text| - i
  {
    if i >= |text| then 0
    else
      var t := TurnAt(u, text, i, s);
      (if Drops(text, i, s) then 1 else 0) + Dropped(u, text, t.next, t.state)
  }

  /** Brackets written twice. */
  function Doubled(u: Unicode, text: string, i: nat, s: State): nat
    decreases |text| - i
  {
    if i >= |text| then 0
    else
      var t := TurnAt(u, text, i, s);
      (if Doubles(text, i, s) then 1 else 0) + Doubled(u, text, t.next, t.state)
  }

  lemma TurnLength(u: Unicode, text: string, i: nat, s: State)
    requires i < |text|
    ensures var t := TurnAt(u, text, i, s);
      && i < t.next
      && |t.out| + (if Drops(text, i, s) then 1 else 0) ==
         Min(t.next, |text|) - i + (if Doubles(text, i, s) then 1 else 0)
  {
  }

  /** The length differs by exactly these. */
  lemma {:induction false} LengthExactly(u: Unicode, text: string, i: nat, s: State)
    requires i <= |text|
    ensures |Rest(u, text, i, s)| + Dropped(u, text, i, s) == |text| - i + Doubled(u, text, i, s)
    decreases |text| - i
  {
    if i < |text| {
      var t := TurnAt(u, text, i, s);
      TurnLength(u, text, i, s);
      if t.next <= |text| {
        LengthExactly(u, text, t.next, t.state);
      }
    }
  }

  // ----- The loop -----

  /** The inner loop over a class; `out` begins with its bracket, twice. */
  method ReadClass(text: string, i: nat) returns (out: string, next: nat)
    requires i < |text|
    ensures var e := ClassEnd(text, i + 1); next == if e < |text| then e + 1 else e
    ensures out == [text[i]] + text[i..next]
  {
    out := [text[i], text[i]];
    next := i + 1;
    OneAndTwo(text, i);
    while next < |text| && text[next] != ']'
      invariant i < next <= |text| && out == [text[i]] + text[i..next]
      invariant ClassEnd(text, next) == ClassEnd(text, i + 1)
      decreases |text| - next
    {
      OneAndTwo(text, next);
      if text[next] == '\\' && next + 1 < |text| {
        Extend(text, i, next, next + 2);
        out := out + text[next..next + 2];
        next := next + 2;
      } else {
        Extend(text, i, next, next + 1);
        out := out + [text[next]];
        next := next + 1;
      }
    }
    if next < |text| {
      OneAndTwo(text, next);
      Extend(text, i, next, next + 1);
      out := out + [text[next]];
      next := next + 1;
    }
  }

  lemma Extend(text: string, i: nat, j: nat, k: nat)
    requires i < j <= k <= |text|
    ensures [text[i]] + text[i..j] + text[j..k] == [text[i]] + text[i..k]
  {
  }

  /** What the loop body does in the normal state. */
  method TakeNormal(u: Unicode, text: string, i: nat, s: State) returns (out: string, next: nat, after: State)
    requires i < |text|
    ensures var t := NormalTurn(u, text, i, s); out == t.out && next == t.next && after == t.state
  {
    var c := text[i];
    out, next, after := [c], i + 1, s;
    if At(text, i, "//") {
      return "  ", i + 2, s.(mode := LineComment);
    } else if At(text, i, "/*") {
      return "  ", i + 2, s.(mode := BlockComment);
    } else if c in {'\'', '"', '`'} {
      after := s.(mode := Quoted(c));
    } else if c == '(' {
      if s.last in CONTROL {
        after := s.(control := true, depth := 1);
      } else if s.control {
        after := s.(depth := s.depth + 1);
      }
      after := after.(last := "(");
    } else if c == ')' {
      if s.control {
        after := s.(depth := s.depth - 1);
        if after.depth == 0 {
          after := after.(control := false, last := ")_ctrl");
          return;
        }
      }
      after := after.(last := ")");
    } else if c == '/' {
      after := if CanBeRegex(s.last) then s.(mode := Regex) else s.(last := "/");
    } else if !u.space(c) {
      if WordChar(u, c) && s.last != "" && WordChar(u, s.last[|s.last| - 1]) {
        after := s.(last := s.last + [c]);
      } else {
        after := s.(last := [c]);
      }
    }
  }

  /** The loop body. */
  method TakeTurn(u: Unicode, text: string, i: nat, s: State) returns (out: string, next: nat, after: State)
    requires i < |text|
    ensures var t := TurnAt(u, text, i, s); out == t.out && next == t.next && after == t.state
  {
    var c := text[i];
    out, next, after := [c], i + 1, s;
    if s.mode == Normal {
      out, next, after := TakeNormal(u, text, i, s);
    } else if s.mode == LineComment {
      if c == '\n' {
        after := s.(mode := Normal);
      } else {
        out := " ";
      }
    } else if s.mode == BlockComment {
      if At(text, i, "*/") {
        out := "  ";
        next := i + 2;
        after := s.(mode := Normal);
        next := next + 1;
      } else {
        out := [if c == '\n' then '\n' else ' '];
      }
    } else if c == '\\' && i + 1 < |text| {
      out, next := [c, text[i + 1]], i + 2;
    } else if s.mode == Regex {
      if c == '[' {
        out, next := ReadClass(text, i);
      } else if c == '/' {
        after := s.(mode := Normal, last := "/");
      }
    } else if c == s.mode.quote {
      after := s.(mode := Normal, last := [c]);
    }
  }

  /** `strip_comments` for `.ts`, `.tsx`, `.js` and `.mjs`. */
  method StripText(u: Unicode, text: string) returns (out: string)
    ensures out == Strip(u, text)
  {
    out := "";
    var i, s := 0, START;
    while i < |text|
      invariant out + Rest(u, text, i, s) == Strip(u, text)
      decreases |text| - i
    {
      TurnLength(u, text, i, s);
      var piece, next, after := TakeTurn(u, text, i, s);
      Assoc(out, piece, Rest(u, text, next, after));
      out, i, s := out + piece, next, after;
    }
    assert out + "" == out;
  }
}
