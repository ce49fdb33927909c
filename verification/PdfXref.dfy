/** Writing a PDF file with its cross-reference table (sections 7.5.4 and 7.5.5 of ISO 32000-1), and reading an
    object back through that table. A byte is a character below 256. */
module PdfXref {
  import opened Sequences
  import opened Outcome
  import opened Folding
  import opened Decimals

  const HEADER := "%PDF-1.7\n%\U{e2}\U{e3}\U{cf}\U{d3}\n"
  const FREE := "0000000000 65535 f \n"
  const IN_USE := " 00000 n \n"
  const EOF := "\n%%EOF\n"
  const ENTRY := 20

  // ----- The file -----

  function Framed(n: nat, obj: string): string {
    Decimal(n) + " 0 obj\n" + obj + "\nendobj\n"
  }

  /** Everything before the table. */
  function Body(objects: seq<string>): string {
    if objects == [] then HEADER
    else Body(objects[..|objects| - 1]) + Framed(|objects|, objects[|objects| - 1])
  }

  function Zeros(n: nat): (s: string)
    ensures |s| == n && AllDigits(s)
  {
    if n == 0 then "" else Zeros(n - 1) + "0"
  }

  /** `f"{off:010d}"`: at least ten digits, and more when the number has more. */
  function Padded(off: nat): string {
    var digits := Decimal(off);
    if |digits| >= 10 then digits else Zeros(10 - |digits|) + digits
  }

  function Entry(off: nat): string {
    Padded(off) + IN_USE
  }

  function Entries(objects: seq<string>): string {
    if objects == [] then ""
    else
      var before := objects[..|objects| - 1];
      Entries(before) + Entry(|Body(before)|)
  }

  /** The texts that vary from file to file. */
  datatype Parts = Parts(body: string, count: string, entries: string, trailer: string, start: string)

  function Table(p: Parts): string {
    "xref\n0 " + p.count + "\n" + FREE + p.entries
  }

  function Tail(p: Parts): string {
    "trailer\n<< /Size " + p.count + " /Root 1 0 R" + p.trailer + " >>\n" + "startxref\n" + p.start + EOF
  }

  function Join(p: Parts): string {
    p.body + Table(p) + Tail(p)
  }

  function PartsOf(objects: seq<string>, trailer: string): Parts {
    Parts(Body(objects), Decimal(|objects| + 1), Entries(objects), trailer, Decimal(|Body(objects)|))
  }

  function File(objects: seq<string>, trailer: string): string {
    Join(PartsOf(objects, trailer))
  }

  /** `pdf`. */
  method WritePdf(objects: seq<string>, trailer: string) returns (b: string)
    ensures b == File(objects, trailer)
  {
    b := HEADER;
    var offsets: seq<nat> := [0];
    var n := 0;
    while n < |objects|
      invariant 0 <= n <= |objects| && |offsets| == n + 1
      invariant b == Body(objects[..n])
      invariant forall k :: 0 <= k < n ==> offsets[k + 1] == |Body(objects[..k])|
    {
      offsets := offsets + [|b|];
      assert objects[..n + 1][..n] == objects[..n];
      b := b + Framed(n + 1, objects[n]);
      n := n + 1;
    }
    assert objects[..n] == objects;
    var pos := |b|;
    var table := "xref\n0 " + Decimal(|offsets|) + "\n" + FREE;
    ghost var head := table;
    var i := 1;
    while i < |offsets|
      invariant 1 <= i <= |offsets|
      invariant table == head + Entries(objects[..i - 1])
    {
      assert objects[..i][..i - 1] == objects[..i - 1];
      assert offsets[(i - 1) + 1] == |Body(objects[..i - 1])|;
      Assoc(head, Entries(objects[..i - 1]), Entry(offsets[i]));
      table := table + Entry(offsets[i]);
      i := i + 1;
    }
    assert objects[..i - 1] == objects;
    b := b + table
      + ("trailer\n<< /Size " + Decimal(|offsets|) + " /Root 1 0 R" + trailer + " >>\n" +
         "startxref\n" + Decimal(pos) + EOF);
  }

  // ----- A reader -----

  /** The digits at the end of a text. */
  function DigitTail(s: string): (r: string)
    ensures AllDigits(r) && |r| <= |s|
  {
    if s == "" || !IsDigit(s[|s| - 1]) then "" else DigitTail(s[..|s| - 1]) + [s[|s| - 1]]
  }

  /** Where the digits that begin at `at` end. */
  function DigitEnd(s: string, at: nat): (end: nat)
    requires at <= |s|
    ensures at <= end <= |s| && forall i :: at <= i < end ==> IsDigit(s[i])
    decreases |s| - at
  {
    if at == |s| || !IsDigit(s[at]) then at else DigitEnd(s, at + 1)
  }

  /** The number between `startxref` and the end of the file. */
  function StartXref(file: string): Option<nat> {
    if !EndsWith(file, EOF) then None
    else
      var rest := file[..|file| - |EOF|];
      var digits := DigitTail(rest);
      if digits == "" || !EndsWith(rest[..|rest| - |digits|], "startxref\n") then None else Some(Parse(digits))
  }

  /** Where the entries of the table at `xref` begin, and how many it announces. */
  function TableAt(file: string, xref: nat): Option<(nat, nat)> {
    if xref + 7 > |file| || file[xref..xref + 7] != "xref\n0 " then None
    else
      var from := xref + 7;
      var end := DigitEnd(file, from);
      if end == from || end == |file| || file[end] != '\n' then None
      else
        assert AllDigits(file[from..end]);
        Some((end + 1, Parse(file[from..end])))
  }

  /** The offset in the entry at `at`. */
  function EntryIn(file: string, at: nat): Option<nat> {
    if at + ENTRY > |file| then None
    else
      var entry := file[at..at + ENTRY];
      if AllDigits(entry[..10]) && entry[10..] == IN_USE then Some(Parse(entry[..10])) else None
  }

  /** The offset in entry `i`: entries are found by counting twenty bytes for each. */
  function OffsetOf(file: string, i: nat): Option<nat> {
    var xref := StartXref(file);
    if xref.None? then None
    else
      var table := TableAt(file, xref.value);
      if table.None? || i >= table.value.1 then None
      else
        EntryIn(file, table.value.0 + ENTRY * i)
  }

  /** Object `i`, from its offset to the next one or to the table. */
  function ReadObject(file: string, i: nat): Option<string> {
    var from := OffsetOf(file, i);
    var to := if OffsetOf(file, i + 1).Some? then OffsetOf(file, i + 1) else StartXref(file);
    if from.None? || to.None? || !(from.value <= to.value <= |file|) then None
    else
      var text := file[from.value..to.value];
      var head := Decimal(i) + " 0 obj\n";
      if |text| < |head| + 8 || text[..|head|] != head || !EndsWith(text, "\nendobj\n") then None
      else Some(text[|head|..|text| - 8])
  }

  // ----- Numbers -----

  function Pow10(k: nat): (p: nat)
    ensures p > 0
  {
    if k == 0 then 1 else 10 * Pow10(k - 1)
  }

  lemma {:induction false} DecimalLength(n: nat, k: nat)
    requires k > 0
    ensures |Decimal(n)| <= k <==> n < Pow10(k)
  {
    if k == 1 {
      assert Pow10(1) == 10 * Pow10(0);
    } else if n >= 10 {
      DecimalLength(n / 10, k - 1);
    } else {
      PowGrows(k);
    }
  }

  lemma {:induction false} PowGrows(k: nat)
    requires k > 0
    ensures Pow10(k) >= 10
  {
    if k > 1 { PowGrows(k - 1); }
  }

  lemma {:induction false} ParseZeros(n: nat, s: string)
    requires AllDigits(s)
    ensures AllDigits(Zeros(n) + s) && Parse(Zeros(n) + s) == Parse(s)
  {
    if s == "" {
      assert Zeros(n) + s == Zeros(n);
      if n > 0 {
        ParseZeros(n - 1, "");
        assert Zeros(n - 1) + "" == Zeros(n - 1);
        assert Zeros(n)[..n - 1] == Zeros(n - 1);
      }
    } else {
      var init := s[..|s| - 1];
      ParseZeros(n, init);
      assert (Zeros(n) + s)[..n + |s| - 1] == Zeros(n) + init;
    }
  }

  /** A padded number keeps its value, and has ten digits exactly below ten thousand million. */
  lemma PaddedTen(off: nat)
    ensures AllDigits(Padded(off)) && Parse(Padded(off)) == off
    ensures |Padded(off)| == 10 <==> off < Pow10(10)
    ensures |Padded(off)| >= 10
  {
    ParseDecimal(off);
    DecimalLength(off, 10);
    if |Decimal(off)| < 10 {
      ParseZeros(10 - |Decimal(off)|, Decimal(off));
    }
  }

  // ----- Where things stand -----

  /** Every object begins at an offset of at most ten digits. */
  predicate Fits(objects: seq<string>) {
    objects != [] ==> |Body(objects[..|objects| - 1])| < Pow10(10)
  }

  lemma {:induction false} BodyPrefix(objects: seq<string>, k: nat)
    requires k <= |objects|
    ensures Body(objects[..k]) <= Body(objects)
  {
    if k == |objects| {
      assert objects[..k] == objects;
    } else {
      var before := objects[..|objects| - 1];
      BodyPrefix(before, k);
      assert before[..k] == objects[..k];
    }
  }

  lemma BodyNext(objects: seq<string>, k: nat)
    requires k < |objects|
    ensures Body(objects[..k + 1]) == Body(objects[..k]) + Framed(k + 1, objects[k])
  {
    assert objects[..k + 1][..k] == objects[..k];
  }

  /** Object `k + 1` stands between its offset and the next. */
  lemma ObjectStands(objects: seq<string>, k: nat)
    requires k < |objects|
    ensures |Body(objects[..k])| <= |Body(objects[..k + 1])| <= |Body(objects)|
    ensures Body(objects)[|Body(objects[..k])|..|Body(objects[..k + 1])|] == Framed(k + 1, objects[k])
  {
    BodyPrefix(objects, k + 1);
    BodyNext(objects, k);
    Middle(Body(objects[..k]), Framed(k + 1, objects[k]), Body(objects));
  }

  lemma Middle(a: string, b: string, s: string)
    requires a + b <= s
    ensures s[|a|..|a + b|] == b
  {
    assert s[..|a + b|] == a + b;
  }

  lemma {:induction false} OffsetsGrow(objects: seq<string>, k: nat)
    requires k < |objects|
    ensures |Body(objects[..k])| <= |Body(objects[..|objects| - 1])|
  {
    BodyPrefix(objects[..|objects| - 1], k);
    assert objects[..|objects| - 1][..k] == objects[..k];
  }

  /** The table has twenty bytes for each entry exactly when all offsets have ten digits. */
  lemma {:induction false} TableWidth(objects: seq<string>)
    ensures |Entries(objects)| >= ENTRY * |objects|
    ensures |Entries(objects)| == ENTRY * |objects| <==> Fits(objects)
  {
    if objects != [] {
      var before := objects[..|objects| - 1];
      TableWidth(before);
      PaddedTen(|Body(before)|);
      if before != [] {
        OffsetsGrow(objects, |before| - 1);
        assert objects[..|before| - 1] == before[..|before| - 1];
      }
    }
  }

  lemma EntryLast(objects: seq<string>)
    requires Fits(objects) && objects != []
    ensures var before := objects[..|objects| - 1];
      Fits(before) && |Entries(before)| == ENTRY * |before| && |Entry(|Body(before)|)| == ENTRY
  {
    var before := objects[..|objects| - 1];
    PaddedTen(|Body(before)|);
    if before != [] {
      assert before[..|before| - 1] == objects[..|before| - 1];
      OffsetsGrow(objects, |before| - 1);
    }
    TableWidth(before);
  }

  lemma {:induction false} EntryStands(objects: seq<string>, k: nat)
    requires Fits(objects) && k < |objects|
    ensures |Entries(objects)| == ENTRY * |objects|
    ensures Entries(objects)[ENTRY * k..ENTRY * k + ENTRY] == Entry(|Body(objects[..k])|)
  {
    var before := objects[..|objects| - 1];
    EntryLast(objects);
    if k < |before| {
      EntryStands(before, k);
      assert before[..k] == objects[..k];
      Within(Entries(before), Entry(|Body(before)|), ENTRY * k, ENTRY * k + ENTRY);
    } else {
      Middle(Entries(before), Entry(|Body(before)|), Entries(objects));
    }
  }

  lemma Within(a: string, b: string, i: nat, j: nat)
    requires i <= j <= |a|
    ensures (a + b)[i..j] == a[i..j]
  {
  }

  // ----- The reader on the file -----

  lemma {:induction false} TailDigits(front: string, digits: string)
    requires front != "" && !IsDigit(front[|front| - 1]) && AllDigits(digits)
    ensures DigitTail(front + digits) == digits
  {
    if digits == "" {
      assert front + digits == front;
    } else {
      var init := digits[..|digits| - 1];
      TailDigits(front, init);
      assert (front + digits)[..|front + digits| - 1] == front + init;
    }
  }

  lemma {:induction false} EndOfDigits(s: string, at: nat, end: nat)
    requires at <= end < |s| && !IsDigit(s[end])
    requires forall i :: at <= i < end ==> IsDigit(s[i])
    ensures DigitEnd(s, at) == end
    decreases end - at
  {
    if at < end {
      EndOfDigits(s, at + 1, end);
    }
  }

  // What a file joined from parts lets the reader find.

  predicate Proper(p: Parts) {
    AllDigits(p.count) && p.count != "" && AllDigits(p.start) && p.start != ""
  }

  lemma Append(a: string, b: string)
    ensures EndsWith(a + b, b) && (a + b)[..|a + b| - |b|] == a && (a + b)[|a|..] == b
  {
  }

  lemma StartRead(file: string, front: string, digits: string)
    requires file == front + "startxref\n" + digits + EOF && AllDigits(digits) && digits != ""
    ensures StartXref(file) == Some(Parse(digits))
  {
    Append(front + "startxref\n" + digits, EOF);
    Append(front + "startxref\n", digits);
    Append(front, "startxref\n");
    TailDigits(front + "startxref\n", digits);
  }

  lemma Regroup(a: string, b: string, c: string, d: string, e: string)
    ensures a + (b + c + d + e) == (a + b) + c + d + e
  {
  }

  lemma JoinStart(p: Parts)
    requires Proper(p)
    ensures StartXref(Join(p)) == Some(Parse(p.start))
  {
    var trailer := "trailer\n<< /Size " + p.count + " /Root 1 0 R" + p.trailer + " >>\n";
    Regroup(p.body + Table(p), trailer, "startxref\n", p.start, EOF);
    StartRead(Join(p), p.body + Table(p) + trailer, p.start);
  }

  lemma TableRead(file: string, x: nat, digits: string)
    requires x + 7 + |digits| < |file| && file[x..x + 7] == "xref\n0 "
    requires DigitEnd(file, x + 7) == x + 7 + |digits| && file[x + 7..x + 7 + |digits|] == digits
    requires digits != "" && file[x + 7 + |digits|] == '\n' && AllDigits(digits)
    ensures TableIs(file, x, x + 7 + |digits| + 1, Parse(digits))
  {
  }

  /** The line after `xref`, and where the entries begin. */
  ghost predicate Lined(file: string, x: nat, digits: string, rest: string) {
    forall k {:trigger Unfolded(k)} :: Unfolded(k) ==>
      && x + 7 + |digits| + 1 <= |file|
      && file[x..x + 7] == "xref\n0 "
      && file[x + 7..x + 7 + |digits|] == digits
      && file[x + 7 + |digits|] == '\n'
      && file[x + 7 + |digits| + 1..] == rest
  }

  lemma Second(a: string, b: string, c: string)
    ensures (a + (b + c))[|a|..|a| + |b|] == b
  {
  }

  lemma LinedUp(file: string, a: string, digits: string, rest: string)
    requires file == a + ("xref\n0 " + (digits + ("\n" + rest)))
    ensures Lined(file, |a|, digits, rest)
  {

    var word, newline := "xref\n0 ", "\n";
    Second(a, word, digits + (newline + rest));
    Assoc(a, word, digits + (newline + rest));
    Second(a + word, digits, newline + rest);
    Assoc(a + word, digits, newline + rest);
    Second(a + word + digits, newline, rest);
    Assoc(a + word + digits, newline, rest);
    Append(a + word + digits + newline, rest);
    var at := |a + word + digits|;
    assert file[at..at + 1][0] == '\n';
  }

  lemma DigitsIn(file: string, at: nat, digits: string)
    requires at + |digits| < |file| && file[at..at + |digits|] == digits && AllDigits(digits)
    requires file[at + |digits|] == '\n'
    ensures DigitEnd(file, at) == at + |digits|
  {
    forall i | at <= i < at + |digits|
      ensures IsDigit(file[i])
    {
      assert file[i] == file[at..at + |digits|][i - at];
    }
    EndOfDigits(file, at, at + |digits|);
  }

  lemma LinedDigits(file: string, x: nat, digits: string, rest: string)
    requires Lined(file, x, digits, rest) && AllDigits(digits)
    ensures x + 7 + |digits| < |file| && file[x..x + 7] == "xref\n0 " && file[x + 7..x + 7 + |digits|] == digits
    ensures file[x + 7 + |digits|] == '\n' && DigitEnd(file, x + 7) == x + 7 + |digits|
  {
    assert Unfolded(0);
    DigitsIn(file, x + 7, digits);
  }

  ghost predicate TableIs(file: string, x: nat, start: nat, count: nat) {
    forall k {:trigger Unfolded(k)} :: Unfolded(k) ==> TableAt(file, x) == Some((start, count))
  }

  lemma TableLine(file: string, x: nat, digits: string, rest: string)
    requires Lined(file, x, digits, rest) && AllDigits(digits) && digits != ""
    ensures TableIs(file, x, x + 7 + |digits| + 1, Parse(digits))
  {
    LinedDigits(file, x, digits, rest);
    TableRead(file, x, digits);
  }

  lemma Unnest(a: string, b: string, c: string, d: string, e: string, f: string, g: string)
    ensures a + (b + c + d + e + f) + g == a + (b + (c + (d + (e + f + g))))
  {
  }

  function FirstEntry(p: Parts): nat {
    |p.body| + 7 + |p.count| + 1
  }

  lemma JoinLined(p: Parts)
    ensures Lined(Join(p), |p.body|, p.count, FREE + p.entries + Tail(p))
  {
    Unnest(p.body, "xref\n0 ", p.count, "\n", FREE, p.entries, Tail(p));
    LinedUp(Join(p), p.body, p.count, FREE + p.entries + Tail(p));
  }

  lemma JoinTable(p: Parts)
    requires Proper(p)
    ensures TableIs(Join(p), |p.body|, FirstEntry(p), Parse(p.count))
  {
    JoinLined(p);
    TableLine(Join(p), |p.body|, p.count, FREE + p.entries + Tail(p));
  }

  lemma SliceOfDrop(s: string, start: nat, i: nat, j: nat)
    requires start <= |s| && i <= j <= |s| - start
    ensures s[start..][i..j] == s[start + i..start + j]
  {
  }

  /** The bytes of entry `i`, counted from the first. */
  lemma EntrySlice(file: string, x: nat, digits: string, free: string, entries: string, tail: string, i: nat)
    requires Lined(file, x, digits, free + entries + tail) && |free| == ENTRY
    requires 1 <= i && ENTRY * i <= |entries|
    ensures var at := x + 7 + |digits| + 1 + ENTRY * i;
      at + ENTRY <= |file| && file[at..at + ENTRY] == entries[ENTRY * (i - 1)..ENTRY * (i - 1) + ENTRY]
  {
    assert Unfolded(0);
    SliceOfDrop(file, x + 7 + |digits| + 1, ENTRY * i, ENTRY * i + ENTRY);
    Within(free + entries, tail, ENTRY * i, ENTRY * i + ENTRY);
    Append(free, entries);
    SliceOfDrop(free + entries, ENTRY, ENTRY * (i - 1), ENTRY * (i - 1) + ENTRY);
  }

  ghost predicate EntryAt(file: string, at: nat, off: nat) {
    forall k {:trigger Unfolded(k)} :: Unfolded(k) ==>
      at + ENTRY <= |file| && file[at..at + ENTRY] == Entry(off) && |Padded(off)| == 10
  }

  lemma EntryParses(off: nat)
    requires |Padded(off)| == 10
    ensures |Entry(off)| == ENTRY && Entry(off)[..10] == Padded(off) && Entry(off)[10..] == IN_USE
    ensures AllDigits(Entry(off)[..10]) && Parse(Entry(off)[..10]) == off
  {
    PaddedTen(off);
  }

  /** `startxref` leads to the table at `x`, whose entries begin with `rest`. */
  ghost predicate Leads(file: string, x: nat, digits: string, rest: string)
    requires AllDigits(digits)
  {
    forall k {:trigger Unfolded(k)} :: Unfolded(k) ==>
      && StartXref(file) == Some(x)
      && TableIs(file, x, x + 7 + |digits| + 1, Parse(digits))
      && Lined(file, x, digits, rest)
  }

  lemma JoinLeads(p: Parts)
    requires Proper(p) && Parse(p.start) == |p.body|
    ensures Leads(Join(p), |p.body|, p.count, FREE + p.entries + Tail(p))
  {
    JoinStart(p);
    JoinTable(p);
    JoinLined(p);
  }

  lemma LeadsEntry(file: string, x: nat, digits: string, free: string, entries: string, tail: string, i: nat, off: nat)
    requires AllDigits(digits) && Leads(file, x, digits, free + entries + tail) && 1 <= i
    requires |free| == ENTRY && ENTRY * i <= |entries| && |Padded(off)| == 10
    requires entries[ENTRY * (i - 1)..ENTRY * (i - 1) + ENTRY] == Entry(off)
    ensures EntryAt(file, x + 7 + |digits| + 1 + ENTRY * i, off)
  {
    assert Unfolded(0);
    EntrySlice(file, x, digits, free, entries, tail, i);
  }

  ghost predicate OffsetIs(file: string, i: nat, off: Option<nat>) {
    forall k {:trigger Unfolded(k)} :: Unfolded(k) ==> OffsetOf(file, i) == off
  }

  /** The table that `startxref` leads to has `count` entries from `from` on. */
  ghost predicate Announced(file: string, from: nat, count: nat) {
    forall k {:trigger Unfolded(k)} :: Unfolded(k) ==>
      StartXref(file).Some? && TableAt(file, StartXref(file).value) == Some((from, count))
  }

  ghost predicate EntryIs(file: string, at: nat, off: nat) {
    forall k {:trigger Unfolded(k)} :: Unfolded(k) ==> EntryIn(file, at) == Some(off)
  }

  lemma LeadsTable(file: string, x: nat, digits: string, rest: string)
    requires AllDigits(digits) && Leads(file, x, digits, rest)
    ensures Announced(file, x + 7 + |digits| + 1, Parse(digits))
  {
    assert Unfolded(0);
  }

  lemma EntryRead(file: string, at: nat, off: nat)
    requires EntryAt(file, at, off)
    ensures EntryIs(file, at, off)
  {
    assert Unfolded(0);
    EntryParses(off);
  }

  lemma OffsetSteps(file: string, i: nat, from: nat, count: nat, off: nat)
    requires Announced(file, from, count) && i < count && EntryIs(file, from + ENTRY * i, off)
    ensures OffsetIs(file, i, Some(off))
  {
    assert Unfolded(0);
  }

  lemma OffsetRead(file: string, from: nat, count: nat, i: nat, off: nat)
    requires Announced(file, from, count) && i < count && EntryAt(file, from + ENTRY * i, off)
    ensures OffsetIs(file, i, Some(off))
  {
    EntryRead(file, from + ENTRY * i, off);
    OffsetSteps(file, i, from, count, off);
  }

  lemma OffsetThrough(file: string, x: nat, digits: string, free: string, entries: string, tail: string, i: nat,
                      off: nat)
    requires AllDigits(digits) && Leads(file, x, digits, free + entries + tail) && 1 <= i < Parse(digits)
    requires |free| == ENTRY && ENTRY * i <= |entries| && |Padded(off)| == 10
    requires entries[ENTRY * (i - 1)..ENTRY * (i - 1) + ENTRY] == Entry(off)
    ensures OffsetIs(file, i, Some(off))
  {
    LeadsEntry(file, x, digits, free, entries, tail, i, off);
    LeadsTable(file, x, digits, free + entries + tail);
    OffsetRead(file, x + 7 + |digits| + 1, Parse(digits), i, off);
  }

  lemma NoneThrough(file: string, x: nat, digits: string, rest: string)
    requires AllDigits(digits) && Leads(file, x, digits, rest)
    ensures OffsetIs(file, Parse(digits), None)
  {
    LeadsTable(file, x, digits, rest);
    assert Unfolded(0);
  }

  lemma JoinBody(p: Parts, from: nat, to: nat)
    requires from <= to <= |p.body|
    ensures to <= |Join(p)| && Join(p)[from..to] == p.body[from..to]
  {
    Within(p.body + Table(p), Tail(p), from, to);
    Within(p.body, Table(p), from, to);
  }

  // And on the file itself.

  lemma PartsProper(objects: seq<string>, trailer: string)
    ensures var p := PartsOf(objects, trailer);
      Proper(p) && Parse(p.start) == |p.body| && Parse(p.count) == |objects| + 1
  {
    ParseDecimal(|objects| + 1);
    ParseDecimal(|Body(objects)|);
  }

  /** The number after `startxref` is the offset of the table. */
  lemma StartXrefFound(objects: seq<string>, trailer: string)
    ensures StartXref(File(objects, trailer)) == Some(|Body(objects)|)
  {
    PartsProper(objects, trailer);
    JoinStart(PartsOf(objects, trailer));
  }

  lemma OffsetWidth(objects: seq<string>, i: nat)
    requires Fits(objects) && 1 <= i <= |objects|
    ensures |Padded(|Body(objects[..i - 1])|)| == 10
  {
    OffsetsGrow(objects, i - 1);
    PaddedTen(|Body(objects[..i - 1])|);
  }

  lemma OffsetInParts(p: Parts, i: nat, off: nat)
    requires Proper(p) && Parse(p.start) == |p.body| && 1 <= i < Parse(p.count)
    requires ENTRY * i <= |p.entries| && |Padded(off)| == 10
    requires p.entries[ENTRY * (i - 1)..ENTRY * (i - 1) + ENTRY] == Entry(off)
    ensures OffsetIs(Join(p), i, Some(off))
  {
    JoinLeads(p);
    OffsetThrough(Join(p), |p.body|, p.count, FREE, p.entries, Tail(p), i, off);
  }

  lemma NoneInParts(p: Parts)
    requires Proper(p) && Parse(p.start) == |p.body|
    ensures OffsetIs(Join(p), Parse(p.count), None)
  {
    JoinLeads(p);
    NoneThrough(Join(p), |p.body|, p.count, FREE + p.entries + Tail(p));
  }

  lemma OffsetFolded(objects: seq<string>, trailer: string, i: nat)
    requires Fits(objects) && 1 <= i <= |objects|
    ensures OffsetIs(File(objects, trailer), i, Some(|Body(objects[..i - 1])|))
  {
    PartsProper(objects, trailer);
    EntryStands(objects, i - 1);
    OffsetWidth(objects, i);
    OffsetInParts(PartsOf(objects, trailer), i, |Body(objects[..i - 1])|);
  }

  lemma PastFolded(objects: seq<string>, trailer: string)
    ensures OffsetIs(File(objects, trailer), |objects| + 1, None)
  {
    PartsProper(objects, trailer);
    NoneInParts(PartsOf(objects, trailer));
  }

  /** What entry `i` should hold. */
  function OffsetWanted(objects: seq<string>, i: nat): Option<nat>
    requires 1 <= i
  {
    if i <= |objects| then Some(|Body(objects[..i - 1])|) else None
  }

  lemma OffsetSettled(objects: seq<string>, trailer: string, i: nat)
    requires Fits(objects) && 1 <= i <= |objects| + 1
    ensures OffsetIs(File(objects, trailer), i, OffsetWanted(objects, i))
  {
    if i <= |objects| {
      OffsetFolded(objects, trailer, i);
    } else {
      PastFolded(objects, trailer);
    }
  }

  lemma Unfold(file: string, i: nat, off: Option<nat>)
    requires OffsetIs(file, i, off)
    ensures OffsetOf(file, i) == off
  {
    assert Unfolded(0);
  }

  /** Entry `i` holds the offset of object `i`, and there is no entry past the last. */
  lemma OffsetFound(objects: seq<string>, trailer: string, i: nat)
    requires Fits(objects) && 1 <= i <= |objects| + 1
    ensures OffsetOf(File(objects, trailer), i) == if i <= |objects| then Some(|Body(objects[..i - 1])|) else None
  {
    OffsetSettled(objects, trailer, i);
    Unfold(File(objects, trailer), i, OffsetWanted(objects, i));
  }

  lemma FramedInside(n: nat, obj: string)
    ensures var head, text := Decimal(n) + " 0 obj\n", Framed(n, obj);
      && |text| >= |head| + 8 && text[..|head|] == head && EndsWith(text, "\nendobj\n")
      && text[|head|..|text| - 8] == obj
  {
  }

  lemma ObjectRead(file: string, i: nat, from: nat, to: nat, next: Option<nat>, obj: string)
    requires OffsetIs(file, i, Some(from)) && OffsetIs(file, i + 1, next)
    requires if next.Some? then next == Some(to) else StartXref(file) == Some(to)
    requires from <= to <= |file| && file[from..to] == Framed(i, obj)
    ensures ReadObject(file, i) == Some(obj)
  {
    Unfold(file, i, Some(from));
    Unfold(file, i + 1, next);
    FramedInside(i, obj);
  }

  /** Reading through the table gives every object back. */
  lemma ObjectFound(objects: seq<string>, trailer: string, i: nat)
    requires Fits(objects) && 1 <= i <= |objects|
    ensures ReadObject(File(objects, trailer), i) == Some(objects[i - 1])
  {
    var from, to := |Body(objects[..i - 1])|, |Body(objects[..i])|;
    OffsetFolded(objects, trailer, i);
    ObjectStands(objects, i - 1);
    JoinBody(PartsOf(objects, trailer), from, to);
    if i < |objects| {
      OffsetFolded(objects, trailer, i + 1);
      ObjectRead(File(objects, trailer), i, from, to, Some(to), objects[i - 1]);
    } else {
      PastFolded(objects, trailer);
      StartXrefFound(objects, trailer);
      assert objects[..i] == objects;
      ObjectRead(File(objects, trailer), i, from, to, None, objects[i - 1]);
    }
  }

  /** A file of fewer than ten thousand million bytes meets the condition. */
  lemma SmallFits(objects: seq<string>, trailer: string)
    requires |File(objects, trailer)| < Pow10(10)
    ensures Fits(objects)
  {
    if objects != [] {
      BodyPrefix(objects, |objects| - 1);
    }
  }
}
