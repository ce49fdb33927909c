/** The RunLength filter: the encoder, and decoding by section 7.4.5 of ISO 32000-1. */
module RunLength {
  import opened Sequences
  import opened Outcome
  import opened Bytes

  /** Marks the end of the data. */
  const EOD: Byte := 128

  function Repeated(b: Byte, n: nat): seq<Byte> {
    seq(n, _ => b)
  }

  /** Decoding as the standard has it: a length byte below 128 announces one literal byte more than it
      says, one above 128 a byte to be repeated 257 minus it times, and 128 ends the data. Nothing is
      decoded from data that stops early. */
  function Decode(s: seq<Byte>): Option<seq<Byte>> {
    if s == [] then None
    else if s[0] == EOD then Some([])
    else if s[0] < EOD then
      if |s| < s[0] + 2 then None else After(s[1..s[0] + 2], Decode(s[s[0] + 2..]))
    else if |s| < 2 then None
    else After(Repeated(s[1], 257 - s[0]), Decode(s[2..]))
  }

  function After(text: seq<Byte>, rest: Option<seq<Byte>>): Option<seq<Byte>> {
    if rest.None? then None else Some(text + rest.value)
  }

  /** The length of the block that starts here. */
  function Size(s: seq<Byte>): nat
    requires s != []
  {
    if s[0] < EOD then s[0] + 2 else 2
  }

  /** A whole block stands here: literals of 1 to 128 bytes, or a repeat of 3 to 127. */
  predicate Starts(s: seq<Byte>) {
    s != [] && (s[0] < EOD || 130 <= s[0] <= 254) && |s| >= Size(s)
  }

  function Piece(s: seq<Byte>): seq<Byte>
    requires Starts(s)
  {
    if s[0] < EOD then s[1..Size(s)] else Repeated(s[1], 257 - s[0])
  }

  /** Whole blocks only, without an end mark. */
  predicate Blocks(s: seq<Byte>) {
    s == [] || (Starts(s) && Blocks(s[Size(s)..]))
  }

  /** What whole blocks stand for. */
  function Text(s: seq<Byte>): seq<Byte>
    requires Blocks(s)
  {
    if s == [] then [] else Piece(s) + Text(s[Size(s)..])
  }

  lemma StartsAppend(a: seq<Byte>, b: seq<Byte>)
    requires Starts(a)
    ensures Starts(a + b) && Size(a + b) == Size(a) && Piece(a + b) == Piece(a)
    ensures (a + b)[Size(a)..] == a[Size(a)..] + b
  {
    assert a[0] < EOD ==> (a + b)[1..Size(a)] == a[1..Size(a)];
  }

  lemma {:induction false} BlocksAppend(a: seq<Byte>, b: seq<Byte>)
    requires Blocks(a) && Blocks(b)
    ensures Blocks(a + b) && Text(a + b) == Text(a) + Text(b)
  {
    if a == [] {
      assert a + b == b;
    } else {
      BlocksAppend(a[Size(a)..], b);
      StartsAppend(a, b);
      Assoc(Piece(a), Text(a[Size(a)..]), Text(b));
    }
  }

  /** The end mark after whole blocks ends the data there, and it is the only one. */
  lemma {:induction false} DecodeBlocks(s: seq<Byte>)
    requires Blocks(s)
    ensures Decode(s + [EOD]) == Some(Text(s))
  {
    if s != [] {
      DecodeBlocks(s[Size(s)..]);
      StartsAppend(s, [EOD]);
    }
  }

  lemma OneBlock(s: seq<Byte>)
    requires Starts(s) && |s| == Size(s)
    ensures Blocks(s) && Text(s) == Piece(s)
  {
    assert s[Size(s)..] == [];
    assert Text([]) == [];
  }

  /** A block of literals. */
  function Literal(chunk: seq<Byte>): (s: seq<Byte>)
    requires 0 < |chunk| <= 128
    ensures |s| == |chunk| + 1 && s[0] == |chunk| - 1 && s[1..] == chunk
  {
    [|chunk| - 1] + chunk
  }

  lemma LiteralBlock(s: seq<Byte>, chunk: seq<Byte>)
    requires 0 < |chunk| <= 128 && |s| == |chunk| + 1 && s[0] == |chunk| - 1 && s[1..] == chunk
    ensures Blocks(s) && Text(s) == chunk
  {
    assert s[1..Size(s)] == s[1..];
    OneBlock(s);
  }

  lemma RepeatBlock(b: Byte, n: nat)
    requires 3 <= n <= 127
    ensures Blocks([257 - n, b]) && Text([257 - n, b]) == Repeated(b, n)
  {
    OneBlock([257 - n, b]);
  }

  /** `out` is whole blocks that stand for `text`. */
  predicate Wrote(out: seq<Byte>, text: seq<Byte>) {
    Blocks(out) && Text(out) == text
  }

  lemma AppendChunk(out: seq<Byte>, text: seq<Byte>, chunk: seq<Byte>)
    requires 0 < |chunk| <= 128 && Wrote(out, text)
    ensures Wrote(out + Literal(chunk), text + chunk)
  {
    LiteralBlock(Literal(chunk), chunk);
    BlocksAppend(out, Literal(chunk));
  }

  lemma Advance(text: seq<Byte>, literals: seq<Byte>, start: nat, end: nat)
    requires start <= end <= |literals|
    ensures text + literals[..start] + literals[start..end] == text + literals[..end]
  {
  }

  /** `flush`: what is pending goes out in chunks of 128. */
  method Flush(out: seq<Byte>, literals: seq<Byte>, ghost text: seq<Byte>)
    returns (flushed: seq<Byte>, ghost chunks: nat)
    requires Wrote(out, text)
    ensures Wrote(flushed, text + literals)
    ensures |flushed| == |out| + |literals| + chunks && |literals| <= 128 * chunks < |literals| + 128
  {
    flushed, chunks := out, 0;
    var start := 0;
    ghost var done, written := 0, text;
    while start < |literals|
      invariant start == 128 * chunks < |literals| + 128 && done == (if start < |literals| then start else |literals|)
      invariant Wrote(flushed, written) && written == text + literals[..done]
      invariant |flushed| == |out| + done + chunks
    {
      var end := if start + 128 < |literals| then start + 128 else |literals|;
      var chunk := literals[start..end];
      AppendChunk(flushed, written, chunk);
      Advance(text, literals, start, end);
      flushed := flushed + Literal(chunk);
      start, done, chunks, written := start + 128, end, chunks + 1, written + chunk;
    }
    assert literals[..|literals|] == literals;
  }

  /** The longest run of one byte, up to 127. */
  method RunAt(data: seq<Byte>, i: nat) returns (run: nat)
    requires i < |data|
    ensures 1 <= run <= 127 && i + run <= |data| && data[i..i + run] == Repeated(data[i], run)
    ensures run < 127 && i + run < |data| ==> data[i + run] != data[i]
  {
    run := 1;
    while i + run < |data| && data[i + run] == data[i] && run < 127
      invariant 1 <= run <= 127 && i + run <= |data|
      invariant forall k :: i <= k < i + run ==> data[k] == data[i]
    {
      run := run + 1;
    }
  }

  lemma AppendRepeat(out: seq<Byte>, text: seq<Byte>, b: Byte, n: nat)
    requires 3 <= n <= 127 && Wrote(out, text)
    ensures Wrote(out + [257 - n, b], text + Repeated(b, n))
  {
    RepeatBlock(b, n);
    BlocksAppend(out, [257 - n, b]);
  }

  /** `runlength_encode`: decoding gives the data back, only whole blocks precede the end mark, and the
      encoding is longer than the data by one byte in 128 and two more at most. */
  method Encode(data: seq<Byte>) returns (encoded: seq<Byte>)
    ensures Decode(encoded) == Some(data)
    ensures |encoded| > 0 && encoded[|encoded| - 1] == EOD && Blocks(encoded[..|encoded| - 1])
    ensures |encoded| <= |data| + |data| / 128 + 2
  {
    var out: seq<Byte> := [];
    var literals: seq<Byte> := [];
    ghost var text: seq<Byte> := [];
    ghost var chunks: nat;
    var i := 0;
    while i < |data|
      invariant 0 <= i <= |data| && |literals| <= i
      invariant Wrote(out, text) && text + literals == data[..i]
      invariant 128 * (|out| - (i - |literals|)) <= i - |literals|
    {
      var run := RunAt(data, i);
      assert data[..i + run] == data[..i] + data[i..i + run];
      if run >= 3 {
        out, chunks := Flush(out, literals, text);
        RunWritten(out, data, i, run);
        text, literals := data[..i + run], [];
        out := out + [257 - run, data[i]];
      } else {
        literals := literals + data[i..i + run];
      }
      i := i + run;
    }
    out, chunks := Flush(out, literals, text);
    assert data[..|data|] == data;
    EndMarked(out, data);
    encoded := out + [EOD];
  }

  lemma EndMarked(out: seq<Byte>, data: seq<Byte>)
    requires Wrote(out, data)
    ensures Decode(out + [EOD]) == Some(data) && (out + [EOD])[..|out|] == out
  {
    DecodeBlocks(out);
  }

  /** A run after what is pending, which has just gone out. */
  lemma RunWritten(out: seq<Byte>, data: seq<Byte>, i: nat, run: nat)
    requires i + run <= |data| && 3 <= run <= 127 && Wrote(out, data[..i])
    requires data[i..i + run] == Repeated(data[i], run)
    ensures Wrote(out + [257 - run, data[i]], data[..i + run])
  {
    AppendRepeat(out, data[..i], data[i], run);
    assert data[..i + run] == data[..i] + data[i..i + run];
  }
}
