/** The Protocol Buffers wire format itself, whose tags are varints, and what the scanner makes of it. */
module WireFormat {
  import opened Outcome
  import opened Bytes
  import opened Sequences
  import opened Folding
  import opened Powers
  import opened WireScanner

  const FIELD_LIMIT := 0x2000_0000

  /** A tag is the varint of the field number and, in its last three bits, the wire type. */
  function Tagging(p: Piece): seq<Byte> {
    Varint(DigitsOf(8 * p.num + WireType(p)), true)
  }

  function Written(p: Piece): seq<Byte>
    requires Formed(p)
  {
    Tagging(p) + Content(p)
  }

  predicate Standard(p: Piece) {
    1 <= p.num < FIELD_LIMIT && Formed(p) && Whole(p)
  }

  predicate AllStandard(ps: seq<Piece>) {
    forall i :: 0 <= i < |ps| ==> Standard(ps[i])
  }

  /** A message in wire format. */
  function WrittenAll(ps: seq<Piece>): seq<Byte>
    requires AllStandard(ps)
  {
    if ps == [] then [] else Written(ps[0]) + WrittenAll(ps[1..])
  }

  /** Standard fields with numbers up to 15. */
  predicate Low(ps: seq<Piece>) {
    AllStandard(ps) && forall i :: 0 <= i < |ps| ==> ps[i].num <= 15
  }

  /** A tag is the single byte the scanner takes it for exactly up to field 15. */
  lemma OneByteTag(p: Piece)
    requires 1 <= p.num
    ensures |Tagging(p)| == 1 <==> p.num <= 15
    ensures p.num <= 15 ==> Tagging(p) == [p.num * 8 + WireType(p)]
  {
    VarintLength(DigitsOf(8 * p.num + WireType(p)), true);
    if p.num <= 15 {
      assert DigitsOf(8 * p.num + WireType(p)) == [8 * p.num + WireType(p)];
    }
  }

  lemma {:induction false} LowIsMessage(ps: seq<Piece>)
    requires Low(ps)
    ensures Message(ps) && WrittenAll(ps) == EncodeAll(ps)
  {
    if ps != [] {
      LowIsMessage(ps[1..]);
      OneByteTag(ps[0]);
    }
  }

  /** On messages with no field above 15 the scanner decides what it is meant to. */
  lemma LowFieldsExactly(ps: seq<Piece>)
    requires Low(ps)
    ensures Accepts(WrittenAll(ps)) <==> Acceptable(ps)
  {
    LowIsMessage(ps);
    OneMessage(WrittenAll(ps), ps);
  }

  // ----- Fields from 16 on -----

  /** Whole fields stand from `at` to `end`. */
  ghost predicate Front(data: seq<Byte>, at: nat, ps: seq<Piece>, end: nat) {
    forall k {:trigger Unfolded(k)} :: Unfolded(k) ==>
      && Message(ps) && (forall i :: 0 <= i < |ps| ==> Whole(ps[i]))
      && Spells(data, at, EncodeAll(ps)) && at + |EncodeAll(ps)| == end
  }

  lemma WholeTail(ps: seq<Piece>)
    requires ps != [] && forall i :: 0 <= i < |ps| ==> Whole(ps[i])
    ensures Whole(ps[0]) && forall i :: 0 <= i < |ps[1..]| ==> Whole(ps[1..][i])
  {
  }

  lemma FrontHead(data: seq<Byte>, at: nat, ps: seq<Piece>, end: nat) returns (next: nat)
    requires Front(data, at, ps, end) && ps != []
    ensures StepIs(data, at, ps[0], next) && Front(data, next, ps[1..], end)
  {
    assert Unfolded(0);
    EncodeSplit(ps);
    WholeTail(ps);
    SpellsAppend(data, at, Encode(ps[0]), EncodeAll(ps[1..]));
    next := StepOf(data, at, ps[0]);
  }

  lemma StepJoin(data: seq<Byte>, at: nat, p: Piece, next: nat, ps: seq<Piece>, rest: Option<seq<Piece>>)
    requires StepIs(data, at, p, next) && Read(data, next) == Then(ps, rest)
    ensures Read(data, at) == Then([p] + ps, rest)
  {
    assert Unfolded(0);
    ThenAssoc([p], ps, rest);
  }

  /** Whole fields before anything else are read as what they are. */
  lemma {:induction false} ReadFront(data: seq<Byte>, at: nat, ps: seq<Piece>, end: nat)
    requires Front(data, at, ps, end)
    ensures Read(data, at) == Then(ps, Read(data, end))
    decreases |ps|
  {
    if ps == [] {
      assert Unfolded(0);
      ThenNothing(Read(data, at));
    } else {
      var next := FrontHead(data, at, ps, end);
      ReadFront(data, next, ps[1..], end);
      StepJoin(data, at, ps[0], next, ps[1..], Read(data, end));
      assert [ps[0]] + ps[1..] == ps;
    }
  }

  /** From field 16 on, the tag goes on: its first byte looks like the tag of another field, its other bytes like
      a length. */
  lemma LongTag(num: nat)
    requires 16 <= num < FIELD_LIMIT
    ensures Varint(DigitsOf(8 * num + 2), true) == [130 + 8 * (num % 16)] + Varint(DigitsOf(num / 16), true)
    ensures |DigitsOf(num / 16)| <= 4 && Value(DigitsOf(num / 16)) == num / 16
  {
    var n := 8 * num + 2;
    assert n % 128 == 8 * (num % 16) + 2 && n / 128 == num / 16;
    VarintCons(n % 128, DigitsOf(num / 16), true);
    ValueOfDigits(num / 16);
    Pow2At28();
    DigitsFit(num / 16, 4);
  }

  lemma Pow2At28()
    ensures Pow2(28) == 0x1000_0000
  {
    assert Pow2(0) == 1 && Pow2(7) == 128;
    Pow2Seven(1);
    Pow2Seven(2);
    Pow2Seven(3);
  }

  /** A small block under a number, in perfect order. */
  function Bait(num: nat, payload: Byte): Piece {
    if num < 32 then Block(num, [1], true, [payload]) else Block(num, [0], true, [])
  }

  function After(num: nat, payload: Byte): seq<Byte> {
    if num < 32 then [1, payload] else [0]
  }

  lemma BaitWritten(num: nat, payload: Byte)
    requires 16 <= num < FIELD_LIMIT
    ensures Standard(Bait(num, payload)) && SensibleVersion(Bait(num, payload))
    ensures Written(Bait(num, payload)) ==
      [130 + 8 * (num % 16)] + Varint(DigitsOf(num / 16), true) + After(num, payload)
  {
    LongTag(num);
    assert Value([1]) == 1 && Value([0]) == 0;
    VarintOne(1);
    VarintOne(0);
    var front := [130 + 8 * (num % 16)] + Varint(DigitsOf(num / 16), true);
    assert front + ([1] + [payload]) == front + [1, payload];
    assert front + ([0] + []) == front + [0];
  }

  lemma LengthStands(data: seq<Byte>, at: nat, head: Byte, length: seq<Byte>, after: seq<Byte>)
    requires Spells(data, at, [head] + length + after)
    ensures at < |data| && data[at] == head
    ensures Spells(data, at + 1, length) && Spells(data, at + 1 + |length|, after)
  {
    SpellsAppend(data, at, [head] + length, after);
    SpellsAppend(data, at, [head], length);
    SpellsHead(data, at, head);
  }

  lemma LengthRead(data: seq<Byte>, at: nat, head: Byte, digits: seq<nat>, after: seq<Byte>)
    requires Digits(digits) && 1 <= |digits| <= LENGTH_BYTES
    requires Spells(data, at, [head] + Varint(digits, true) + after)
    requires at + 1 + |Varint(digits, true)| + |after| == |data|
    ensures at < |data| && data[at] == head && Spells(data, |data| - |after|, after)
    ensures ReadVarint(data, at + 1, LENGTH_BYTES) == Some(Run(digits, true, |data| - |after|))
  {
    LengthStands(data, at, head, Varint(digits, true), after);
    VarintLength(digits, true);
    VarintRead(data, at + 1, LENGTH_BYTES, digits, true);
  }

  /** What follows the first byte of a long tag is taken for the length of a block. */
  lemma LongTagRead(data: seq<Byte>, at: nat, num: nat, after: seq<Byte>)
    requires 16 <= num < FIELD_LIMIT && after != []
    requires Spells(data, at, [130 + 8 * (num % 16)] + Varint(DigitsOf(num / 16), true) + after)
    requires at + 1 + |Varint(DigitsOf(num / 16), true)| + |after| == |data|
    ensures at < |data| && data[at] == (16 + num % 16) * 8 + 2
    ensures ReadVarint(data, at + 1, LENGTH_BYTES) == Some(Run(DigitsOf(num / 16), true, |data| - |after|))
    ensures Spells(data, |data| - |after|, after)
  {
    LongTag(num);
    LengthRead(data, at, 130 + 8 * (num % 16), DigitsOf(num / 16), after);
  }

  lemma LongTagPiece(data: seq<Byte>, at: nat, num: nat, from: nat)
    requires 16 <= num < FIELD_LIMIT && at < |data| && from <= |data|
    requires data[at] == (16 + num % 16) * 8 + 2
    requires ReadVarint(data, at + 1, LENGTH_BYTES) == Some(Run(DigitsOf(num / 16), true, from))
    ensures if from + num / 16 > |data| then ReadPiece(data, at).None?
            else ReadPiece(data, at).Some? && ReadPiece(data, at).value.next == from + num / 16
  {
    TagParts(16 + num % 16, 2);
    LongTag(num);
  }

  lemma FieldZero(data: seq<Byte>, at: nat)
    requires at < |data| && data[at] < 8
    ensures Read(data, at) == None
  {
  }

  lemma BaitRefused(data: seq<Byte>, at: nat, num: nat, payload: Byte)
    requires 16 <= num < FIELD_LIMIT && payload < 8
    requires Spells(data, at, Written(Bait(num, payload))) && at + |Written(Bait(num, payload))| == |data|
    ensures Read(data, at) == None
  {
    var after := After(num, payload);
    BaitWritten(num, payload);
    LongTagRead(data, at, num, after);
    var from := |data| - |after|;
    LongTagPiece(data, at, num, from);
    if num < 32 {
      SpellsAppend(data, from, [1], [payload]);
      assert [1] + [payload] == after;
      SpellsHead(data, from + 1, payload);
      FieldZero(data, from + 1);
    }
  }

  lemma WrittenCons(p: Piece, ps: seq<Piece>)
    requires Standard(p) && AllStandard(ps)
    ensures AllStandard([p] + ps) && WrittenAll([p] + ps) == Written(p) + WrittenAll(ps)
  {
    assert ([p] + ps)[1..] == ps;
  }

  lemma {:induction false} WrittenSnoc(ps: seq<Piece>, p: Piece)
    requires AllStandard(ps) && Standard(p)
    ensures AllStandard(ps + [p]) && WrittenAll(ps + [p]) == WrittenAll(ps) + Written(p)
  {
    if ps == [] {
      WrittenCons(p, []);
      assert [] + [p] == [p] + [];
    } else {
      var first, rest := ps[0], ps[1..];
      WrittenSnoc(rest, p);
      WrittenCons(first, rest + [p]);
      Assoc(Written(first), WrittenAll(rest), Written(p));
      assert ps + [p] == [first] + (rest + [p]);
    }
  }

  lemma BothSpelled(a: seq<Byte>, b: seq<Byte>)
    ensures Spells(a + b, 0, a) && Spells(a + b, |a|, b)
  {
    SpellsAppend(a + b, 0, a, b);
  }

  /** Whatever messages of low fields, acceptable ones too, a small block numbered 16 or more behind them is standard,
      meets what is asked of fields, and has the whole refused. */
  lemma HighFieldRefused(ps: seq<Piece>, num: nat, payload: Byte)
    requires Low(ps) && 16 <= num < FIELD_LIMIT && payload < 8
    ensures AllStandard(ps + [Bait(num, payload)])
    ensures Acceptable(ps) ==> Acceptable(ps + [Bait(num, payload)])
    ensures !Accepts(WrittenAll(ps + [Bait(num, payload)]))
  {
    var p := Bait(num, payload);
    BaitWritten(num, payload);
    WrittenSnoc(ps, p);
    LowIsMessage(ps);
    if Acceptable(ps) {
      AcceptableMore(ps, p);
    }
    var data := WrittenAll(ps) + Written(p);
    BothSpelled(WrittenAll(ps), Written(p));
    ReadFront(data, 0, ps, |WrittenAll(ps)|);
    BaitRefused(data, |WrittenAll(ps)|, num, payload);
  }

  /** Field 16: the bytes are 130, 1, 1 and any payload below 8. */
  lemma SixteenWritten(payload: Byte)
    ensures Written(Bait(16, payload)) == [130, 1, 1, payload]
  {
    BaitWritten(16, payload);
    assert DigitsOf(1) == [1];
  }

  /** Behind an acceptable message of low fields, every acceptable field with a number is accepted if and only if the
      number is at most 15. */
  lemma FieldNumberExactly(ps: seq<Piece>, num: nat)
    requires Low(ps) && Acceptable(ps) && 1 <= num < FIELD_LIMIT
    ensures num <= 15 <==>
      forall p :: Standard(p) && p.num == num && SensibleVersion(p) ==> Accepts(WrittenAll(ps + [p]))
  {
    if num <= 15 {
      forall p | Standard(p) && p.num == num && SensibleVersion(p)
        ensures Accepts(WrittenAll(ps + [p]))
      {
        AcceptableMore(ps, p);
        LowFieldsExactly(ps + [p]);
      }
    } else {
      HighFieldRefused(ps, num, 0);
      BaitWritten(num, 0);
    }
  }

  lemma SmallModel(name: seq<Byte>) returns (ps: seq<Piece>)
    requires |name| == 100
    ensures Low(ps) && Acceptable(ps) && |WrittenAll(ps)| >= 100
  {
    var version, graph := Number(1, [8], true), Block(8, [100], true, name);
    assert Value([8]) == 8 && Value([100]) == 100;
    ps := [version] + [graph];
    assert IsVersion(ps[0]) && IsGraph(ps[1]);
    WrittenSnoc([version], graph);
  }

  /** A model long enough to come before the scanner, accepted until a standard field 16 follows. */
  lemma RefusedModel(name: seq<Byte>)
    requires |name| == 100
    ensures exists ps ::
      && Low(ps) && Acceptable(ps) && |WrittenAll(ps)| >= 64 && Accepts(WrittenAll(ps))
      && AllStandard(ps + [Bait(16, 0)]) && !Accepts(WrittenAll(ps + [Bait(16, 0)]))
  {
    var ps := SmallModel(name);
    LowFieldsExactly(ps);
    HighFieldRefused(ps, 16, 0);
  }
}
