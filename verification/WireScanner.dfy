/** The fallback scanner for model files: the Protocol Buffers wire format ("Base 128 Varints", "Message Structure"). */
module WireScanner {
  import opened Outcome
  import opened Bytes
  import opened Folding
  import opened Powers

  // ----- Base 128 -----

  /** `digits` from the least on; a continuation bit on every byte but the last, and on the last one as well when
      the text breaks off. */
  function Varint(digits: seq<nat>, ended: bool): seq<Byte>
    requires Digits(digits)
  {
    if digits == [] then []
    else if |digits| == 1 && ended then [digits[0]]
    else [digits[0] + 128] + Varint(digits[1..], ended)
  }

  predicate Digits(digits: seq<nat>) {
    forall i :: 0 <= i < |digits| ==> digits[i] < 128
  }

  function Value(digits: seq<nat>): nat {
    if digits == [] then 0 else digits[0] + 128 * Value(digits[1..])
  }

  datatype Run = Run(digits: seq<nat>, ended: bool, next: nat)

  /** A varint of at most `limit` bytes from `at` on, which the end of the data may cut short. */
  function ReadVarint(data: seq<Byte>, at: nat, limit: nat): (r: Option<Run>)
    requires at <= |data| && limit > 0
    ensures r.Some? ==> at <= r.value.next <= |data| && Digits(r.value.digits)
    ensures r.Some? ==> r.value.next == at + |r.value.digits|
    ensures r.Some? ==> WholeOrCut(r.value.digits, r.value.ended, limit) && (!r.value.ended ==> r.value.next == |data|)
    decreases |data| - at
  {
    if at == |data| then Some(Run([], false, at))
    else if data[at] < 128 then Some(Run([data[at]], true, at + 1))
    else if limit == 1 then None
    else
      var rest := ReadVarint(data, at + 1, limit - 1);
      if rest.None? then None else Some(rest.value.(digits := [data[at] - 128] + rest.value.digits))
  }

  predicate WholeOrCut(digits: seq<nat>, ended: bool, limit: nat) {
    if ended then 1 <= |digits| <= limit else |digits| < limit
  }

  /** `bytes` stand in the data at `at`. */
  ghost predicate Spells(data: seq<Byte>, at: nat, bytes: seq<Byte>) {
    && at + |bytes| <= |data|
    && forall k {:trigger Unfolded(k)} :: Unfolded(k) ==> forall i :: 0 <= i < |bytes| ==> data[at + i] == bytes[i]
  }

  lemma {:induction false} VarintLength(digits: seq<nat>, ended: bool)
    requires Digits(digits)
    ensures |Varint(digits, ended)| == |digits|
  {
    if digits != [] {
      VarintLength(digits[1..], ended);
    }
  }

  lemma SpellsAppend(data: seq<Byte>, at: nat, a: seq<Byte>, b: seq<Byte>)
    ensures Spells(data, at, a + b) <==> Spells(data, at, a) && Spells(data, at + |a|, b)
  {
    assert Unfolded(0);
    if Spells(data, at, a + b) {
      assert forall i :: 0 <= i < |a| ==> (a + b)[i] == a[i];
      forall i | 0 <= i < |b|
        ensures data[at + |a| + i] == b[i]
      {
        assert (a + b)[|a| + i] == b[i];
        assert data[at + (|a| + i)] == b[i];
      }
    }
    if Spells(data, at, a) && Spells(data, at + |a|, b) {
      forall i | 0 <= i < |a + b|
        ensures data[at + i] == (a + b)[i]
      {
        if i >= |a| {
          assert data[at + |a| + (i - |a|)] == b[i - |a|];
        }
      }
    }
  }

  lemma SpellsHead(data: seq<Byte>, at: nat, x: Byte)
    ensures Spells(data, at, [x]) <==> at < |data| && data[at] == x
  {
    assert Unfolded(0);
    if Spells(data, at, [x]) {
      assert data[at + 0] == [x][0];
    }
  }

  lemma VarintCons(d: nat, rest: seq<nat>, ended: bool)
    requires d < 128 && Digits(rest) && (rest == [] ==> !ended)
    ensures Digits([d] + rest) && Varint([d] + rest, ended) == [d + 128] + Varint(rest, ended)
  {
    assert ([d] + rest)[1..] == rest;
  }

  lemma VarintOne(d: nat)
    requires d < 128
    ensures Varint([d], true) == [d]
  {
  }

  /** What was read stands there. */
  lemma {:induction false} VarintSpelled(data: seq<Byte>, at: nat, limit: nat)
    requires at <= |data| && limit > 0 && ReadVarint(data, at, limit).Some?
    ensures var r := ReadVarint(data, at, limit).value; Spells(data, at, Varint(r.digits, r.ended))
    decreases limit
  {
    if at == |data| {
    } else if data[at] < 128 {
      VarintOne(data[at]);
      SpellsHead(data, at, data[at]);
    } else {
      var rest := ReadVarint(data, at + 1, limit - 1).value;
      VarintSpelled(data, at + 1, limit - 1);
      VarintCons(data[at] - 128, rest.digits, rest.ended);
      SpellsHead(data, at, data[at]);
      SpellsAppend(data, at, [data[at]], Varint(rest.digits, rest.ended));
    }
  }

  /** What stands there is read. */
  lemma {:induction false} VarintRead(data: seq<Byte>, at: nat, limit: nat, digits: seq<nat>, ended: bool)
    requires Digits(digits) && limit > 0 && WholeOrCut(digits, ended, limit)
    requires Spells(data, at, Varint(digits, ended)) && (!ended ==> at + |digits| == |data|)
    ensures at <= |data| && ReadVarint(data, at, limit) == Some(Run(digits, ended, at + |digits|))
    decreases limit
  {
    if digits == [] {
    } else if |digits| == 1 && ended {
      assert digits == [digits[0]];
      VarintOne(digits[0]);
      SpellsHead(data, at, digits[0]);
    } else {
      var d, rest := digits[0], digits[1..];
      assert digits == [d] + rest;
      VarintCons(d, rest, ended);
      SpellsAppend(data, at, [d + 128], Varint(rest, ended));
      SpellsHead(data, at, d + 128);
      VarintRead(data, at + 1, limit - 1, rest, ended);
    }
  }

  // ----- Fields -----

  /** A field; as the scanner takes it, the tag is one byte, and `num` is at most 31. */
  datatype Piece =
    | Number(num: nat, digits: seq<nat>, ended: bool)
    | Fixed(num: nat, size: nat, payload: seq<Byte>)
    | Block(num: nat, digits: seq<nat>, ended: bool, payload: seq<Byte>)

  const VARINT_BYTES := 10
  const LENGTH_BYTES := 5

  /** What may follow a tag. */
  predicate Formed(p: Piece) {
    match p
    case Number(_, digits, ended) => Digits(digits) && WholeOrCut(digits, ended, VARINT_BYTES)
    case Fixed(_, size, payload) => (size == 8 || size == 4) && |payload| <= size
    case Block(_, digits, ended, payload) =>
      && Digits(digits) && WholeOrCut(digits, ended, LENGTH_BYTES)
      && |payload| == Value(digits) && (!ended ==> payload == [])
  }

  predicate WellFormed(p: Piece) {
    1 <= p.num <= 31 && Formed(p)
  }

  /** Not cut short. */
  predicate Whole(p: Piece) {
    match p
    case Number(_, _, ended) => ended
    case Fixed(_, size, payload) => |payload| == size
    case Block(_, _, ended, _) => ended
  }

  function WireType(p: Piece): nat {
    match p
    case Number(_, _, _) => 0
    case Fixed(_, size, _) => if size == 8 then 1 else 5
    case Block(_, _, _, _) => 2
  }

  /** The scanner's own form of a field: every tag is one byte. */
  function Encode(p: Piece): seq<Byte>
    requires WellFormed(p)
  {
    [p.num * 8 + WireType(p)] + Content(p)
  }

  function Content(p: Piece): seq<Byte>
    requires Formed(p)
  {
    match p
    case Number(_, digits, ended) => Varint(digits, ended)
    case Fixed(_, _, payload) => payload
    case Block(_, digits, ended, payload) => Varint(digits, ended) + payload
  }

  /** Well-formed fields, of which only the last may be cut short. */
  predicate Message(ps: seq<Piece>) {
    forall i :: 0 <= i < |ps| ==> WellFormed(ps[i]) && (i < |ps| - 1 ==> Whole(ps[i]))
  }

  function EncodeAll(ps: seq<Piece>): seq<Byte>
    requires Message(ps)
  {
    if ps == [] then [] else Encode(ps[0]) + EncodeAll(ps[1..])
  }

  datatype Step = Step(piece: Piece, next: nat)

  /** The content of a field from `from` on. */
  function ReadContent(data: seq<Byte>, from: nat, num: nat, wire: nat): (r: Option<Step>)
    requires from <= |data|
    ensures r.Some? ==> r.value.next >= from
  {
    if wire == 0 then
      var r := ReadVarint(data, from, VARINT_BYTES);
      if r.None? then None else Some(Step(Number(num, r.value.digits, r.value.ended), r.value.next))
    else if wire == 1 || wire == 5 then
      var size := if wire == 1 then 8 else 4;
      Some(Step(Fixed(num, size, data[from..Min(from + size, |data|)]), from + size))
    else if wire == 2 then
      var r := ReadVarint(data, from, LENGTH_BYTES);
      if r.None? then None
      else
        var next := r.value.next + Value(r.value.digits);
        if next > |data| then None
        else Some(Step(Block(num, r.value.digits, r.value.ended, data[r.value.next..next]), next))
    else None
  }

  /** One field from `at` on. */
  function ReadPiece(data: seq<Byte>, at: nat): (r: Option<Step>)
    requires at < |data|
    ensures r.Some? ==> r.value.next > at
  {
    if data[at] / 8 == 0 then None else ReadContent(data, at + 1, data[at] / 8, data[at] % 8)
  }

  function Min(a: nat, b: nat): nat {
    if a < b then a else b
  }

  /** All fields from `at` on. */
  function Read(data: seq<Byte>, at: nat): Option<seq<Piece>>
    decreases |data| - at
  {
    if at >= |data| then Some([])
    else
      var step := ReadPiece(data, at);
      if step.None? then None else Then([step.value.piece], Read(data, step.value.next))
  }

  function Then(ps: seq<Piece>, rest: Option<seq<Piece>>): Option<seq<Piece>> {
    if rest.None? then None else Some(ps + rest.value)
  }

  // ----- What the scanner asks of the fields -----

  predicate SensibleVersion(p: Piece) {
    p.Number? && p.num == 1 ==> 3 <= Value(p.digits) <= 20
  }

  predicate IsVersion(p: Piece) {
    p.Number? && p.num == 1
  }

  predicate IsGraph(p: Piece) {
    p.Block? && p.num == 8
  }

  predicate Acceptable(ps: seq<Piece>) {
    && (forall i :: 0 <= i < |ps| ==> SensibleVersion(ps[i]))
    && (exists i :: 0 <= i < |ps| && IsVersion(ps[i]))
    && (exists i :: 0 <= i < |ps| && IsGraph(ps[i]))
  }

  predicate Accepts(data: seq<Byte>) {
    Read(data, 0).Some? && Acceptable(Read(data, 0).value)
  }

  // ----- Reading and encoding are inverse -----

  lemma SpellsSlice(data: seq<Byte>, from: nat, to: nat)
    requires from <= to <= |data|
    ensures Spells(data, from, data[from..to])
  {
  }

  lemma SliceSpelled(data: seq<Byte>, at: nat, bytes: seq<Byte>)
    requires Spells(data, at, bytes)
    ensures data[at..at + |bytes|] == bytes
  {
    assert Unfolded(0);
  }

  /** What was read from `from` on, after a tag, is the content of the field. */
  lemma NumberSpelled(data: seq<Byte>, from: nat)
    requires from <= |data| && ReadVarint(data, from, VARINT_BYTES).Some?
    ensures var r := ReadVarint(data, from, VARINT_BYTES).value;
      Spells(data, from, Varint(r.digits, r.ended)) && from + |Varint(r.digits, r.ended)| == r.next
  {
    var r := ReadVarint(data, from, VARINT_BYTES).value;
    VarintSpelled(data, from, VARINT_BYTES);
    VarintLength(r.digits, r.ended);
  }

  lemma BlockSpelled(data: seq<Byte>, from: nat, next: nat)
    requires from <= |data| && ReadVarint(data, from, LENGTH_BYTES).Some?
    requires var r := ReadVarint(data, from, LENGTH_BYTES).value; r.next + Value(r.digits) == next <= |data|
    ensures var r := ReadVarint(data, from, LENGTH_BYTES).value;
      && Spells(data, from, Varint(r.digits, r.ended) + data[r.next..next])
      && from + |Varint(r.digits, r.ended) + data[r.next..next]| == next
  {
    var r := ReadVarint(data, from, LENGTH_BYTES).value;
    VarintSpelled(data, from, LENGTH_BYTES);
    VarintLength(r.digits, r.ended);
    SpellsSlice(data, r.next, next);
    SpellsAppend(data, from, Varint(r.digits, r.ended), data[r.next..next]);
  }

  /** The content of `p` stands at `from`, and `next` follows it: where it ends, or at or past the end of the data if
      it is cut short. */
  ghost predicate Stands(data: seq<Byte>, from: nat, p: Piece, next: nat) {
    && from <= |data| && WellFormed(p) && Spells(data, from, Content(p))
    && (if Whole(p) then from + |Content(p)| == next else from + |Content(p)| == |data| <= next)
  }

  lemma NumberStands(data: seq<Byte>, from: nat, num: nat)
    requires from <= |data| && 1 <= num <= 31 && ReadVarint(data, from, VARINT_BYTES).Some?
    ensures var r := ReadVarint(data, from, VARINT_BYTES).value;
      Stands(data, from, Number(num, r.digits, r.ended), r.next)
  {
    NumberSpelled(data, from);
  }

  lemma FixedStands(data: seq<Byte>, from: nat, num: nat, size: nat)
    requires from <= |data| && 1 <= num <= 31 && (size == 8 || size == 4)
    ensures Stands(data, from, Fixed(num, size, data[from..Min(from + size, |data|)]), from + size)
  {
    SpellsSlice(data, from, Min(from + size, |data|));
  }

  lemma BlockStands(data: seq<Byte>, from: nat, num: nat, next: nat)
    requires from <= |data| && 1 <= num <= 31 && ReadVarint(data, from, LENGTH_BYTES).Some?
    requires var r := ReadVarint(data, from, LENGTH_BYTES).value; r.next + Value(r.digits) == next <= |data|
    ensures var r := ReadVarint(data, from, LENGTH_BYTES).value;
      Stands(data, from, Block(num, r.digits, r.ended, data[r.next..next]), next)
  {
    BlockSpelled(data, from, next);
  }

  /** The content read is the one that stands there. */
  lemma ContentStands(data: seq<Byte>, from: nat, num: nat, wire: nat)
    requires from <= |data| && 1 <= num <= 31 && ReadContent(data, from, num, wire).Some?
    ensures var step := ReadContent(data, from, num, wire).value;
      Stands(data, from, step.piece, step.next) && step.piece.num == num && WireType(step.piece) == wire
  {
    if wire == 0 {
      NumberStands(data, from, num);
    } else if wire == 2 {
      BlockStands(data, from, num, ReadContent(data, from, num, wire).value.next);
    } else {
      FixedStands(data, from, num, if wire == 1 then 8 else 4);
    }
  }

  lemma Tag(b: Byte)
    ensures b == (b / 8) * 8 + b % 8 && b / 8 <= 31
  {
  }

  lemma TagParts(num: nat, wire: nat)
    requires wire < 8
    ensures (num * 8 + wire) / 8 == num && (num * 8 + wire) % 8 == wire
  {
  }

  lemma PieceParts(data: seq<Byte>, at: nat) returns (num: nat, wire: nat)
    requires at < |data| && ReadPiece(data, at).Some?
    ensures 1 <= num <= 31 && data[at] == num * 8 + wire
    ensures ReadContent(data, at + 1, num, wire) == ReadPiece(data, at)
  {
    num, wire := data[at] / 8, data[at] % 8;
    Tag(data[at]);
  }

  lemma Tagged(data: seq<Byte>, at: nat, p: Piece, next: nat)
    requires at < |data| && Stands(data, at + 1, p, next) && data[at] == p.num * 8 + WireType(p)
    ensures Spells(data, at, Encode(p))
    ensures if Whole(p) then at + |Encode(p)| == next else at + |Encode(p)| == |data| <= next
  {
    SpellsOne(data, at);
    SpellsAppend(data, at, [data[at]], Content(p));
  }

  /** The field read is the one that stands there. */
  lemma PieceSpelled(data: seq<Byte>, at: nat, p: Piece, next: nat)
    requires at < |data| && ReadPiece(data, at) == Some(Step(p, next))
    ensures WellFormed(p) && Spells(data, at, Encode(p))
    ensures if Whole(p) then at + |Encode(p)| == next else at + |Encode(p)| == |data| <= next
  {
    var num, wire := PieceParts(data, at);
    ContentStands(data, at + 1, num, wire);
    Tagged(data, at, p, next);
  }

  lemma SpellsOne(data: seq<Byte>, at: nat)
    requires at < |data|
    ensures Spells(data, at, [data[at]])
  {
  }

  lemma NumberRead(data: seq<Byte>, from: nat, p: Piece, next: nat)
    requires p.Number? && Stands(data, from, p, next) && next <= |data|
    ensures ReadContent(data, from, p.num, 0) == Some(Step(p, next))
  {
    VarintLength(p.digits, p.ended);
    VarintRead(data, from, VARINT_BYTES, p.digits, p.ended);
  }

  lemma FixedRead(data: seq<Byte>, from: nat, p: Piece, next: nat)
    requires p.Fixed? && Stands(data, from, p, next) && next == from + p.size
    ensures ReadContent(data, from, p.num, WireType(p)) == Some(Step(p, next))
  {
    SliceSpelled(data, from, p.payload);
  }

  lemma BlockRead(data: seq<Byte>, from: nat, p: Piece, next: nat)
    requires p.Block? && Stands(data, from, p, next) && next <= |data|
    ensures ReadContent(data, from, p.num, 2) == Some(Step(p, next))
  {
    BlockParts(data, from, p);
    BlockFound(data, from, p);
  }

  lemma BlockParts(data: seq<Byte>, from: nat, p: Piece)
    requires p.Block? && WellFormed(p) && Spells(data, from, Content(p)) && (!p.ended ==> from + |Content(p)| == |data|)
    ensures Spells(data, from, Varint(p.digits, p.ended)) && |Varint(p.digits, p.ended)| == |p.digits|
    ensures Spells(data, from + |p.digits|, p.payload) && (!p.ended ==> from + |p.digits| == |data|)
  {
    VarintLength(p.digits, p.ended);
    SpellsAppend(data, from, Varint(p.digits, p.ended), p.payload);
  }

  lemma BlockFound(data: seq<Byte>, from: nat, p: Piece)
    requires p.Block? && WellFormed(p) && Spells(data, from, Varint(p.digits, p.ended))
    requires Spells(data, from + |p.digits|, p.payload) && (!p.ended ==> from + |p.digits| == |data|)
    ensures from <= |data| && ReadContent(data, from, p.num, 2) == Some(Step(p, from + |p.digits| + |p.payload|))
  {
    VarintRead(data, from, LENGTH_BYTES, p.digits, p.ended);
    SliceSpelled(data, from + |p.digits|, p.payload);
  }

  /** Where the reader goes on: cut fixed bytes take it past the end. */
  function EndOf(from: nat, p: Piece): nat
    requires WellFormed(p)
  {
    if p.Fixed? then from + p.size else from + |Content(p)|
  }

  ghost predicate ContentIs(data: seq<Byte>, from: nat, p: Piece, next: nat)
    requires from <= |data|
  {
    forall k {:trigger Unfolded(k)} :: Unfolded(k) ==>
      ReadContent(data, from, p.num, WireType(p)) == Some(Step(p, next))
  }

  lemma ContentRead(data: seq<Byte>, from: nat, p: Piece)
    requires WellFormed(p) && Stands(data, from, p, EndOf(from, p))
    ensures ContentIs(data, from, p, EndOf(from, p))
  {
    match p {
      case Number(_, _, _) => NumberRead(data, from, p, EndOf(from, p));
      case Fixed(_, _, _) => FixedRead(data, from, p, EndOf(from, p));
      case Block(_, _, _, _) => BlockRead(data, from, p, EndOf(from, p));
    }
  }

  lemma TagSpelled(data: seq<Byte>, at: nat, p: Piece)
    requires WellFormed(p) && Spells(data, at, Encode(p))
    ensures at < |data| && data[at] == p.num * 8 + WireType(p) && Spells(data, at + 1, Content(p))
  {
    assert Unfolded(0);
    SpellsAppend(data, at, [p.num * 8 + WireType(p)], Content(p));
    assert data[at + 0] == [p.num * 8 + WireType(p)][0];
  }

  lemma SpelledStands(data: seq<Byte>, at: nat, p: Piece)
    requires WellFormed(p) && Spells(data, at, Encode(p)) && (Whole(p) || at + |Encode(p)| == |data|)
    ensures at < |data| && data[at] == p.num * 8 + WireType(p) && Stands(data, at + 1, p, EndOf(at + 1, p))
  {
    TagSpelled(data, at, p);
  }

  /** `p` is read at `at`, and the reader goes on at `next`. */
  ghost predicate StepIs(data: seq<Byte>, at: nat, p: Piece, next: nat) {
    at < |data| && forall k {:trigger Unfolded(k)} :: Unfolded(k) ==> ReadPiece(data, at) == Some(Step(p, next))
  }

  lemma ByTag(data: seq<Byte>, at: nat, p: Piece, next: nat)
    requires at < |data| && WellFormed(p) && data[at] == p.num * 8 + WireType(p)
    requires ContentIs(data, at + 1, p, next)
    ensures StepIs(data, at, p, next)
  {
    assert Unfolded(0);
    TagParts(p.num, WireType(p));
  }

  /** The field that stands there is the one read. */
  lemma PieceRead(data: seq<Byte>, at: nat, p: Piece)
    requires WellFormed(p) && Spells(data, at, Encode(p)) && (Whole(p) || at + |Encode(p)| == |data|)
    ensures StepIs(data, at, p, EndOf(at + 1, p))
  {
    SpelledStands(data, at, p);
    ContentRead(data, at + 1, p);
    ByTag(data, at, p, EndOf(at + 1, p));
  }

  lemma MessageTail(ps: seq<Piece>)
    requires Message(ps) && ps != []
    ensures Message(ps[1..])
  {
  }

  lemma EncodeOne(p: Piece)
    requires WellFormed(p)
    ensures EncodeAll([p]) == Encode(p)
  {
    assert EncodeAll([p][1..]) == [];
  }

  lemma ReadParts(data: seq<Byte>, at: nat) returns (p: Piece, next: nat, rest: seq<Piece>)
    requires at < |data| && Read(data, at).Some?
    ensures ReadPiece(data, at) == Some(Step(p, next)) && next > at
    ensures Read(data, next) == Some(rest) && Read(data, at) == Some([p] + rest) && (next >= |data| ==> rest == [])
  {
    p, next := ReadPiece(data, at).value.piece, ReadPiece(data, at).value.next;
    rest := Read(data, next).value;
  }

  lemma LastSpelled(data: seq<Byte>, at: nat, p: Piece)
    requires WellFormed(p) && Spells(data, at, Encode(p)) && at + |Encode(p)| == |data|
    ensures Message([p] + []) && Spells(data, at, EncodeAll([p] + [])) && at + |EncodeAll([p] + [])| == |data|
  {
    assert [p] + [] == [p];
    EncodeOne(p);
  }

  /** The rest of the data is the encoding of these fields. */
  ghost predicate Remains(data: seq<Byte>, at: nat, ps: seq<Piece>) {
    forall k {:trigger Unfolded(k)} :: Unfolded(k) ==>
      Message(ps) && Spells(data, at, EncodeAll(ps)) && at + |EncodeAll(ps)| == |data|
  }

  lemma JoinRemains(data: seq<Byte>, at: nat, p: Piece, next: nat, rest: seq<Piece>)
    requires at < next < |data| && ReadPiece(data, at) == Some(Step(p, next)) && Remains(data, next, rest)
    ensures Remains(data, at, [p] + rest)
  {
    assert Unfolded(0);
    PieceSpelled(data, at, p, next);
    JoinSpelled(data, at, p, rest);
  }

  lemma LastRemains(data: seq<Byte>, at: nat, p: Piece, next: nat)
    requires at < |data| <= next && ReadPiece(data, at) == Some(Step(p, next))
    ensures Remains(data, at, [p] + [])
  {
    PieceSpelled(data, at, p, next);
    LastSpelled(data, at, p);
  }

  /** What is read is a message, and encoding it gives the data back. */
  lemma {:induction false} ReadSpelled(data: seq<Byte>, at: nat)
    requires at <= |data| && Read(data, at).Some?
    ensures Remains(data, at, Read(data, at).value)
    decreases |data| - at
  {
    if at < |data| {
      var p, next, rest := ReadParts(data, at);
      if next < |data| {
        ReadSpelled(data, next);
        JoinRemains(data, at, p, next, rest);
      } else {
        LastRemains(data, at, p, next);
      }
    }
  }

  lemma JoinSpelled(data: seq<Byte>, at: nat, p: Piece, ps: seq<Piece>)
    requires WellFormed(p) && Whole(p) && Message(ps)
    requires Spells(data, at, Encode(p)) && Spells(data, at + |Encode(p)|, EncodeAll(ps))
    ensures Message([p] + ps) && EncodeAll([p] + ps) == Encode(p) + EncodeAll(ps)
    ensures Spells(data, at, EncodeAll([p] + ps))
  {
    assert ([p] + ps)[1..] == ps;
    SpellsAppend(data, at, Encode(p), EncodeAll(ps));
  }

  lemma EncodeSplit(ps: seq<Piece>)
    requires Message(ps) && ps != []
    ensures WellFormed(ps[0]) && (|ps| > 1 ==> Whole(ps[0]))
    ensures Message(ps[1..]) && EncodeAll(ps) == Encode(ps[0]) + EncodeAll(ps[1..])
    ensures |ps| == 1 ==> EncodeAll(ps[1..]) == []
  {
    MessageTail(ps);
  }

  lemma TailRemains(data: seq<Byte>, at: nat, p: Piece, rest: seq<Piece>, all: seq<Byte>)
    requires WellFormed(p) && Message(rest) && all == Encode(p) + EncodeAll(rest)
    requires Spells(data, at, all) && at + |all| == |data|
    ensures Spells(data, at, Encode(p)) && Remains(data, at + |Encode(p)|, rest)
  {
    SpellsAppend(data, at, Encode(p), EncodeAll(rest));
  }

  lemma HeadSpelled(data: seq<Byte>, at: nat, ps: seq<Piece>)
    requires Remains(data, at, ps) && ps != []
    ensures WellFormed(ps[0]) && Spells(data, at, Encode(ps[0])) && (Whole(ps[0]) || at + |Encode(ps[0])| == |data|)
    ensures if |ps| == 1 then at + |Encode(ps[0])| == |data|
            else Whole(ps[0]) && Remains(data, at + |Encode(ps[0])|, ps[1..])
  {
    RemainsParts(data, at, ps);
    EncodeSplit(ps);
    TailRemains(data, at, ps[0], ps[1..], EncodeAll(ps));
    if |ps| == 1 {
      assert EncodeAll(ps) == Encode(ps[0]);
    }
  }

  lemma RemainsParts(data: seq<Byte>, at: nat, ps: seq<Piece>)
    requires Remains(data, at, ps)
    ensures Message(ps) && Spells(data, at, EncodeAll(ps)) && at + |EncodeAll(ps)| == |data|
  {
    assert Unfolded(0);
  }

  lemma ReadAfter(data: seq<Byte>, at: nat, p: Piece, next: nat, rest: seq<Piece>)
    requires StepIs(data, at, p, next) && Read(data, next) == Some(rest)
    ensures Read(data, at) == Some([p] + rest)
  {
    assert Unfolded(0);
  }

  lemma EndMeets(at: nat, p: Piece)
    requires WellFormed(p)
    ensures at < EndOf(at + 1, p) && EndOf(at + 1, p) >= at + |Encode(p)|
    ensures Whole(p) ==> EndOf(at + 1, p) == at + |Encode(p)|
  {
  }

  lemma StepOf(data: seq<Byte>, at: nat, p: Piece) returns (next: nat)
    requires WellFormed(p) && Spells(data, at, Encode(p)) && (Whole(p) || at + |Encode(p)| == |data|)
    ensures at < next && StepIs(data, at, p, next) && next >= at + |Encode(p)|
    ensures Whole(p) ==> next == at + |Encode(p)|
  {
    EndMeets(at, p);
    PieceRead(data, at, p);
    next := EndOf(at + 1, p);
  }

  /** `p` stands at `at`, before the encoding of `rest`. */
  ghost predicate Leads(data: seq<Byte>, at: nat, p: Piece, rest: seq<Piece>) {
    && WellFormed(p) && Spells(data, at, Encode(p)) && (Whole(p) || at + |Encode(p)| == |data|)
    && (if rest == [] then at + |Encode(p)| == |data| else Whole(p) && Remains(data, at + |Encode(p)|, rest))
  }

  lemma StepRemains(data: seq<Byte>, at: nat, p: Piece, rest: seq<Piece>) returns (next: nat)
    requires Leads(data, at, p, rest)
    ensures at < next && StepIs(data, at, p, next)
    ensures if rest == [] then next >= |data| else Remains(data, next, rest)
  {
    next := StepOf(data, at, p);
  }

  lemma HeadRemains(data: seq<Byte>, at: nat, ps: seq<Piece>)
    requires Remains(data, at, ps) && ps != []
    ensures Leads(data, at, ps[0], ps[1..])
  {
    HeadSpelled(data, at, ps);
  }

  /** From `at` on these fields are read. */
  ghost predicate ReadsAs(data: seq<Byte>, at: nat, ps: seq<Piece>) {
    forall k {:trigger Unfolded(k)} :: Unfolded(k) ==> Read(data, at) == Some(ps)
  }

  lemma EncodedEnd(data: seq<Byte>, at: nat)
    requires at >= |data|
    ensures ReadsAs(data, at, [])
  {
  }

  lemma NothingRemains(data: seq<Byte>, at: nat, ps: seq<Piece>)
    requires Remains(data, at, ps) && ps == []
    ensures at >= |data|
  {
    assert Unfolded(0);
  }

  lemma EncodedAfter(data: seq<Byte>, at: nat, ps: seq<Piece>, next: nat)
    requires ps != [] && StepIs(data, at, ps[0], next) && ReadsAs(data, next, ps[1..])
    ensures ReadsAs(data, at, ps)
  {
    assert Unfolded(0);
    ReadAfter(data, at, ps[0], next, ps[1..]);
    assert [ps[0]] + ps[1..] == ps;
  }

  lemma {:induction false} EncodedReads(data: seq<Byte>, at: nat, ps: seq<Piece>)
    requires Remains(data, at, ps)
    ensures ReadsAs(data, at, ps)
    decreases |ps|
  {
    if ps == [] {
      NothingRemains(data, at, ps);
      EncodedEnd(data, at);
    } else {
      HeadRemains(data, at, ps);
      var next := StepRemains(data, at, ps[0], ps[1..]);
      if ps[1..] == [] {
        EncodedEnd(data, next);
      } else {
        EncodedReads(data, next, ps[1..]);
      }
      EncodedAfter(data, at, ps, next);
    }
  }

  /** Encoding a message and reading it gives the message back. */
  lemma EncodedRead(data: seq<Byte>, at: nat, ps: seq<Piece>)
    requires Remains(data, at, ps)
    ensures Read(data, at) == Some(ps)
  {
    EncodedReads(data, at, ps);
    assert Unfolded(0);
  }

  lemma WholeRemains(ps: seq<Piece>)
    requires Message(ps)
    ensures Remains(EncodeAll(ps), 0, ps)
  {
  }

  lemma RemainsWhole(data: seq<Byte>, ps: seq<Piece>)
    requires Remains(data, 0, ps)
    ensures Message(ps) && EncodeAll(ps) == data
  {
    assert Unfolded(0);
    SliceSpelled(data, 0, EncodeAll(ps));
  }

  lemma OneMessage(data: seq<Byte>, ps: seq<Piece>)
    requires Message(ps) && EncodeAll(ps) == data
    ensures Read(data, 0) == Some(ps)
  {
    WholeRemains(ps);
    EncodedRead(data, 0, ps);
  }

  /** The scanner accepts exactly the encodings of acceptable messages, the last field whole or cut short. */
  lemma AcceptsExactly(data: seq<Byte>)
    ensures Accepts(data) <==> exists ps :: Message(ps) && EncodeAll(ps) == data && Acceptable(ps)
  {
    if Accepts(data) {
      ReadSpelled(data, 0);
      RemainsWhole(data, Read(data, 0).value);
    }
    if ps :| Message(ps) && EncodeAll(ps) == data && Acceptable(ps) {
      OneMessage(data, ps);
    }
  }

  /** Every encoding of whole fields is accepted if its versions are sensible, and version and graph are there. */
  lemma WholeAccepted(ps: seq<Piece>)
    requires (forall i :: 0 <= i < |ps| ==> WellFormed(ps[i]) && Whole(ps[i])) && Acceptable(ps)
    ensures Accepts(EncodeAll(ps))
  {
    OneMessage(EncodeAll(ps), ps);
  }

  lemma AcceptableMore(ps: seq<Piece>, p: Piece)
    requires Acceptable(ps) && SensibleVersion(p)
    ensures Acceptable(ps + [p])
  {
    var all := ps + [p];
    var i :| 0 <= i < |ps| && IsVersion(ps[i]);
    assert IsVersion(all[i]);
    var j :| 0 <= j < |ps| && IsGraph(ps[j]);
    assert IsGraph(all[j]);
  }

  /** So is every such encoding with a field after it that breaks off: a number without its last byte, fixed bytes too
      few, or a length without its last byte that says nothing so far. */
  lemma CutAccepted(ps: seq<Piece>, p: Piece)
    requires (forall i :: 0 <= i < |ps| ==> WellFormed(ps[i]) && Whole(ps[i])) && Acceptable(ps)
    requires WellFormed(p) && !Whole(p) && SensibleVersion(p)
    ensures Message(ps + [p]) && Accepts(EncodeAll(ps + [p]))
  {
    AcceptableMore(ps, p);
    OneMessage(EncodeAll(ps + [p]), ps + [p]);
  }

  ghost predicate WholeEncoding(ps: seq<Piece>, data: seq<Byte>) {
    Message(ps) && EncodeAll(ps) == data && forall i :: 0 <= i < |ps| ==> Whole(ps[i])
  }

  /** Data that can be read is the encoding of whole fields exactly when the last field read is whole. */
  lemma WholeExactly(data: seq<Byte>)
    requires Read(data, 0).Some? && data != []
    ensures (exists ps :: WholeEncoding(ps, data)) <==> Whole(Read(data, 0).value[|Read(data, 0).value| - 1])
  {
    ReadSpelled(data, 0);
    RemainsWhole(data, Read(data, 0).value);
    WholeMessage(data, Read(data, 0).value);
  }

  lemma SameMessage(data: seq<Byte>, ps: seq<Piece>, other: seq<Piece>)
    requires Message(ps) && EncodeAll(ps) == data && WholeEncoding(other, data)
    ensures other == ps
  {
    OneMessage(data, other);
    OneMessage(data, ps);
  }

  lemma LastWhole(ps: seq<Piece>)
    requires Message(ps) && ps != []
    ensures WholeEncoding(ps, EncodeAll(ps)) <==> Whole(ps[|ps| - 1])
  {
  }

  lemma WholeMessage(data: seq<Byte>, ps: seq<Piece>)
    requires Message(ps) && EncodeAll(ps) == data && ps != []
    ensures (exists other :: WholeEncoding(other, data)) <==> Whole(ps[|ps| - 1])
  {
    LastWhole(ps);
    if other :| WholeEncoding(other, data) {
      SameMessage(data, ps, other);
    }
  }

  // ----- Numbers and their digits -----

  /** The base-128 digits of a number. */
  function DigitsOf(n: nat): (digits: seq<nat>)
    ensures Digits(digits) && digits != []
  {
    if n < 128 then [n] else [n % 128] + DigitsOf(n / 128)
  }

  lemma {:induction false} ValueOfDigits(n: nat)
    ensures Value(DigitsOf(n)) == n
  {
    if n >= 128 {
      ValueOfDigits(n / 128);
      assert DigitsOf(n)[1..] == DigitsOf(n / 128);
    }
  }

  lemma {:induction false} DigitsFit(n: nat, k: nat)
    requires k > 0 && n < Pow2(7 * k)
    ensures |DigitsOf(n)| <= k
  {
    Pow2Seven(k - 1);
    assert Pow2(0) == 1;
    if n >= 128 && k > 1 {
      DigitsFit(n / 128, k - 1);
    }
  }

  lemma Pow2Seven(k: nat)
    ensures Pow2(7 * (k + 1)) == 128 * Pow2(7 * k)
  {
    var p := 7 * k;
    assert Pow2(p + 7) == 2 * Pow2(p + 6) == 4 * Pow2(p + 5) == 8 * Pow2(p + 4) == 16 * Pow2(p + 3);
    assert Pow2(p + 3) == 2 * Pow2(p + 2) == 4 * Pow2(p + 1) == 8 * Pow2(p);
  }

  /** A number below 2^70, written in base 128, is read back; so is one below 2^35 as a length. */
  lemma VarintRoundTrip(n: nat, limit: nat, front: seq<Byte>, back: seq<Byte>)
    requires limit > 0 && n < Pow2(7 * limit)
    ensures var r := ReadVarint(front + Varint(DigitsOf(n), true) + back, |front|, limit);
      r.Some? && r.value.ended && Value(r.value.digits) == n && r.value.next == |front| + |Varint(DigitsOf(n), true)|
  {
    assert Unfolded(0);
    var bytes := Varint(DigitsOf(n), true);
    var data := front + bytes + back;
    DigitsFit(n, limit);
    VarintLength(DigitsOf(n), true);
    forall i | 0 <= i < |bytes|
      ensures data[|front| + i] == bytes[i]
    {
      assert (front + bytes)[|front| + i] == bytes[i];
    }
    VarintRead(data, |front|, limit, DigitsOf(n), true);
    ValueOfDigits(n);
  }

  // ----- The scanner itself -----

  /** Bitwise or. */
  function Or(a: nat, b: nat): nat {
    if a == 0 then b else 2 * Or(a / 2, b / 2) + (if a % 2 == 1 || b % 2 == 1 then 1 else 0)
  }

  /** Bits that do not meet add up. */
  lemma {:induction false} OrShifted(a: nat, b: nat, shift: nat)
    requires a < Pow2(shift)
    ensures Or(a, b * Pow2(shift)) == a + b * Pow2(shift)
  {
    if a > 0 {
      var c := b * Pow2(shift - 1);
      Doubled(b, Pow2(shift - 1));
      OrShifted(a / 2, b, shift - 1);
    }
  }

  lemma Doubled(b: nat, p: nat)
    ensures b * (2 * p) == 2 * (b * p)
  {
  }

  lemma {:induction false} ValueSnoc(digits: seq<nat>, d: nat)
    ensures Value(digits + [d]) == Value(digits) + d * Pow2(7 * |digits|)
  {
    if digits == [] {
      assert [d][1..] == [];
    } else {
      var rest := digits[1..];
      assert (digits + [d])[1..] == rest + [d];
      ValueSnoc(rest, d);
      Pow2Seven(|rest|);
      Scaled(d, Pow2(7 * |rest|));
    }
  }

  lemma Scaled(d: nat, p: nat)
    ensures 128 * (d * p) == d * (128 * p)
  {
  }

  lemma {:induction false} ValueBound(digits: seq<nat>)
    requires Digits(digits)
    ensures Value(digits) < Pow2(7 * |digits|)
  {
    if digits != [] {
      ValueBound(digits[1..]);
      Pow2Seven(|digits| - 1);
    }
  }

  /** What has been read of a varint, before what is still to come. */
  function Before(digits: seq<nat>, rest: Option<Run>): Option<Run> {
    if rest.None? then None else Some(rest.value.(digits := digits + rest.value.digits))
  }

  lemma BeforeNothing(rest: Option<Run>)
    ensures Before([], rest) == rest
  {
    if rest.Some? {
      assert [] + rest.value.digits == rest.value.digits;
    }
  }

  /** `digits` have been read when the loop stands at `at`. */
  ghost predicate Assembled(data: seq<Byte>, from: nat, limit: nat, at: nat, digits: seq<nat>)
    requires from <= |data| && at <= |data| && |digits| < limit
  {
    forall k {:trigger Unfolded(k)} :: Unfolded(k) ==>
      ReadVarint(data, from, limit) == Before(digits, ReadVarint(data, at, limit - |digits|))
  }

  lemma AssembledStart(data: seq<Byte>, from: nat, limit: nat)
    requires from <= |data| && limit > 0
    ensures Assembled(data, from, limit, from, [])
  {
    BeforeNothing(ReadVarint(data, from, limit));
  }

  lemma AssembledLast(data: seq<Byte>, from: nat, limit: nat, at: nat, digits: seq<nat>)
    requires from <= |data| && at < |data| && |digits| < limit && Assembled(data, from, limit, at, digits)
    requires data[at] < 128
    ensures ReadVarint(data, from, limit) == Some(Run(digits + [data[at] % 128], true, at + 1))
  {
    assert Unfolded(0);
  }

  lemma AssembledEnd(data: seq<Byte>, from: nat, limit: nat, digits: seq<nat>)
    requires from <= |data| && |digits| < limit && Assembled(data, from, limit, |data|, digits)
    ensures ReadVarint(data, from, limit) == Some(Run(digits, false, |data|))
  {
    assert Unfolded(0);
    assert digits + [] == digits;
  }

  lemma AssembledOverflow(data: seq<Byte>, from: nat, limit: nat, at: nat, digits: seq<nat>)
    requires from <= |data| && at < |data| && |digits| == limit - 1 && Assembled(data, from, limit, at, digits)
    requires data[at] >= 128
    ensures ReadVarint(data, from, limit) == None
  {
    assert Unfolded(0);
  }

  lemma AssembledMore(data: seq<Byte>, from: nat, limit: nat, at: nat, digits: seq<nat>)
    requires from <= |data| && at < |data| && |digits| < limit - 1 && Assembled(data, from, limit, at, digits)
    requires data[at] >= 128
    ensures Assembled(data, from, limit, at + 1, digits + [data[at] % 128])
  {
    assert Unfolded(0);
    var rest := ReadVarint(data, at + 1, limit - |digits| - 1);
    if rest.Some? {
      assert digits + ([data[at] - 128] + rest.value.digits) == digits + [data[at] - 128] + rest.value.digits;
    }
  }

  lemma ValueStep(digits: seq<nat>, d: nat)
    requires Digits(digits) && d < 128
    ensures Or(Value(digits), d * Pow2(7 * |digits|)) == Value(digits + [d])
  {
    ValueBound(digits);
    OrShifted(Value(digits), d, 7 * |digits|);
    ValueSnoc(digits, d);
  }

  /** The loop that assembles a number from seven bits at a time; `most` is the largest shift. */
  method AssembleVarint(data: seq<Byte>, from: nat, most: nat) returns (overflow: bool, val: nat, idx: nat)
    requires from <= |data|
    ensures overflow <==> ReadVarint(data, from, most / 7 + 1).None?
    ensures !overflow ==>
      var r := ReadVarint(data, from, most / 7 + 1).value; val == Value(r.digits) && idx == r.next
  {
    idx, val := from, 0;
    var shift := 0;
    ghost var digits: seq<nat> := [];
    ghost var limit := most / 7 + 1;
    AssembledStart(data, from, limit);
    while idx < |data|
      invariant from <= idx <= |data| && shift == 7 * |digits| && |digits| < limit
      invariant Digits(digits) && val == Value(digits)
      invariant Assembled(data, from, limit, idx, digits)
      decreases |data| - idx
    {
      var b := data[idx];
      ValueStep(digits, b % 128);
      val := Or(val, (b % 128) * Pow2(shift));
      idx := idx + 1;
      if b < 128 {
        AssembledLast(data, from, limit, idx - 1, digits);
        return false, val, idx;
      }
      shift := shift + 7;
      if shift > most {
        AssembledOverflow(data, from, limit, idx - 1, digits);
        return true, val, idx;
      }
      AssembledMore(data, from, limit, idx - 1, digits);
      digits := digits + [b % 128];
    }
    AssembledEnd(data, from, limit, digits);
    overflow := false;
  }

  lemma ThenAssoc(a: seq<Piece>, b: seq<Piece>, rest: Option<seq<Piece>>)
    ensures Then(a, Then(b, rest)) == Then(a + b, rest)
  {
    if rest.Some? {
      assert a + (b + rest.value) == a + b + rest.value;
    }
  }

  lemma ThenNothing(rest: Option<seq<Piece>>)
    ensures Then([], rest) == rest
  {
    if rest.Some? {
      assert [] + rest.value == rest.value;
    }
  }

  ghost predicate Seen(ps: seq<Piece>, version: bool, graph: bool) {
    && (forall i :: 0 <= i < |ps| ==> SensibleVersion(ps[i]))
    && (version <==> exists i :: 0 <= i < |ps| && IsVersion(ps[i]))
    && (graph <==> exists i :: 0 <= i < |ps| && IsGraph(ps[i]))
  }

  lemma SeenMore(ps: seq<Piece>, version: bool, graph: bool, p: Piece)
    requires Seen(ps, version, graph) && SensibleVersion(p)
    ensures Seen(ps + [p], version || IsVersion(p), graph || IsGraph(p))
  {
    var all := ps + [p];
    assert all[|ps|] == p;
    assert forall i :: 0 <= i < |ps| ==> all[i] == ps[i];
  }

  /** A version out of range ends the scan, whatever follows. */
  lemma Insensible(ps: seq<Piece>, p: Piece, rest: Option<seq<Piece>>)
    requires !SensibleVersion(p)
    ensures var all := Then(ps + [p], rest); all.Some? ==> !Acceptable(all.value)
  {
    if rest.Some? {
      assert (ps + [p] + rest.value)[|ps|] == p;
    }
  }

  /** One turn of the scan: the field at `at`, whether its version is out of range, and where it ends. */
  method ScanField(data: seq<Byte>, at: nat) returns (ok: bool, version: bool, graph: bool, idx: nat)
    requires at < |data|
    ensures ok <==> ReadPiece(data, at).Some? && SensibleVersion(ReadPiece(data, at).value.piece)
    ensures ok ==>
      var step := ReadPiece(data, at).value;
      idx == step.next && version == IsVersion(step.piece) && graph == IsGraph(step.piece)
  {
    var tag := data[at];
    idx, version, graph := at + 1, false, false;
    var num, wire := tag / 8, tag % 8;
    if num == 0 || wire !in {0, 1, 2, 5} {
      return false, version, graph, idx;
    }
    if wire == 0 {
      var overflow, val;
      overflow, val, idx := AssembleVarint(data, idx, 64);
      if overflow {
        return false, version, graph, idx;
      }
      if num == 1 {
        if val < 3 || val > 20 {
          return false, version, graph, idx;
        }
        version := true;
      }
    } else if wire == 1 {
      idx := idx + 8;
    } else if wire == 5 {
      idx := idx + 4;
    } else {
      var overflow, length;
      overflow, length, idx := AssembleVarint(data, idx, 32);
      if overflow || idx + length > |data| {
        return false, version, graph, idx;
      }
      graph := num == 8;
      idx := idx + length;
    }
    ok := true;
  }

  lemma ReadStep(data: seq<Byte>, at: nat, ps: seq<Piece>)
    requires at < |data| && ReadPiece(data, at).Some? && Read(data, 0) == Then(ps, Read(data, at))
    ensures var step := ReadPiece(data, at).value; Read(data, 0) == Then(ps + [step.piece], Read(data, step.next))
  {
    var step := ReadPiece(data, at).value;
    ThenAssoc(ps, [step.piece], Read(data, step.next));
  }

  lemma ScanStops(data: seq<Byte>, at: nat, ps: seq<Piece>)
    requires at < |data| && Read(data, 0) == Then(ps, Read(data, at))
    requires ReadPiece(data, at).None? || !SensibleVersion(ReadPiece(data, at).value.piece)
    ensures !Accepts(data)
  {
    if ReadPiece(data, at).Some? {
      var step := ReadPiece(data, at).value;
      ReadStep(data, at, ps);
      Insensible(ps, step.piece, Read(data, step.next));
    }
  }

  lemma ScanEnds(data: seq<Byte>, ps: seq<Piece>, version: bool, graph: bool)
    requires Read(data, 0) == Then(ps, Some([])) && Seen(ps, version, graph)
    ensures Accepts(data) <==> version && graph
  {
    assert ps + [] == ps;
  }

  /** The scan of the fallback: no index leaves the data, it ends, and its verdict is the one specified. */
  method Scan(data: seq<Byte>) returns (ok: bool)
    ensures ok <==> Accepts(data)
  {
    var idx := 0;
    var hasVersion, hasGraph := false, false;
    ghost var ps: seq<Piece> := [];
    ThenNothing(Read(data, 0));
    while idx < |data|
      invariant Read(data, 0) == Then(ps, Read(data, idx)) && Seen(ps, hasVersion, hasGraph)
      decreases |data| - idx
    {
      var version, graph, next;
      ok, version, graph, next := ScanField(data, idx);
      if !ok {
        ScanStops(data, idx, ps);
        return;
      }
      ghost var p := ReadPiece(data, idx).value.piece;
      ReadStep(data, idx, ps);
      SeenMore(ps, hasVersion, hasGraph, p);
      hasVersion, hasGraph := hasVersion || version, hasGraph || graph;
      ps := ps + [p];
      idx := next;
    }
    ScanEnds(data, ps, hasVersion, hasGraph);
    return hasVersion && hasGraph;
  }
}
