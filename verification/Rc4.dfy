/** The fixture cipher: its state is a permutation at every step, and it undoes itself. */
module Rc4 {
  import opened Outcome
  import opened Bytes
  import opened Folding
  import opened Powers

  // ----- Exclusive or -----

  /** Bit by bit, for numbers of `bits` bits. */
  function Bits(a: nat, b: nat, bits: nat): nat {
    if bits == 0 then 0 else 2 * Bits(a / 2, b / 2, bits - 1) + (a + b) % 2
  }

  lemma {:induction false} BitsBound(a: nat, b: nat, bits: nat)
    ensures Bits(a, b, bits) < Pow2(bits)
  {
    if bits > 0 {
      BitsBound(a / 2, b / 2, bits - 1);
    }
  }

  lemma Halved(q: nat, r: nat)
    requires r < 2
    ensures (2 * q + r) / 2 == q && (2 * q + r) % 2 == r
  {
  }

  lemma ParityUndone(a: nat, b: nat)
    ensures ((a + b) % 2 + b) % 2 == a % 2
  {
  }

  lemma {:induction false} BitsUndone(a: nat, b: nat, bits: nat)
    requires a < Pow2(bits)
    ensures Bits(Bits(a, b, bits), b, bits) == a
  {
    if bits > 0 {
      var q := Bits(a / 2, b / 2, bits - 1);
      Halved(q, (a + b) % 2);
      BitsUndone(a / 2, b / 2, bits - 1);
      LastBit(q, (a + b) % 2, b);
      ParityUndone(a, b);
    }
  }

  lemma LastBit(q: nat, r: nat, b: nat)
    ensures (2 * q + r + b) % 2 == (r + b) % 2
  {
  }

  lemma Byte8()
    ensures Pow2(8) == 256
  {
    assert Pow2(4) == 16;
    assert Pow2(8) == 2 * Pow2(7) == 4 * Pow2(6) == 8 * Pow2(5) == 16 * Pow2(4);
  }

  /** `^` on bytes. */
  function Xor(a: Byte, b: Byte): Byte {
    Byte8();
    BitsBound(a, b, 8);
    Bits(a, b, 8)
  }

  lemma XorUndone(a: Byte, b: Byte)
    ensures Xor(Xor(a, b), b) == a
  {
    Byte8();
    BitsUndone(a, b, 8);
  }

  // ----- The state -----

  predicate IsState(s: seq<Byte>) {
    |s| == 256
  }

  function Swap(s: seq<Byte>, i: nat, j: nat): (t: seq<Byte>)
    requires i < |s| && j < |s|
    ensures |t| == |s|
  {
    s[i := s[j]][j := s[i]]
  }

  function Identity(): (s: seq<Byte>)
    ensures IsState(s)
  {
    seq(256, i requires 0 <= i < 256 => i as Byte)
  }

  datatype Machine = Machine(state: seq<Byte>, i: nat, j: nat)

  predicate Ready(m: Machine) {
    IsState(m.state) && m.i < 256 && m.j < 256
  }

  /** The state and `j` after `n` steps of the key schedule. */
  function Scheduled(key: seq<Byte>, n: nat): (m: Machine)
    requires key != [] && n <= 256
    ensures IsState(m.state) && m.i == n && m.j < 256
  {
    if n == 0 then Machine(Identity(), 0, 0)
    else
      var m := Scheduled(key, n - 1);
      var j := Sum(m.j + m.state[n - 1] as int, key[(n - 1) % |key|]);
      Machine(Swap(m.state, n - 1, j), n, j)
  }

  function Sum(a: nat, b: nat): (c: nat)
    ensures c < 256
  {
    (a + b) % 256
  }

  /** One step of the generator. */
  function Step(m: Machine): (next: Machine)
    requires Ready(m)
    ensures Ready(next)
  {
    var i := Sum(m.i, 1);
    var j := Sum(m.j, m.state[i]);
    Machine(Swap(m.state, i, j), i, j)
  }

  function Output(m: Machine): Byte
    requires Ready(m)
  {
    m.state[Sum(m.state[m.i], m.state[m.j])]
  }

  /** The machine after `n` bytes. */
  function After(key: seq<Byte>, n: nat): (m: Machine)
    requires key != []
    ensures Ready(m)
  {
    if n == 0 then Scheduled(key, 256).(i := 0, j := 0) else Step(After(key, n - 1))
  }

  /** The byte of the key stream at `n`: it does not depend on the data. */
  function KeyByte(key: seq<Byte>, n: nat): Byte
    requires key != []
  {
    Output(After(key, n + 1))
  }

  /** `rc4`; an empty key is a division by zero. */
  function Cipher(key: seq<Byte>, data: seq<Byte>): (r: Option<seq<Byte>>)
    ensures r.None? <==> key == []
    ensures r.Some? ==> |r.value| == |data|
  {
    if key == [] then None else Some(seq(|data|, k requires 0 <= k < |data| => Xor(data[k], KeyByte(key, k))))
  }

  lemma SwapPermutes(s: seq<Byte>, i: nat, j: nat)
    requires i < |s| && j < |s|
    ensures multiset(Swap(s, i, j)) == multiset(s)
  {
  }

  lemma {:induction false} SchedulePermutes(key: seq<Byte>, n: nat)
    requires key != [] && n <= 256
    ensures multiset(Scheduled(key, n).state) == multiset(Identity())
  {
    if n > 0 {
      SchedulePermutes(key, n - 1);
      SwapPermutes(Scheduled(key, n - 1).state, n - 1, Scheduled(key, n).j);
    }
  }

  /** The same values as at the start, each once. */
  ghost predicate Permuted(s: seq<Byte>) {
    forall k {:trigger Unfolded(k)} :: Unfolded(k) ==> multiset(s) == multiset(Identity())
  }

  lemma StepPermutes(m: Machine)
    requires Ready(m) && Permuted(m.state)
    ensures Permuted(Step(m).state)
  {
    assert Unfolded(0);
    var i := Sum(m.i, 1);
    SwapPermutes(m.state, i, Sum(m.j, m.state[i]));
  }

  lemma StartPermutes(key: seq<Byte>)
    requires key != []
    ensures Permuted(After(key, 0).state)
  {
    SchedulePermutes(key, 256);
  }

  lemma {:induction false} AfterPermutes(key: seq<Byte>, n: nat)
    requires key != []
    ensures Permuted(After(key, n).state)
  {
    if n == 0 {
      StartPermutes(key);
    } else {
      AfterPermutes(key, n - 1);
      StepPermutes(After(key, n - 1));
    }
  }

  /** The state is a permutation of the byte values at every step. */
  lemma StatePermutes(key: seq<Byte>, n: nat)
    requires key != []
    ensures multiset(After(key, n).state) == multiset(Identity())
  {
    AfterPermutes(key, n);
    assert Unfolded(0);
  }

  /** Enciphering twice gives the data back. */
  lemma CipherUndone(key: seq<Byte>, data: seq<Byte>)
    requires key != []
    ensures Cipher(key, Cipher(key, data).value) == Some(data)
  {
    var once := Cipher(key, data).value;
    var twice := Cipher(key, once).value;
    forall k | 0 <= k < |data|
      ensures twice[k] == data[k]
    {
      XorUndone(data[k], KeyByte(key, k));
    }
    assert twice == data;
  }

  // ----- In place -----

  method SwapAt(a: array<Byte>, i: nat, j: nat)
    requires i < a.Length && j < a.Length
    modifies a
    ensures a[..] == Swap(old(a[..]), i, j)
  {
    a[i], a[j] := a[j], a[i];
  }

  /** One step of the key schedule. */
  method Mix(key: seq<Byte>, state: array<Byte>, i: nat, j: nat) returns (next: nat)
    requires key != [] && state.Length == 256 && i < 256 && j < 256
    requires Machine(state[..], i, j) == Scheduled(key, i)
    modifies state
    ensures Machine(state[..], i + 1, next) == Scheduled(key, i + 1)
  {
    next := Sum(j + state[i] as int, key[i % |key|]);
    SwapAt(state, i, next);
  }

  method Schedule(key: seq<Byte>, state: array<Byte>)
    requires key != [] && state.Length == 256 && state[..] == Identity()
    modifies state
    ensures state[..] == Scheduled(key, 256).state
  {
    var j := 0;
    for i := 0 to 256
      invariant j < 256 && Machine(state[..], i, j) == Scheduled(key, i)
    {
      j := Mix(key, state, i, j);
    }
  }

  /** One step of the generator, and the byte it gives. */
  method Generate(state: array<Byte>, i: nat, j: nat) returns (byte: Byte, p: nat, q: nat)
    requires state.Length == 256 && i < 256 && j < 256
    modifies state
    ensures p < 256 && q < 256 && Machine(state[..], p, q) == Step(Machine(old(state[..]), i, j))
    ensures byte == Output(Machine(state[..], p, q))
  {
    p := Sum(i, 1);
    q := Sum(j, state[p]);
    SwapAt(state, p, q);
    byte := state[Sum(state[p], state[q])];
  }

  ghost predicate IsAfter(key: seq<Byte>, n: nat, m: Machine)
    requires key != []
  {
    forall k {:trigger Unfolded(k)} :: Unfolded(k) ==> m == After(key, n)
  }

  lemma Started(key: seq<Byte>, state: seq<Byte>)
    requires key != [] && state == Scheduled(key, 256).state
    ensures IsAfter(key, 0, Machine(state, 0, 0))
  {
  }

  lemma Stepped(key: seq<Byte>, n: nat, m: Machine)
    requires key != [] && Ready(m) && IsAfter(key, n, m)
    ensures IsAfter(key, n + 1, Step(m)) && Output(Step(m)) == KeyByte(key, n)
  {
    assert Unfolded(0);
  }

  /** `rc4`, on one array. */
  method Encipher(key: seq<Byte>, data: seq<Byte>) returns (out: Option<seq<Byte>>)
    ensures out == Cipher(key, data)
  {
    if key == [] {
      return None;
    }
    var state := new Byte[256](i requires 0 <= i < 256 => i as Byte);
    assert state[..] == Identity();
    Schedule(key, state);
    Started(key, state[..]);
    var bytes: seq<Byte> := [];
    var i, j := 0, 0;
    for n := 0 to |data|
      invariant i < 256 && j < 256 && IsAfter(key, n, Machine(state[..], i, j))
      invariant |bytes| == n && forall k :: 0 <= k < n ==> bytes[k] == Xor(data[k], KeyByte(key, k))
    {
      var byte;
      Stepped(key, n, Machine(state[..], i, j));
      byte, i, j := Generate(state, i, j);
      bytes := bytes + [Xor(data[n], byte)];
    }
    out := Some(bytes);
    assert bytes == Cipher(key, data).value;
  }
}
