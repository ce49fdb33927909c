/** The run coordinator: results of stale, duplicate and reordered messages. */
module Coordinators {
  import opened Outcome

  type Digest = string
  type Job = string

  datatype Message<V> = Message(generation: nat, digest: Option<Digest>, job: Job, number: int, value: V)

  datatype State<V> = State(generation: nat, digest: Option<Digest>, sequence: map<Job, int>, completed: map<Job, V>)

  datatype Event<V> = Replace(digest: Digest) | Deliver(message: Message<V>) | Cancel

  function Initial<V>(): State<V> {
    State(0, None, map[], map[])
  }

  /** Of this generation and this document. */
  predicate Current<V>(s: State<V>, m: Message<V>) {
    m.generation == s.generation && m.digest == s.digest
  }

  predicate Accepts<V>(s: State<V>, m: Message<V>) {
    Current(s, m) && m.number > (if m.job in s.sequence then s.sequence[m.job] else -1)
  }

  function Next<V>(s: State<V>, e: Event<V>): State<V> {
    match e
    case Replace(digest) => State(s.generation + 1, Some(digest), map[], map[])
    case Cancel => s.(generation := s.generation + 1, sequence := map[])
    case Deliver(m) =>
      if Accepts(s, m) then
        s.(sequence := s.sequence[m.job := m.number], completed := s.completed[m.job := m.value])
      else s
  }

  class Coordinator<V> {
    var generation: nat
    var digest: Option<Digest>
    var sequence: map<Job, int>
    var completed: map<Job, V>

    function Now(): State<V>
      reads this
    {
      State(generation, digest, sequence, completed)
    }

    constructor ()
      ensures Now() == Initial()
    {
      generation, digest, sequence, completed := 0, None, map[], map[];
    }

    method Replace(digest: Digest)
      modifies this
      ensures Now() == Next(old(Now()), Event.Replace(digest))
    {
      generation := generation + 1;
      this.digest := Some(digest);
      sequence := map[];
      completed := map[];
    }

    method Accept(m: Message<V>) returns (accepted: bool)
      modifies this
      ensures accepted == Accepts(old(Now()), m)
      ensures Now() == Next(old(Now()), Deliver(m))
    {
      var last := if m.job in sequence then sequence[m.job] else -1;
      if m.generation != generation || m.digest != digest || m.number <= last {
        return false;
      }
      sequence := sequence[m.job := m.number];
      completed := completed[m.job := m.value];
      return true;
    }

    method Cancel()
      modifies this
      ensures Now() == Next(old(Now()), Event.Cancel)
    {
      generation := generation + 1;
      sequence := map[];
    }
  }

  // ----- Every run -----

  /** The state after the first `k` events. */
  function At<V>(events: seq<Event<V>>, k: nat): State<V>
    requires k <= |events|
  {
    if k == 0 then Initial() else Next(At(events, k - 1), events[k - 1])
  }

  /** Event `i` is a message that was accepted. */
  predicate Accepted<V>(events: seq<Event<V>>, i: nat) {
    i < |events| && events[i].Deliver? && Accepts(At(events, i), events[i].message)
  }

  /** No document replaced the one at `i` before `k`. */
  predicate SameDocument<V>(events: seq<Event<V>>, i: nat, k: nat) {
    forall j :: i <= j < k && j < |events| ==> !events[j].Replace?
  }

  lemma {:induction false} GenerationGrows<V>(events: seq<Event<V>>, i: nat, k: nat)
    requires i <= k <= |events|
    ensures At(events, i).generation <= At(events, k).generation
    ensures At(events, i).generation == At(events, k).generation ==>
      forall j {:trigger events[j]} :: i <= j < k ==> events[j].Deliver?
  {
    if i < k {
      GenerationGrows(events, i, k - 1);
    }
  }

  /** While the generation lasts, what a job has reached is kept or exceeded. */
  lemma {:induction false} SequenceGrows<V>(events: seq<Event<V>>, i: nat, k: nat, job: Job)
    requires i <= k <= |events| && At(events, i).generation == At(events, k).generation
    requires job in At(events, i).sequence
    ensures job in At(events, k).sequence && At(events, i).sequence[job] <= At(events, k).sequence[job]
  {
    if i < k {
      GenerationGrows(events, i, k - 1);
      GenerationGrows(events, k - 1, k);
      SequenceGrows(events, i, k - 1, job);
    }
  }

  /** Accepted messages of one job carry the generation and document of the moment, and growing sequence numbers. */
  lemma AcceptedGrow<V>(events: seq<Event<V>>, i: nat, k: nat)
    requires i < k && Accepted(events, i) && Accepted(events, k)
    requires events[i].message.job == events[k].message.job
    requires events[i].message.generation == events[k].message.generation
    ensures events[i].message.digest == events[k].message.digest
    ensures events[i].message.number < events[k].message.number
  {
    GenerationGrows(events, i, i + 1);
    GenerationGrows(events, i + 1, k);
    SequenceGrows(events, i + 1, k, events[i].message.job);
    DigestKept(events, i, k);
  }

  lemma {:induction false} DigestKept<V>(events: seq<Event<V>>, i: nat, k: nat)
    requires i <= k <= |events| && SameDocument(events, i, k)
    ensures At(events, i).digest == At(events, k).digest
  {
    if i < k {
      DigestKept(events, i, k - 1);
    }
  }

  /** `completed[job]` is the value of the last accepted message for the job under the present document, and of no
      earlier one. */
  predicate Explained<V>(events: seq<Event<V>>, k: nat, job: Job, i: nat)
    requires k <= |events|
  {
    && i < k && Accepted(events, i) && events[i].message.job == job && SameDocument(events, i, k)
    && (forall j :: i < j < k && Accepted(events, j) ==> events[j].message.job != job)
  }

  lemma {:induction false} CompletedExplained<V>(events: seq<Event<V>>, k: nat, job: Job) returns (i: nat)
    requires k <= |events| && job in At(events, k).completed
    ensures Explained(events, k, job, i)
    ensures events[i].message.value == At(events, k).completed[job]
    ensures events[i].message.digest == At(events, k).digest
  {
    if Accepted(events, k - 1) && events[k - 1].message.job == job {
      i := k - 1;
    } else {
      i := CompletedExplained(events, k - 1, job);
    }
    DigestKept(events, i, k);
  }

  /** The other direction: an accepted result that no other replaced is there, cancelled or not. */
  lemma {:induction false} CompletedKept<V>(events: seq<Event<V>>, k: nat, job: Job, i: nat)
    requires k <= |events| && Explained(events, k, job, i)
    ensures job in At(events, k).completed && At(events, k).completed[job] == events[i].message.value
  {
    if i < k - 1 {
      CompletedKept(events, k - 1, job, i);
      assert !(Accepted(events, k - 1) && events[k - 1].message.job == job);
    }
  }

  // ----- Any order, any repetition -----

  function DeliverAll<V>(s: State<V>, messages: seq<Message<V>>): State<V> {
    if messages == [] then s
    else
      var n := |messages| - 1;
      Next(DeliverAll(s, messages[..n]), Deliver(messages[n]))
  }

  /** A message that counts: above what its job has reached in `s`. */
  predicate Counts<V>(s: State<V>, m: Message<V>, job: Job) {
    m.job == job && Accepts(s, m)
  }

  /** A message of the greatest sequence number for the job. */
  ghost predicate Top<V>(s: State<V>, messages: set<Message<V>>, job: Job, m: Message<V>) {
    m in messages && Counts(s, m, job) && forall n :: n in messages && Counts(s, n, job) ==> n.number <= m.number
  }

  ghost function Delivered<V>(messages: seq<Message<V>>): set<Message<V>> {
    set m | m in messages
  }

  /** `t` differs from `s` for the job by the message `m`, one of greatest sequence number, if by any. */
  ghost predicate Wins<V>(s: State<V>, t: State<V>, all: set<Message<V>>, job: Job, m: Option<Message<V>>) {
    && t.generation == s.generation && t.digest == s.digest
    && (m.None? ==>
          && (forall n :: n in all ==> !Counts(s, n, job))
          && (job in t.sequence <==> job in s.sequence)
          && (job in s.sequence ==> t.sequence[job] == s.sequence[job])
          && (job in t.completed <==> job in s.completed)
          && (job in s.completed ==> t.completed[job] == s.completed[job]))
    && (m.Some? ==>
          && Top(s, all, job, m.value)
          && job in t.sequence && t.sequence[job] == m.value.number
          && job in t.completed && t.completed[job] == m.value.value)
  }

  lemma WinsStep<V>(s: State<V>, t: State<V>, all: set<Message<V>>, job: Job, m: Option<Message<V>>, last: Message<V>)
    requires Wins(s, t, all, job, m)
    ensures Wins(s, Next(t, Deliver(last)), all + {last}, job,
      if Counts(s, last, job) && (m.None? || m.value.number < last.number) then Some(last) else m)
  {
  }

  /** After any delivery each job has the value of a message of its greatest sequence number among those that count;
      a job without such messages keeps what it had. */
  lemma {:induction false} TopWins<V>(s: State<V>, messages: seq<Message<V>>, job: Job) returns (m: Option<Message<V>>)
    ensures Wins(s, DeliverAll(s, messages), Delivered(messages), job, m)
  {
    if messages == [] {
      m := None;
    } else {
      var n := |messages| - 1;
      var last := messages[n];
      m := TopWins(s, messages[..n], job);
      WinsStep(s, DeliverAll(s, messages[..n]), Delivered(messages[..n]), job, m, last);
      assert messages == messages[..n] + [last];
      assert Delivered(messages) == Delivered(messages[..n]) + {last};
      if Counts(s, last, job) && (m.None? || m.value.number < last.number) {
        m := Some(last);
      }
    }
  }

  /** Messages of the greatest sequence number for a job agree in value. */
  ghost predicate TopsAgree<V(!new)>(s: State<V>, messages: set<Message<V>>) {
    forall job, m, n {:trigger Top(s, messages, job, m), Top(s, messages, job, n)} ::
      Top(s, messages, job, m) && Top(s, messages, job, n) ==> m.value == n.value
  }

  /** Two deliveries of the same messages end in the same state. */
  lemma Converges<V(!new)>(s: State<V>, a: seq<Message<V>>, b: seq<Message<V>>)
    requires Delivered(a) == Delivered(b) && TopsAgree(s, Delivered(a))
    ensures DeliverAll(s, a) == DeliverAll(s, b)
  {
    var x, y := DeliverAll(s, a), DeliverAll(s, b);
    forall job
      ensures job in x.sequence <==> job in y.sequence
      ensures job in x.sequence ==> x.sequence[job] == y.sequence[job]
      ensures job in x.completed <==> job in y.completed
      ensures job in x.completed ==> x.completed[job] == y.completed[job]
    {
      var m := TopWins(s, a, job);
      var n := TopWins(s, b, job);
    }
    var none := TopWins(s, a, "");
    none := TopWins(s, b, "");
    assert x.sequence == y.sequence;
    assert x.completed == y.completed;
  }

  /** Of messages of one greatest sequence number the first delivered wins. */
  lemma {:induction false} FirstTopWins<V>(s: State<V>, m: Message<V>, rest: seq<Message<V>>, job: Job)
    requires Top(s, Delivered([m] + rest), job, m)
    ensures var t := DeliverAll(s, [m] + rest);
      && job in t.sequence && t.sequence[job] == m.number
      && job in t.completed && t.completed[job] == m.value
  {
    var all := [m] + rest;
    if rest == [] {
      assert all[..0] == [];
    } else {
      var n := |rest| - 1;
      assert all[..|all| - 1] == [m] + rest[..n];
      assert m in [m] + rest[..n];
      FirstTopWins(s, m, rest[..n], job);
      var none := TopWins(s, [m] + rest[..n], job);
      assert rest[n] in all;
    }
  }

  /** And only then: if two of them differ, the order decides. */
  lemma OrderDecides<V>(s: State<V>, messages: seq<Message<V>>, job: Job, m: Message<V>, n: Message<V>)
    requires Top(s, Delivered(messages), job, m) && Top(s, Delivered(messages), job, n)
    requires m.value != n.value
    ensures Delivered([m] + messages) == Delivered(messages) == Delivered([n] + messages)
    ensures DeliverAll(s, [m] + messages) != DeliverAll(s, [n] + messages)
  {
    assert Delivered([m] + messages) == Delivered(messages);
    assert Delivered([n] + messages) == Delivered(messages);
    FirstTopWins(s, m, messages, job);
    FirstTopWins(s, n, messages, job);
  }

  ghost predicate SameMessages<V>(a: seq<Message<V>>, b: seq<Message<V>>) {
    Delivered(a) == Delivered(b)
  }

  /** Order and repetition do not matter exactly when messages of the greatest sequence number agree. */
  lemma OrderIrrelevant<V(!new)>(s: State<V>, messages: seq<Message<V>>)
    ensures (forall a, b {:trigger SameMessages(messages, a), SameMessages(messages, b)} ::
              SameMessages(messages, a) && SameMessages(messages, b) ==> DeliverAll(s, a) == DeliverAll(s, b))
            <==> TopsAgree(s, Delivered(messages))
  {
    var all := Delivered(messages);
    if TopsAgree(s, all) {
      forall a, b | SameMessages(messages, a) && SameMessages(messages, b)
        ensures DeliverAll(s, a) == DeliverAll(s, b)
      {
        Converges(s, a, b);
      }
    } else {
      var job, m, n :| Top(s, all, job, m) && Top(s, all, job, n) && m.value != n.value;
      OrderDecides(s, messages, job, m, n);
      assert SameMessages(messages, [m] + messages) && SameMessages(messages, [n] + messages);
    }
  }
}
