/** The bounded request/response exchange with the comparison child, over three pipes. */
module ComparePump {
  import opened Outcome
  import opened Bytes

  datatype Pipe = Stdin | Stdout | Stderr

  const CHUNK: nat := 65536
  const STDERR_SAMPLE: nat := 8192

  datatype Limits = Limits(wall: nat, maxRequest: nat, maxResponse: nat, maxStderr: nat)

  /** How much of a stream passes: all, or what is through when the pipe raises. */
  function Through(raises: Option<nat>, whole: nat): (n: nat)
    ensures n <= whole
    ensures n == whole <==> raises.None? || whole <= raises.value
  {
    if raises.Some? && raises.value < whole then raises.value else whole
  }

  function AtMost<T>(s: seq<T>, n: nat): seq<T> {
    if |s| <= n then s else s[..n]
  }

  /**
   * The child and the operating system, as far as the parent can tell. Every method may answer in
   * any way its contract allows; time is counted in ticks.
   */
  class Child {
    /** All the child will ever write to its two output pipes. */
    const stdout: seq<Byte>
    const stderr: seq<Byte>
    /** Its return code, negative when a signal ended it. */
    const code: int
    /** How many bytes are through when a read of standard output, or a write, raises; `None` if none does. */
    const outRaises: Option<nat>
    const inRaises: Option<nat>
    /** The tick by which everything asked of the child has been answered. */
    const over: nat
    var outTaken: nat
    var errTaken: nat
    var received: seq<Byte>
    var now: nat
    var killed: bool

    ghost predicate Valid()
      reads this
    {
      outTaken <= Through(outRaises, |stdout|) && errTaken <= |stderr| && now <= over
    }

    /** Nothing has been asked of it yet. */
    ghost predicate Untouched()
      reads this
    {
      Valid() && outTaken == errTaken == 0 && received == [] && !killed
    }

    constructor (stdout: seq<Byte>, stderr: seq<Byte>, code: int, outRaises: Option<nat>,
                 inRaises: Option<nat>, over: nat)
      ensures Untouched() && now == 0 && this.stdout == stdout && this.stderr == stderr && this.code == code
      ensures this.outRaises == outRaises && this.inRaises == inRaises && this.over == over
    {
      this.stdout, this.stderr, this.code := stdout, stderr, code;
      this.outRaises, this.inRaises, this.over := outRaises, inRaises, over;
      outTaken, errTaken, received, killed, now := 0, 0, [], false, 0;
    }

    /** `os.write`, or -1 where it raises; a non-empty slice is never answered with 0. */
    method Write(slice: seq<Byte>) returns (written: int)
      requires Valid()
      modifies this`received
      ensures -1 <= written <= |slice| && (written == 0 ==> slice == [])
      ensures written == -1 <==> inRaises == Some(|old(received)|)
      ensures inRaises.Some? && |old(received)| <= inRaises.value ==> |received| <= inRaises.value
      ensures received == old(received) + (if written > 0 then slice[..written] else [])
    {
      if inRaises == Some(|received|) {
        return -1;
      }
      var stops := inRaises.Some? && |received| <= inRaises.value < |received| + |slice|;
      var most := if stops then inRaises.value - |received| else |slice|;
      written :| 0 <= written <= most && (written == 0 ==> slice == []);
      received := received + slice[..written];
    }

    /** `os.read` of standard output; empty at the end of the stream, and where it raises. */
    method ReadStdout() returns (chunk: seq<Byte>)
      requires Valid()
      modifies this`outTaken
      ensures Valid() && old(outTaken) <= outTaken
      ensures chunk == stdout[old(outTaken)..outTaken] && |chunk| <= CHUNK
      ensures chunk == [] <==> old(outTaken) == Through(outRaises, |stdout|)
    {
      var left := Through(outRaises, |stdout|) - outTaken;
      var n: nat :| n <= CHUNK && n <= left && (n == 0 ==> left == 0);
      chunk := stdout[outTaken..outTaken + n];
      outTaken := outTaken + n;
    }

    method ReadStderr() returns (chunk: seq<Byte>)
      requires Valid()
      modifies this`errTaken
      ensures Valid() && old(errTaken) <= errTaken
      ensures chunk == stderr[old(errTaken)..errTaken] && |chunk| <= CHUNK
    {
      var n: nat :| n <= CHUNK && errTaken + n <= |stderr|;
      chunk := stderr[errTaken..errTaken + n];
      errTaken := errTaken + n;
    }

    /** `selector.select`: distinct registered pipes; none only after the timeout has passed. */
    method Select(registered: set<Pipe>) returns (events: seq<Pipe>)
      requires Valid() && registered != {}
      modifies this`now
      ensures old(now) <= now <= over && (events == [] ==> old(now) < now)
      ensures forall i :: 0 <= i < |events| ==> events[i] in registered
      ensures forall i, j :: 0 <= i < j < |events| ==> events[i] != events[j]
    {
      var passed: nat :| now + passed <= over;
      var first, second, third: bool := *, *, *;
      events := (if first && Stdin in registered then [Stdin] else [])
        + (if second && Stderr in registered then [Stderr] else [])
        + (if third && Stdout in registered then [Stdout] else []);
      if events == [] && passed == 0 {
        var pipe :| pipe in registered;
        events := [pipe];
      }
      now := now + passed;
    }

    /** `proc.wait` until the deadline. */
    method Wait(deadline: nat) returns (exited: bool)
      requires Valid()
      modifies this`now
      ensures old(now) <= now <= over && (exited || deadline <= now)
    {
      var passed: nat :| now + passed <= over;
      now := now + passed;
      exited := *;
      if now < deadline {
        exited := true;
      }
    }

    /** SIGKILL to the child's process group. */
    method KillGroup()
      modifies this`killed
      ensures killed
    {
      killed := true;
    }
  }

  datatype Reason = Timeout | OutputLimit(pipe: Pipe)

  datatype Ending = Returned(stdout: seq<Byte>, stderrTail: seq<Byte>) | Raised(reason: Reason, stderrTail: seq<Byte>)

  /** The child needs no more than its time, and writes no more than the caps allow. */
  ghost predicate Modest(child: Child, limits: Limits, start: nat) {
    && child.over < start + limits.wall
    && Through(child.outRaises, |child.stdout|) <= limits.maxResponse
    && |child.stderr| <= limits.maxStderr
  }

  /** The local variables of `_pump`. */
  class Pump {
    const limits: Limits
    const request: seq<Byte>
    const child: Child
    var registered: set<Pipe>
    var offset: nat
    var out: seq<Byte>
    var err: seq<Byte>
    var outCount: nat
    var errCount: nat

    constructor (limits: Limits, request: seq<Byte>, child: Child)
      requires child.Untouched()
      ensures this.limits == limits && this.request == request && this.child == child
      ensures Retained() && registered == {Stdin, Stdout, Stderr}
    {
      this.limits, this.request, this.child := limits, request, child;
      registered := {Stdin, Stdout, Stderr};
      offset, out, err, outCount, errCount := 0, [], [], 0, 0;
    }

    /** What holds whatever happened so far, also when an error is about to be raised. */
    ghost predicate Bounded()
      reads this, child
    {
      && child.Valid()
      && out <= child.stdout && |out| <= limits.maxResponse
      && err == AtMost(child.stderr[..child.errTaken], STDERR_SAMPLE)
      && offset <= |request| && child.received == request[..offset]
      && outCount == child.outTaken && errCount == child.errTaken
    }

    /** What holds as long as nothing has been raised: every byte read so far is kept. */
    ghost predicate Retained()
      reads this, child
    {
      && Bounded()
      && out == child.stdout[..child.outTaken]
      && errCount <= limits.maxStderr
      && (Stdout !in registered ==> child.outTaken == Through(child.outRaises, |child.stdout|))
      && (Stdin !in registered ==> offset == Through(child.inRaises, |request|))
      && offset <= Through(child.inRaises, |request|)
    }

    /** Bytes that can still pass before a cap is hit or the request is sent. */
    ghost function Budget(): nat
      reads this, child
      requires Retained()
    {
      (limits.maxResponse - outCount) + (limits.maxStderr - errCount) + (|request| - offset)
    }

    method OnStdin()
      requires Retained() && Stdin in registered
      modifies this`offset, this`registered, child`received
      ensures Retained()
      ensures Stdin !in registered <==> offset == |request| || child.inRaises == Some(old(offset))
      ensures registered == old(registered) - {Stdin} || (registered == old(registered) && old(offset) < offset)
    {
      var slice := AtMost(request[offset..], CHUNK);
      var written := child.Write(slice);
      if written < 0 {
        registered := registered - {Stdin};
      } else {
        assert request[..offset] + slice[..written] == request[..offset + written];
        assert slice == [] ==> offset >= |request|;
        offset := offset + written;
        if offset >= |request| {
          registered := registered - {Stdin};
        }
      }
    }

    method OnStdout() returns (raised: bool)
      requires Retained() && Stdout in registered
      modifies this`out, this`outCount, this`registered, child`outTaken, child`killed
      ensures Bounded()
      ensures raised ==> child.killed && child.outTaken > limits.maxResponse
      ensures !raised ==> Retained() && child.killed == old(child.killed)
      ensures !raised ==>
        registered == old(registered) - {Stdout} || (registered == old(registered) && Budget() < old(Budget()))
    {
      var chunk := child.ReadStdout();
      if chunk == [] {
        registered := registered - {Stdout};
        return false;
      }
      outCount := outCount + |chunk|;
      if outCount <= limits.maxResponse {
        out := out + chunk;
      }
      if outCount > limits.maxResponse {
        child.KillGroup();
        return true;
      }
      assert out == child.stdout[..child.outTaken];
      return false;
    }

    method OnStderr() returns (raised: bool)
      requires Retained() && Stderr in registered
      modifies this`err, this`errCount, this`registered, child`errTaken, child`killed
      ensures Bounded()
      ensures raised ==> child.killed && child.errTaken > limits.maxStderr
      ensures !raised ==> Retained() && child.killed == old(child.killed)
      ensures !raised ==>
        registered == old(registered) - {Stderr} || (registered == old(registered) && Budget() < old(Budget()))
    {
      var chunk := child.ReadStderr();
      if chunk == [] {
        registered := registered - {Stderr};
        return false;
      }
      errCount := errCount + |chunk|;
      if |err| < STDERR_SAMPLE {
        err := err + AtMost(chunk, STDERR_SAMPLE - |err|);
      }
      assert child.stderr[..old(child.errTaken)] + chunk == child.stderr[..child.errTaken];
      if errCount > limits.maxStderr {
        child.KillGroup();
        return true;
      }
      return false;
    }

    method OnEvent(pipe: Pipe) returns (raised: bool)
      requires Retained() && pipe in registered
      modifies this`offset, this`out, this`err, this`outCount, this`errCount, this`registered
      modifies child`received, child`outTaken, child`errTaken, child`killed
      ensures Bounded()
      ensures raised ==> child.killed && pipe != Stdin && Exceeded(pipe)
      ensures !raised ==> Retained() && child.killed == old(child.killed)
      ensures !raised ==>
        registered == old(registered) - {pipe} || (registered == old(registered) && Budget() < old(Budget()))
    {
      match pipe {
        case Stdin => OnStdin(); raised := false;
        case Stdout => raised := OnStdout();
        case Stderr => raised := OnStderr();
      }
    }

    /** The child has written more than the cap of an output pipe. */
    ghost predicate Exceeded(pipe: Pipe)
      reads this, child
    {
      match pipe
      case Stdin => false
      case Stdout => child.outTaken > limits.maxResponse
      case Stderr => child.errTaken > limits.maxStderr
    }

    /** The events of one round, in their order. */
    method OnEvents(events: seq<Pipe>) returns (raised: Option<Pipe>)
      requires Retained() && forall i :: 0 <= i < |events| ==> events[i] in registered
      requires forall i, j :: 0 <= i < j < |events| ==> events[i] != events[j]
      modifies this`offset, this`out, this`err, this`outCount, this`errCount, this`registered
      modifies child`received, child`outTaken, child`errTaken, child`killed
      ensures Bounded()
      ensures raised.Some? ==> child.killed && raised.value != Stdin && Exceeded(raised.value)
      ensures raised.None? ==> Retained() && child.killed == old(child.killed) && registered <= old(registered)
      ensures raised.None? && registered == old(registered) ==>
        Budget() <= old(Budget()) && (events == [] || Budget() < old(Budget()))
    {
      ghost var open, budget := registered, Budget();
      for k := 0 to |events|
        invariant Retained() && child.killed == old(child.killed)
        invariant forall j :: k <= j < |events| ==> events[j] in registered
        invariant registered <= open
        invariant registered == open ==> Budget() <= budget && (k > 0 ==> Budget() < budget)
      {
        var stopped := OnEvent(events[k]);
        if stopped {
          return Some(events[k]);
        }
      }
      return None;
    }

    /** `_pump`. On every way out the retained bytes are bounded prefixes. An output limit is raised
        only past a cap, a timeout only at the deadline, and either only with the child killed; an exchange
        over before the deadline and within the caps returns. What it returns, and what the child has received,
        is all that passes before a read or a write raises: the whole if and only if none does. */
    method Run() returns (r: Ending)
      requires Retained() && registered == {Stdin, Stdout, Stderr} && !child.killed
      modifies this`offset, this`out, this`err, this`outCount, this`errCount, this`registered, child
      ensures Bounded()
      ensures r.stderrTail == AtMost(child.stderr[..child.errTaken], STDERR_SAMPLE)
      ensures r.Raised? <==> child.killed
      ensures r.Raised? && r.reason.OutputLimit? ==> Exceeded(r.reason.pipe)
      ensures r.Raised? && r.reason.Timeout? ==>
        !Exceeded(Stdout) && !Exceeded(Stderr) && old(child.now) + limits.wall <= child.now
      ensures r.Returned? ==>
        r.stdout == child.stdout[..Through(child.outRaises, |child.stdout|)] && |r.stdout| <= limits.maxResponse
      ensures r.Returned? ==>
        (r.stdout == child.stdout <==> child.outRaises.None? || |child.stdout| <= child.outRaises.value)
      ensures r.Returned? ==> child.received == request[..Through(child.inRaises, |request|)]
      ensures Modest(child, limits, old(child.now)) ==> r.Returned?
    {
      var deadline := child.now + limits.wall;
      while registered != {}
        invariant Retained() && !child.killed
        decreases registered, Budget(), deadline - child.now
      {
        if deadline <= child.now {
          child.KillGroup();
          return Raised(Timeout, err);
        }
        var events := child.Select(registered);
        var raised := OnEvents(events);
        if raised.Some? {
          return Raised(OutputLimit(raised.value), err);
        }
      }
      var exited := child.Wait(deadline);
      if !exited {
        child.KillGroup();
        return Raised(Timeout, err);
      }
      r := Returned(out, err);
    }
  }

  datatype Exchanged =
    | TooLarge
    | Stopped(reason: Reason, stderrTail: seq<Byte>)
    | Crashed(stderrTail: seq<Byte>)
    | Exited(code: int, stderrTail: seq<Byte>)
    | Response(stdout: seq<Byte>, stderrTail: seq<Byte>)

  /** `_exchange`, from the encoded request on. A request over the cap reaches no child, and no more than the caps is
      sent or kept. A response comes from a child that exited with 0; it is all that passed before a read raised, the
      whole output if and only if none did. A child that exits with 0 in time and within the caps is answered by a
      response. */
  method Exchange(limits: Limits, request: seq<Byte>, child: Child) returns (r: Exchanged)
    requires child.Untouched()
    modifies child
    ensures r.TooLarge? <==> |request| > limits.maxRequest
    ensures r.TooLarge? ==> child.Untouched()
    ensures child.received <= request && |child.received| <= limits.maxRequest
    ensures r.Response? ==>
      && child.code == 0 && r.stdout == child.stdout[..Through(child.outRaises, |child.stdout|)]
      && |r.stdout| <= limits.maxResponse
    ensures r.Response? ==>
      (r.stdout == child.stdout <==> child.outRaises.None? || |child.stdout| <= child.outRaises.value)
    ensures r.Response? ==> child.received == request[..Through(child.inRaises, |request|)]
    ensures |request| <= limits.maxRequest && child.code == 0 && Modest(child, limits, old(child.now)) ==> r.Response?
    ensures !r.TooLarge? ==> |r.stderrTail| <= STDERR_SAMPLE && r.stderrTail <= child.stderr
    ensures r.Stopped? <==> child.killed
    ensures r.Crashed? ==> child.code < 0
    ensures r.Exited? ==> child.code == r.code > 0
  {
    if |request| > limits.maxRequest {
      return TooLarge;
    }
    var pump := new Pump(limits, request, child);
    var outcome := pump.Run();
    match outcome {
      case Raised(reason, tail) => r := Stopped(reason, tail);
      case Returned(stdout, tail) =>
        if child.code < 0 {
          r := Crashed(tail);
        } else if child.code > 0 {
          r := Exited(child.code, tail);
        } else {
          r := Response(stdout, tail);
        }
    }
  }

  /** A run in which the second read raises: half of what the child wrote comes back as its response. */
  method TruncatedResponse() returns (child: Child, r: Exchanged)
    ensures fresh(child) && child.stdout == [1, 2] && child.code == 0 && child.outRaises == Some(1)
    ensures r == Response([1], [])
  {
    child := new Child([1, 2], [], 0, Some(1), None, 0);
    r := Exchange(Limits(1, 0, 2, 0), [], child);
  }
}
