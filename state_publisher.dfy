/** The joint-angle generator node (`my_2d_robo_state_publisher`): every tick it draws two
    pseudo-random angles, stamps the message and publishes it once. */
module StatePublisher {
  import opened JointStateMsg

  /** The inputs of one loop iteration that come from outside: the clock and two `rand()` draws
      (`rand()` never returns a negative number). */
  datatype Tick = Tick(now: Time, draw1: nat, draw2: nat)

  const JointNames: seq<string> := ["joint1", "joint2"]

  /** Number of distinct angle steps: `rand() % 315`. */
  const AngleSteps := 315

  /** A joint angle in hundredths of a radian, as drawn from one `rand()` value. */
  function Hundredths(draw: nat): (h: nat)
    ensures h < AngleSteps
    ensures (draw - h) % AngleSteps == 0
  {
    draw % AngleSteps
  }

  /** The angle put into the message: `(rand() % 315) / 100.0`. */
  function Position(draw: nat): real
  {
    Hundredths(draw) as real / 100.0
  }

  /** The message one iteration publishes. */
  function Sample(t: Tick): JointState
  {
    JointState(t.now, JointNames, [Position(t.draw1), Position(t.draw2)])
  }

  /** A well-formed generator sample: two names, two positions, index-aligned, each angle in [0.00, 3.14]. */
  ghost predicate WellFormed(m: JointState)
  {
    && m.name == ["joint1", "joint2"]
    && |m.position| == |m.name|
    && forall i :: 0 <= i < |m.position| ==> 0.0 <= m.position[i] <= 3.14
  }

  /** Every sample is well formed; position[0] comes from the first draw and position[1] from the
      second, and the stamp is the tick's time. */
  lemma SampleWellFormed(t: Tick)
    ensures WellFormed(Sample(t))
    ensures Sample(t).stamp == t.now
    ensures Sample(t).position[0] == Hundredths(t.draw1) as real / 100.0
    ensures Sample(t).position[1] == Hundredths(t.draw2) as real / 100.0
  {
    var h1, h2 := Hundredths(t.draw1), Hundredths(t.draw2);
    assert 0.0 <= h1 as real / 100.0 <= 3.14;
    assert 0.0 <= h2 as real / 100.0 <= 3.14;
  }

  /** Every value in [0, 314] hundredths is reachable from some draw, so the range above is tight. */
  lemma EveryAngleReachable(h: nat)
    requires h < AngleSteps
    ensures Hundredths(h) == h
    ensures Hundredths(h + AngleSteps) == h
  {
  }

  /** The messages published for `ticks`, one per tick, in order. */
  function Samples(ticks: seq<Tick>): (ms: seq<JointState>)
    ensures |ms| == |ticks|
    ensures forall k :: 0 <= k < |ticks| ==> ms[k] == Sample(ticks[k])
  {
    if ticks == [] then [] else Samples(ticks[..|ticks| - 1]) + [Sample(ticks[|ticks| - 1])]
  }

  lemma SamplesAppend(ticks: seq<Tick>, i: nat)
    requires i < |ticks|
    ensures Samples(ticks[..i + 1]) == Samples(ticks[..i]) + [Sample(ticks[i])]
  {
    assert ticks[..i + 1][..i] == ticks[..i];
  }

  /** `std::vector::resize`: keep the first `n` elements, padding with default values. */
  function Resize<T>(s: seq<T>, n: nat, default: T): (r: seq<T>)
    ensures |r| == n
    ensures forall i :: 0 <= i < n ==> r[i] == if i < |s| then s[i] else default
  {
    if n <= |s| then s[..n] else s + seq(n - |s|, _ => default)
  }

  /** `while (ros::ok)` names the function without calling it: C++ converts the function's address
      to `bool`, and the address of a function is never null. */
  type FunctionAddress = a: nat | a != 0 witness 1

  function AsCondition(address: FunctionAddress): (b: bool)
    ensures b
  {
    address != 0
  }

  /** The answers the condition as written gives before each of `n` iterations: all true. */
  function AsWrittenGuard(rosOk: FunctionAddress, n: nat): (g: seq<bool>)
    ensures |g| == n
    ensures forall k :: 0 <= k < n ==> g[k]
  {
    seq(n, _ => AsCondition(rosOk))
  }

  /** How many of the successive `ros::ok()` answers in `ok` are true before the first false one:
      the number of iterations a loop guarded by the call runs. */
  function OkRun(ok: seq<bool>): (n: nat)
    ensures n <= |ok|
    ensures forall k :: 0 <= k < n ==> ok[k]
    ensures n < |ok| ==> !ok[n]
  {
    if ok == [] || !ok[0] then 0 else 1 + OkRun(ok[1..])
  }

  /** A guard that answers true every time lets the loop run through every tick. */
  lemma {:induction false} OkRunAllTrue(ok: seq<bool>)
    requires forall k :: 0 <= k < |ok| ==> ok[k]
    ensures OkRun(ok) == |ok|
    decreases |ok|
  {
    if ok != [] {
      OkRunAllTrue(ok[1..]);
    }
  }

  /** What a publish loop hands to `publish` when its condition answers `guard[i]` before
      iteration `i`: the samples of the ticks before the first false answer. */
  function Published(guard: seq<bool>, ticks: seq<Tick>): (ms: seq<JointState>)
    requires |guard| == |ticks|
    ensures |ms| == OkRun(guard)
    ensures forall k :: 0 <= k < |ms| ==> guard[k] && ms[k] == Sample(ticks[k])
  {
    Samples(ticks[..OkRun(guard)])
  }

  /** The publish loop as written. The loop's own condition is always true, so it runs until the
      process is killed from outside; `ticks` holds the clock readings and draws of the iterations that happen
      before that, and the result is what was handed to `publish`, in order. The single message
      object is reused and updated field by field, as the node does. */
  method PublishLoop(rosOk: FunctionAddress, ticks: seq<Tick>) returns (published: seq<JointState>)
    ensures published == Samples(ticks)
    ensures forall k :: 0 <= k < |published| ==> WellFormed(published[k])
  {
    var jointState := EmptyJointState;
    published := [];
    var i := 0;
    while AsCondition(rosOk) && i < |ticks|
      invariant 0 <= i <= |ticks|
      invariant published == Samples(ticks[..i])
      decreases |ticks| - i
    {
      jointState := jointState.(stamp := ticks[i].now);
      var joint1Pos := Position(ticks[i].draw1);
      var joint2Pos := Position(ticks[i].draw2);
      jointState := jointState.(name := Resize(jointState.name, 2, ""));
      jointState := jointState.(position := Resize(jointState.position, 2, 0.0));
      jointState := jointState.(name := JointNames, position := [joint1Pos, joint2Pos]);
      SamplesAppend(ticks, i);
      published := published + [jointState];
      i := i + 1;
    }
    assert ticks[..i] == ticks;
    forall k | 0 <= k < |published|
      ensures WellFormed(published[k])
    {
      SampleWellFormed(ticks[k]);
    }
  }

  /** The loop as written publishes what a loop publishes whose condition answers true before
      every iteration: the sample of every tick. */
  lemma AsWrittenPublishesAll(rosOk: FunctionAddress, ticks: seq<Tick>)
    ensures Published(AsWrittenGuard(rosOk, |ticks|), ticks) == Samples(ticks)
  {
    OkRunAllTrue(AsWrittenGuard(rosOk, |ticks|));
    assert ticks[..|ticks|] == ticks;
  }

  /** The publish loop as evidently intended, guarded by the call `ros::ok()`: `ok[i]` is what the
      call answers before iteration `i`, and the loop stops at the first false answer (a shutdown
      request or a signal). */
  method PublishUntilShutdown(ticks: seq<Tick>, ok: seq<bool>) returns (published: seq<JointState>)
    requires |ok| == |ticks|
    ensures published == Published(ok, ticks)
    ensures forall k :: 0 <= k < |published| ==> WellFormed(published[k])
  {
    var jointState := EmptyJointState;
    published := [];
    var i := 0;
    while i < |ticks| && ok[i]
      invariant 0 <= i <= OkRun(ok)
      invariant published == Samples(ticks[..i])
      decreases |ticks| - i
    {
      jointState := jointState.(stamp := ticks[i].now);
      var joint1Pos := Position(ticks[i].draw1);
      var joint2Pos := Position(ticks[i].draw2);
      jointState := jointState.(name := Resize(jointState.name, 2, ""));
      jointState := jointState.(position := Resize(jointState.position, 2, 0.0));
      jointState := jointState.(name := JointNames, position := [joint1Pos, joint2Pos]);
      SamplesAppend(ticks, i);
      published := published + [jointState];
      i := i + 1;
    }
    forall k | 0 <= k < |published|
      ensures WellFormed(published[k])
    {
      SampleWellFormed(ticks[k]);
    }
  }

  /** Shutdown requested before the first of one tick: the condition as written still holds, so
      `PublishLoop` publishes that tick's sample, while the intended loop publishes nothing. */
  lemma ShutdownIgnoredAsWritten(rosOk: FunctionAddress, t: Tick)
    ensures Published(AsWrittenGuard(rosOk, 1), [t]) == [Sample(t)]
    ensures Published([false], [t]) == []
  {
    OkRunAllTrue(AsWrittenGuard(rosOk, 1));
  }
}
