/** The streaming resampler of Source/Speechly/Private/SpeechRecorder.cpp.

  Samples and the ratio of sample rates are reals, so nothing here speaks of
  floating-point rounding. `Capture` is what one audio callback does to the
  leftover buffer; `Run` is what any sequence of callbacks does. */
module Resampler {

  // ---- Rounding ----

  function Ceil(x: real): int { -((-x).Floor) }

  /** RoundToInt: halves go up. */
  function Round(x: real): int { (x + 0.5).Floor }

  predicate IsInteger(x: real) { x == x.Floor as real }

  /** n steps of r. Proofs hide this definition and use the lemmas below. */
  function Steps(r: real, n: int): real { r * n as real }

  lemma StepsAdd(r: real, a: int, b: int)
    ensures Steps(r, a + b) == Steps(r, a) + Steps(r, b)
  {
    assert r * (a + b) as real == r * a as real + r * b as real;
  }

  lemma StepsMonotone(r: real, a: int, b: int)
    requires r > 0.0 && a <= b
    ensures Steps(r, a) <= Steps(r, b)
  {
    assert r * (b - a) as real >= 0.0;
    StepsAdd(r, a, b - a);
  }

  lemma StepsUnit(r: real)
    ensures Steps(r, 0) == 0.0 && Steps(r, 1) == r && Steps(r, -1) == -r
  {
  }

  lemma StepsDown(r: real, n: int)
    ensures Steps(r, n - 1) == Steps(r, n) - r
  {
    StepsUnit(r);
    StepsAdd(r, n, -1);
  }

  lemma ProductBetween(r: real, low: real, q: real, high: real)
    requires r > 0.0 && low < q <= high
    ensures r * low < r * q <= r * high
  {
    assert r * (q - low) > 0.0;
    assert r * (high - q) >= 0.0;
  }

  lemma CeilOfQuotient(d: int, r: real)
    requires r > 0.0
    ensures Steps(r, Ceil(d as real / r) - 1) < d as real <= Steps(r, Ceil(d as real / r))
  {
    var q := d as real / r;
    var c := Ceil(q);
    assert q * r == d as real;
    assert (c - 1) as real < q <= c as real;
    ProductBetween(r, (c - 1) as real, q, c as real);
  }

  lemma CeilIsUnique(d: int, r: real, c: int)
    requires r > 0.0
    requires Steps(r, c - 1) < d as real <= Steps(r, c)
    ensures c == Ceil(d as real / r)
  {
    var e := Ceil(d as real / r);
    CeilOfQuotient(d, r);
    hide Steps;
    if c <= e - 1 {
      StepsMonotone(r, c, e - 1);
      assert false;
    }
    if e <= c - 1 {
      StepsMonotone(r, e, c - 1);
      assert false;
    }
  }

  // ---- One callback ----

  datatype Config = Config(filter: seq<real>, ratio: real) {
    predicate Valid() { |filter| > 0 && ratio > 0.0 }

    /** The ratio at which a leftover never becomes empty: at most F - 1/2. */
    predicate Narrow() { Valid() && ratio <= |filter| as real - 0.5 }

    function OutputLength(b: nat): int
      requires Valid()
    {
      Ceil((b - |filter|) as real / ratio)
    }

    function Offset(i: int): int { Round(Steps(ratio, i)) }

    /** Enough samples for a non-negative output length. */
    predicate Enough(b: nat) { b as real > |filter| as real - ratio }
  }

  /** x[p] * f[0] + ... + x[p+m-1] * f[m-1], added from the left. */
  function Dot(x: seq<real>, p: nat, f: seq<real>, m: nat): real
    requires m <= |f| && p + m <= |x|
  {
    if m == 0 then 0.0 else Dot(x, p, f, m - 1) + x[p + m - 1] * f[m - 1]
  }

  lemma {:induction false} DotAgrees(x: seq<real>, p: nat, y: seq<real>, q: nat, f: seq<real>, m: nat)
    requires m <= |f| && p + m <= |x| && q + m <= |y|
    requires x[p..p + m] == y[q..q + m]
    ensures Dot(x, p, f, m) == Dot(y, q, f, m)
  {
    if m > 0 {
      assert x[p..p + (m - 1)] == x[p..p + m][..m - 1] == y[q..q + (m - 1)];
      assert x[p + m - 1] == x[p..p + m][m - 1] == y[q + m - 1];
      DotAgrees(x, p, y, q, f, m - 1);
    }
  }

  /** The output length is the least number of steps that covers b - F. */
  lemma LengthCovers(c: Config, b: nat)
    requires c.Valid()
    ensures Steps(c.ratio, c.OutputLength(b)) - c.ratio < (b - |c.filter|) as real <= Steps(c.ratio, c.OutputLength(b))
  {
    CeilOfQuotient(b - |c.filter|, c.ratio);
    StepsDown(c.ratio, c.OutputLength(b));
  }

  lemma EnoughIffLengthNonNegative(c: Config, b: nat)
    requires c.Valid()
    ensures c.Enough(b) <==> c.OutputLength(b) >= 0
  {
    var l := c.OutputLength(b);
    LengthCovers(c, b);
    StepsUnit(c.ratio);
    hide Steps;
    if l >= 0 {
      StepsMonotone(c.ratio, 0, l);
    } else {
      StepsMonotone(c.ratio, l, -1);
    }
  }

  /** Every window the filter is applied to lies inside the buffer. */
  lemma WindowInBounds(c: Config, b: nat, i: nat)
    requires c.Valid() && i < c.OutputLength(b)
    ensures 0 <= c.Offset(i) && c.Offset(i) + |c.filter| <= b
  {
    var l := c.OutputLength(b);
    LengthCovers(c, b);
    StepsUnit(c.ratio);
    hide Steps;
    StepsDown(c.ratio, l);
    StepsMonotone(c.ratio, i, l - 1);
    StepsMonotone(c.ratio, 0, i);
  }

  /** What a callback drops, RoundToInt(SampleRatio * OutputLength), leaves
      more than F - R - 1/2 and at most F samples. */
  lemma LeftoverBounds(c: Config, b: nat)
    requires c.Valid() && c.Enough(b)
    ensures c.OutputLength(b) >= 0
    ensures 0 <= c.Offset(c.OutputLength(b))
    ensures |c.filter| as real - c.ratio - 0.5 < (b - c.Offset(c.OutputLength(b))) as real
    ensures b - c.Offset(c.OutputLength(b)) <= |c.filter|
  {
    EnoughIffLengthNonNegative(c, b);
    LengthCovers(c, b);
    StepsUnit(c.ratio);
    hide Steps;
    StepsMonotone(c.ratio, 0, c.OutputLength(b));
  }

  /** A callback touches no index outside the buffer: the shift starts at
      `Offset(OutputLength)`, the filter reads windows at `Offset(i)`. */
  predicate IndicesInBounds(c: Config, b: nat)
    requires c.Valid()
  {
    var l := c.OutputLength(b);
    && 0 <= c.Offset(l)
    && forall i {:trigger c.Offset(i)} :: 0 <= i < l ==> 0 <= c.Offset(i) && c.Offset(i) + |c.filter| <= b
  }

  /** The precise precondition of the callback: it is safe exactly when the
      buffer it works on is longer than F - R. */
  lemma SafeExactlyWhenEnough(c: Config, b: nat)
    requires c.Valid()
    ensures IndicesInBounds(c, b) <==> c.Enough(b)
  {
    EnoughIffLengthNonNegative(c, b);
    if c.Enough(b) {
      LeftoverBounds(c, b);
      forall i | 0 <= i < c.OutputLength(b)
        ensures 0 <= c.Offset(i) && c.Offset(i) + |c.filter| <= b
      {
        WindowInBounds(c, b, i);
      }
    } else {
      ShiftStartsBelowZero(c, b);
    }
  }

  /** With too few samples the shift would start before the buffer, however
      close to zero the rounded length is. */
  lemma ShiftStartsBelowZero(c: Config, b: nat)
    requires c.Valid() && !c.Enough(b)
    ensures c.Offset(c.OutputLength(b)) < 0
  {
    var l := c.OutputLength(b);
    EnoughIffLengthNonNegative(c, b);
    LengthCovers(c, b);
    StepsUnit(c.ratio);
    hide Steps, Config.OutputLength;
    StepsMonotone(c.ratio, l, -1);
    assert b - |c.filter| <= -1;
  }

  function OutputAt(c: Config, x: seq<real>, i: nat): real
    requires c.Valid() && i < c.OutputLength(|x|)
  {
    WindowInBounds(c, |x|, i);
    Dot(x, c.Offset(i), c.filter, |c.filter|)
  }

  function Outputs(c: Config, x: seq<real>): seq<real>
    requires c.Valid() && c.Enough(|x|)
  {
    EnoughIffLengthNonNegative(c, |x|);
    seq(c.OutputLength(|x|), i requires 0 <= i < c.OutputLength(|x|) => OutputAt(c, x, i))
  }

  function Leftover(c: Config, x: seq<real>): seq<real>
    requires c.Valid() && c.Enough(|x|)
  {
    LeftoverBounds(c, |x|);
    var drop := c.Offset(c.OutputLength(|x|));
    if drop < |x| then x[drop..] else []
  }

  // ---- Any sequence of callbacks ----

  function Concat(chunks: seq<seq<real>>): seq<real>
  {
    if |chunks| == 0 then [] else Concat(chunks[..|chunks| - 1]) + chunks[|chunks| - 1]
  }

  /** `consumed` counts the input samples dropped so far; `positions[k]` is the
      input position output k was computed at. Neither exists in the program. */
  datatype RunState = RunState(buffer: seq<real>, outputs: seq<real>, consumed: nat, positions: seq<int>)

  const BEGIN := RunState([], [], 0, [])

  function Capture(c: Config, s: RunState, chunk: seq<real>): RunState
    requires c.Valid() && c.Enough(|s.buffer + chunk|)
  {
    var x := s.buffer + chunk;
    LeftoverBounds(c, |x|);
    var l := c.OutputLength(|x|);
    RunState(Leftover(c, x), s.outputs + Outputs(c, x), s.consumed + c.Offset(l),
             s.positions + seq(l, i => s.consumed + c.Offset(i)))
  }

  predicate Legal(c: Config, chunks: seq<seq<real>>)
    requires c.Valid()
    decreases |chunks|, 0
  {
    |chunks| > 0 ==>
      var before := chunks[..|chunks| - 1];
      Legal(c, before) && c.Enough(|Run(c, before).buffer + chunks[|chunks| - 1]|)
  }

  function Run(c: Config, chunks: seq<seq<real>>): RunState
    requires c.Valid() && Legal(c, chunks)
    decreases |chunks|, 1
  {
    if |chunks| == 0 then BEGIN
    else Capture(c, Run(c, chunks[..|chunks| - 1]), chunks[|chunks| - 1])
  }

  /** The stated preconditions make every callback safe: a first chunk of more
      than F - R frames, then at least one frame each time. The leftover stays
      within (F - R - 1/2, F]. */
  lemma {:induction false} PreconditionsSuffice(c: Config, chunks: seq<seq<real>>)
    requires c.Narrow()
    requires |chunks| > 0 ==> c.Enough(|chunks[0]|)
    requires forall i :: 1 <= i < |chunks| ==> |chunks[i]| >= 1
    ensures Legal(c, chunks)
    ensures |chunks| > 0 ==>
      |c.filter| as real - c.ratio - 0.5 < |Run(c, chunks).buffer| as real <= |c.filter| as real
  {
    if |chunks| > 0 {
      var before, last := chunks[..|chunks| - 1], chunks[|chunks| - 1];
      PreconditionsSuffice(c, before);
      var x := Run(c, before).buffer + last;
      assert c.Enough(|x|) by {
        if |before| == 0 { assert x == last; }
      }
      LeftoverBounds(c, |x|);
    }
  }

  predicate Near(a: real, b: real, tolerance: real) { -tolerance <= a - b <= tolerance }

  /** Output k is the filter applied to the whole input at `positions[k]`. */
  predicate Explains(c: Config, s: RunState, x: seq<real>)
    requires c.Valid()
  {
    && |s.positions| == |s.outputs|
    && s.consumed <= |x|
    && s.buffer == x[s.consumed..]
    && forall k :: 0 <= k < |s.outputs| ==> ExplainsAt(c, s, x, k)
  }

  lemma NothingDiscarded(c: Config, b: nat)
    requires c.Narrow() && c.Enough(b)
    ensures 0 <= c.Offset(c.OutputLength(b)) < b
  {
    LeftoverBounds(c, b);
  }

  /** Everything a run needs to know of one callback, without its arithmetic. */
  lemma CaptureFacts(c: Config, s: RunState, chunk: seq<real>)
    requires c.Narrow() && |s.positions| == |s.outputs| && c.Enough(|s.buffer + chunk|)
    ensures var b, t := s.buffer + chunk, Capture(c, s, chunk);
      var l := c.OutputLength(|b|);
      && l >= 0
      && 0 <= c.Offset(l) < |b|
      && t.buffer == b[c.Offset(l)..]
      && t.consumed == s.consumed + c.Offset(l)
      && |t.positions| == |t.outputs| == |s.outputs| + l
  {
    NothingDiscarded(c, |s.buffer + chunk|);
    EnoughIffLengthNonNegative(c, |s.buffer + chunk|);
    hide Steps, Dot, Config.OutputLength, Config.Offset, Config.Enough;
  }

  lemma OldOutputKept(c: Config, s: RunState, chunk: seq<real>, k: nat)
    requires c.Narrow() && |s.positions| == |s.outputs| && c.Enough(|s.buffer + chunk|)
    requires k < |s.outputs|
    ensures k < |Capture(c, s, chunk).outputs| == |Capture(c, s, chunk).positions|
    ensures Capture(c, s, chunk).outputs[k] == s.outputs[k]
    ensures Capture(c, s, chunk).positions[k] == s.positions[k]
  {
    CaptureFacts(c, s, chunk);
    hide Steps, Dot, Config.OutputLength, Config.Offset, Config.Enough;
  }

  lemma NewOutput(c: Config, s: RunState, chunk: seq<real>, i: nat)
    requires c.Narrow() && |s.positions| == |s.outputs| && c.Enough(|s.buffer + chunk|)
    requires i < c.OutputLength(|s.buffer + chunk|)
    ensures 0 <= c.Offset(i) <= |s.buffer + chunk| - |c.filter|
    ensures |s.outputs| + i < |Capture(c, s, chunk).outputs| == |Capture(c, s, chunk).positions|
    ensures Capture(c, s, chunk).positions[|s.outputs| + i] == s.consumed + c.Offset(i)
    ensures Capture(c, s, chunk).outputs[|s.outputs| + i]
         == Dot(s.buffer + chunk, c.Offset(i), c.filter, |c.filter|)
  {
    CaptureFacts(c, s, chunk);
    WindowInBounds(c, |s.buffer + chunk|, i);
    hide Steps, Dot, Config.OutputLength, Config.Offset, Config.Enough;
  }

  predicate ExplainsAt(c: Config, s: RunState, x: seq<real>, k: nat)
    requires k < |s.outputs| && |s.positions| == |s.outputs|
  {
    && 0 <= s.positions[k] <= |x| - |c.filter|
    && s.outputs[k] == Dot(x, s.positions[k], c.filter, |c.filter|)
  }

  lemma OldOutputExplained(c: Config, s: RunState, x: seq<real>, chunk: seq<real>, k: nat)
    requires c.Narrow() && Explains(c, s, x) && c.Enough(|s.buffer + chunk|)
    requires k < |s.outputs|
    ensures k < |Capture(c, s, chunk).outputs| == |Capture(c, s, chunk).positions|
    ensures ExplainsAt(c, Capture(c, s, chunk), x + chunk, k)
  {
    OldOutputKept(c, s, chunk, k);
    assert ExplainsAt(c, s, x, k);
    hide Steps, Config.OutputLength, Config.Offset, Config.Enough, Capture;
    var p, n := s.positions[k], |c.filter|;
    assert x[p..p + n] == (x + chunk)[p..p + n];
    DotAgrees(x, p, x + chunk, p, c.filter, n);
  }

  lemma NewOutputExplained(c: Config, s: RunState, x: seq<real>, chunk: seq<real>, i: nat)
    requires c.Narrow() && Explains(c, s, x) && c.Enough(|s.buffer + chunk|)
    requires i < c.OutputLength(|s.buffer + chunk|)
    ensures |s.outputs| + i < |Capture(c, s, chunk).outputs| == |Capture(c, s, chunk).positions|
    ensures ExplainsAt(c, Capture(c, s, chunk), x + chunk, |s.outputs| + i)
  {
    NewOutput(c, s, chunk, i);
    assert s.buffer + chunk == (x + chunk)[s.consumed..];
    hide Steps, Config.OutputLength, Config.Offset, Config.Enough, Capture, Explains;
    var o, n := c.Offset(i), |c.filter|;
    assert (s.buffer + chunk)[o..o + n] == (x + chunk)[s.consumed + o..s.consumed + o + n];
    DotAgrees(s.buffer + chunk, o, x + chunk, s.consumed + o, c.filter, n);
  }

  lemma CaptureExplains(c: Config, s: RunState, x: seq<real>, chunk: seq<real>)
    requires c.Narrow() && Explains(c, s, x) && c.Enough(|s.buffer + chunk|)
    ensures Explains(c, Capture(c, s, chunk), x + chunk)
  {
    CaptureFacts(c, s, chunk);
    assert s.buffer + chunk == (x + chunk)[s.consumed..];
    hide Steps, Dot, Config.OutputLength, Config.Offset, Config.Enough, Capture;
    var t := Capture(c, s, chunk);
    forall k | 0 <= k < |t.outputs|
      ensures ExplainsAt(c, t, x + chunk, k)
    {
      if k < |s.outputs| {
        OldOutputExplained(c, s, x, chunk, k);
      } else {
        NewOutputExplained(c, s, x, chunk, k - |s.outputs|);
      }
    }
  }

  /** Over any legal run nothing is lost, repeated or reordered: the buffer is
      the unconsumed suffix of the input and every output is a window of it. */
  lemma {:induction false} RunExplainsInput(c: Config, chunks: seq<seq<real>>)
    requires c.Narrow() && Legal(c, chunks)
    ensures Explains(c, Run(c, chunks), Concat(chunks))
  {
    if |chunks| > 0 {
      var before := chunks[..|chunks| - 1];
      RunExplainsInput(c, before);
      CaptureExplains(c, Run(c, before), Concat(before), chunks[|chunks| - 1]);
    }
  }

  // ---- Drift for an arbitrary ratio ----

  predicate WithinDrift(c: Config, s: RunState, drift: real) {
    && Near(s.consumed as real, Steps(c.ratio, |s.outputs|), drift)
    && forall k :: 0 <= k < |s.positions| ==> Near(s.positions[k] as real, Steps(c.ratio, k), drift)
  }

  lemma CaptureDrifts(c: Config, s: RunState, chunk: seq<real>, drift: real)
    requires c.Narrow() && c.Enough(|s.buffer + chunk|)
    requires |s.positions| == |s.outputs| && WithinDrift(c, s, drift)
    ensures WithinDrift(c, Capture(c, s, chunk), drift + 0.5)
  {
    CaptureFacts(c, s, chunk);
    hide Steps, Dot, Config.OutputLength, Config.Enough, Capture;
    var t, n := Capture(c, s, chunk), |s.outputs|;
    StepsAdd(c.ratio, n, |t.outputs| - n);
    forall k | 0 <= k < |t.positions|
      ensures Near(t.positions[k] as real, Steps(c.ratio, k), drift + 0.5)
    {
      if k < n {
        OldOutputKept(c, s, chunk, k);
      } else {
        NewOutput(c, s, chunk, k - n);
        StepsAdd(c.ratio, n, k - n);
      }
    }
  }

  /** After c chunks no output was computed further than c/2 samples from its
      ideal position R * k, and neither is the next one. */
  lemma {:induction false} DriftIsAtMostHalfPerChunk(c: Config, chunks: seq<seq<real>>)
    requires c.Narrow() && Legal(c, chunks)
    ensures WithinDrift(c, Run(c, chunks), |chunks| as real / 2.0)
  {
    if |chunks| > 0 {
      var before := chunks[..|chunks| - 1];
      DriftIsAtMostHalfPerChunk(c, before);
      RunExplainsInput(c, before);
      CaptureDrifts(c, Run(c, before), chunks[|chunks| - 1], |before| as real / 2.0);
    }
  }

  /** So the number of outputs follows the input length n: R times it is
      within c/2 + R + 1/2 of n - F. */
  lemma OutputCountFollowsInput(c: Config, chunks: seq<seq<real>>)
    requires c.Narrow() && Legal(c, chunks) && |chunks| > 0
    ensures Near(Steps(c.ratio, |Run(c, chunks).outputs|), (|Concat(chunks)| - |c.filter|) as real,
                 |chunks| as real / 2.0 + c.ratio + 0.5)
  {
    RunExplainsInput(c, chunks);
    DriftIsAtMostHalfPerChunk(c, chunks);
    hide Steps, Dot, Config.OutputLength;
    var before := chunks[..|chunks| - 1];
    LeftoverBounds(c, |Run(c, before).buffer + chunks[|chunks| - 1]|);
    NothingDiscarded(c, |Run(c, before).buffer + chunks[|chunks| - 1]|);
  }

  // ---- What the outputs are ----

  /** A single sample of 1 at position q. */
  predicate IsImpulse(x: seq<real>, q: nat) {
    q < |x| && forall i :: 0 <= i < |x| ==> x[i] == if i == q then 1.0 else 0.0
  }

  lemma {:induction false} DotOfImpulse(x: seq<real>, p: nat, f: seq<real>, m: nat, q: nat)
    requires m <= |f| && p + m <= |x| && IsImpulse(x, q)
    ensures Dot(x, p, f, m) == if p <= q < p + m then f[q - p] else 0.0
  {
    if m > 0 { DotOfImpulse(x, p, f, m - 1, q); }
  }

  /** The filter is applied tap by tap: for an input that is 1 at position q and 0
      elsewhere, an output whose window covers q is the tap that lies on it, and
      every other output is 0. */
  lemma ImpulseResponse(c: Config, chunks: seq<seq<real>>, q: nat, k: nat)
    requires c.Narrow() && Legal(c, chunks) && IsImpulse(Concat(chunks), q) && k < |Run(c, chunks).outputs|
    ensures |Run(c, chunks).positions| == |Run(c, chunks).outputs|
    ensures var p := Run(c, chunks).positions[k];
      Run(c, chunks).outputs[k] == if p <= q < p + |c.filter| then c.filter[q - p] else 0.0
  {
    RunExplainsInput(c, chunks);
    var s := Run(c, chunks);
    hide Run, Legal, Concat;
    assert ExplainsAt(c, s, Concat(chunks), k);
    DotOfImpulse(Concat(chunks), s.positions[k], c.filter, |c.filter|, q);
  }

  predicate SameLengths(xs: seq<seq<real>>, ys: seq<seq<real>>) {
    |xs| == |ys| && forall i :: 0 <= i < |xs| ==> |xs[i]| == |ys[i]|
  }

  /** z is a times x plus b times y. */
  predicate Mixes(z: seq<real>, a: real, x: seq<real>, b: real, y: seq<real>) {
    |z| == |x| == |y| && forall i :: 0 <= i < |z| ==> z[i] == a * x[i] + b * y[i]
  }

  lemma {:induction false} LengthsDecide(c: Config, xs: seq<seq<real>>, ys: seq<seq<real>>)
    requires c.Narrow() && Legal(c, xs) && SameLengths(xs, ys)
    ensures Legal(c, ys) && |Concat(xs)| == |Concat(ys)|
    ensures |Run(c, xs).buffer| == |Run(c, ys).buffer| && |Run(c, xs).outputs| == |Run(c, ys).outputs|
    ensures Run(c, xs).positions == Run(c, ys).positions && Run(c, xs).consumed == Run(c, ys).consumed
    ensures |Run(c, xs).positions| == |Run(c, xs).outputs|
  {
    if |xs| > 0 {
      var us, vs := xs[..|xs| - 1], ys[..|ys| - 1];
      LengthsDecide(c, us, vs);
      assert |Run(c, us).buffer + xs[|xs| - 1]| == |Run(c, vs).buffer + ys[|ys| - 1]|;
      CaptureFacts(c, Run(c, us), xs[|xs| - 1]);
      CaptureFacts(c, Run(c, vs), ys[|ys| - 1]);
      hide Steps, Dot, Config.OutputLength, Config.Offset;
    }
  }

  lemma MixesOne(a: real, x: real, b: real, y: real, u: real, v: real, f: real)
    ensures a * x + b * y + (a * u + b * v) * f == a * (x + u * f) + b * (y + v * f)
  {
    assert (a * u + b * v) * f == a * (u * f) + b * (v * f);
    assert a * (x + u * f) == a * x + a * (u * f);
    assert b * (y + v * f) == b * y + b * (v * f);
  }

  lemma {:induction false} DotMixes(z: seq<real>, a: real, x: seq<real>, b: real, y: seq<real>,
                                    p: nat, f: seq<real>, m: nat)
    requires Mixes(z, a, x, b, y) && m <= |f| && p + m <= |z|
    ensures Dot(z, p, f, m) == a * Dot(x, p, f, m) + b * Dot(y, p, f, m)
  {
    if m > 0 {
      DotMixes(z, a, x, b, y, p, f, m - 1);
      var i := p + m - 1;
      MixesOne(a, Dot(x, p, f, m - 1), b, Dot(y, p, f, m - 1), x[i], y[i], f[m - 1]);
    }
  }

  /** Outputs add and scale when inputs captured in chunks of the same lengths do;
      with the impulse response this determines every output of every run. */
  lemma OutputsMix(c: Config, zs: seq<seq<real>>, a: real, xs: seq<seq<real>>, b: real, ys: seq<seq<real>>)
    requires c.Narrow() && Legal(c, zs) && SameLengths(zs, xs) && SameLengths(zs, ys)
    requires Mixes(Concat(zs), a, Concat(xs), b, Concat(ys))
    ensures Legal(c, xs) && Legal(c, ys)
    ensures Mixes(Run(c, zs).outputs, a, Run(c, xs).outputs, b, Run(c, ys).outputs)
  {
    LengthsDecide(c, zs, xs);
    LengthsDecide(c, zs, ys);
    RunExplainsInput(c, zs);
    RunExplainsInput(c, xs);
    RunExplainsInput(c, ys);
    var s, t, u := Run(c, zs), Run(c, xs), Run(c, ys);
    hide Run, Legal, Concat;
    ExplainedMixes(c, s, a, t, b, u, Concat(zs), Concat(xs), Concat(ys));
  }

  lemma ExplainedMixes(c: Config, s: RunState, a: real, t: RunState, b: real, u: RunState,
                       z: seq<real>, x: seq<real>, y: seq<real>)
    requires c.Valid() && Explains(c, s, z) && Explains(c, t, x) && Explains(c, u, y) && Mixes(z, a, x, b, y)
    requires s.positions == t.positions == u.positions
    ensures Mixes(s.outputs, a, t.outputs, b, u.outputs)
  {
    assert |s.outputs| == |t.outputs| == |u.outputs|;
    forall k | 0 <= k < |s.outputs|
      ensures s.outputs[k] == a * t.outputs[k] + b * u.outputs[k]
    {
      assert ExplainsAt(c, s, z, k) && ExplainsAt(c, t, x, k) && ExplainsAt(c, u, y, k);
      hide Explains;
      DotMixes(z, a, x, b, y, s.positions[k], c.filter, |c.filter|);
      hide Dot, Mixes;
    }
  }

  // ---- When the split into chunks does not matter ----

  /** The ratio or its inverse is a whole number. */
  predicate Exact(c: Config)
    requires c.Valid()
  {
    IsInteger(c.ratio) || IsInteger(1.0 / c.ratio)
  }

  function OneShot(c: Config, x: seq<real>): RunState
    requires c.Valid() && c.Enough(|x|)
  {
    assert BEGIN.buffer + x == x;
    Capture(c, BEGIN, x)
  }

  predicate SameAsOneShot(c: Config, chunks: seq<seq<real>>)
    requires c.Valid() && Legal(c, chunks)
  {
    var x, s := Concat(chunks), Run(c, chunks);
    c.Enough(|x|) && s.outputs == OneShot(c, x).outputs && s.buffer == OneShot(c, x).buffer
  }

  lemma WholeSteps(r: real, n: int)
    requires IsInteger(r)
    ensures IsInteger(Steps(r, n)) && Steps(r, n) == (r.Floor * n) as real
  {
    var whole := r.Floor * n;
    var q := r.Floor as real;
    assert whole as real == q * n as real;
    assert Steps(q, n) == whole as real;
    assert (whole as real).Floor == whole;
  }

  lemma InverseSteps(r: real, d: int, m: int)
    requires r > 0.0 && 1.0 / r == m as real
    ensures Steps(r, d * m) == d as real
  {
    assert r * m as real == 1.0;
    assert (d * m) as real == d as real * m as real;
  }

  lemma ExactStep(c: Config, b: nat)
    requires c.Valid() && Exact(c)
    ensures c.Offset(c.OutputLength(b)) as real == Steps(c.ratio, c.OutputLength(b))
  {
    hide Steps;
    var d := b - |c.filter|;
    if IsInteger(c.ratio) {
      WholeSteps(c.ratio, c.OutputLength(b));
    } else {
      InverseLength(c.ratio, d, (1.0 / c.ratio).Floor);
    }
    RoundOfWhole(Steps(c.ratio, c.OutputLength(b)));
  }

  lemma RoundOfWhole(x: real)
    requires IsInteger(x)
    ensures Round(x) as real == x
  {
    RoundOfInt(x.Floor);
  }

  lemma RoundOfInt(n: int)
    ensures Round(n as real) == n
  {
    var h := (n as real + 0.5).Floor;
    assert h as real <= n as real + 0.5 < h as real + 1.0;
  }

  lemma InverseLength(r: real, d: int, m: int)
    requires r > 0.0 && 1.0 / r == m as real
    ensures Steps(r, Ceil(d as real / r)) == d as real
  {
    InverseSteps(r, d, m);
    StepsDown(r, d * m);
    hide Steps;
    CeilIsUnique(d, r, d * m);
  }

  /** With an exact ratio no drift builds up. */
  lemma {:induction false} ExactRunHasNoDrift(c: Config, chunks: seq<seq<real>>)
    requires c.Narrow() && Exact(c) && Legal(c, chunks)
    ensures |Run(c, chunks).positions| == |Run(c, chunks).outputs|
    ensures Run(c, chunks).consumed as real == Steps(c.ratio, |Run(c, chunks).outputs|)
    ensures forall k :: 0 <= k < |Run(c, chunks).positions| ==> Run(c, chunks).positions[k] == c.Offset(k)
  {
    if |chunks| > 0 {
      var before, last := chunks[..|chunks| - 1], chunks[|chunks| - 1];
      ExactRunHasNoDrift(c, before);
      StepsUnit(c.ratio);
      hide Steps, Dot, Config.OutputLength;
      var s, t := Run(c, before), Run(c, chunks);
      var n := |s.outputs|;
      LeftoverBounds(c, |s.buffer + last|);
      ExactStep(c, |s.buffer + last|);
      StepsAdd(c.ratio, n, |t.outputs| - n);
      forall k | n <= k < |t.positions|
        ensures t.positions[k] == c.Offset(k)
      {
        assert t.positions[k] == s.consumed + c.Offset(k - n);
        StepsAdd(c.ratio, n, k - n);
      }
    }
  }

  /** The central law: with an exact ratio any legal split of the input gives
      the outputs and the leftover of one single callback, namely
      ceil((n - F) / R) outputs, the k-th taken at RoundToInt(R * k). */
  lemma ExactRunIsOneShot(c: Config, chunks: seq<seq<real>>)
    requires c.Narrow() && Exact(c) && Legal(c, chunks) && |chunks| > 0
    ensures c.Enough(|Concat(chunks)|) && SameAsOneShot(c, chunks)
    ensures var x, s := Concat(chunks), Run(c, chunks);
      && |s.outputs| == Ceil((|x| - |c.filter|) as real / c.ratio)
      && s.consumed == c.Offset(|s.outputs|)
      && Explains(c, s, x)
      && forall k :: 0 <= k < |s.positions| ==> s.positions[k] == c.Offset(k)
  {
    var x, s := Concat(chunks), Run(c, chunks);
    RunExplainsInput(c, chunks);
    ExactRunHasNoDrift(c, chunks);
    ExactRunCount(c, chunks);
    EnoughIffLengthNonNegative(c, |x|);
    hide Run, Legal, Exact, Concat;
    ExplainedIsOneShot(c, s, x);
  }

  /** What explains an input at the ideal positions is one callback on it. */
  lemma ExplainedIsOneShot(c: Config, s: RunState, x: seq<real>)
    requires c.Narrow() && c.Enough(|x|) && Explains(c, s, x)
    requires |s.outputs| == c.OutputLength(|x|) && s.consumed == c.Offset(|s.outputs|)
    requires forall k :: 0 <= k < |s.positions| ==> s.positions[k] == c.Offset(k)
    ensures s.outputs == OneShot(c, x).outputs && s.buffer == OneShot(c, x).buffer
  {
    CaptureFacts(c, BEGIN, x);
    hide Steps, Dot, Config.OutputLength, Config.Enough, Capture;
    assert BEGIN.buffer + x == x;
    var o := OneShot(c, x);
    assert o.buffer == x[c.Offset(|s.outputs|)..] == s.buffer;
    forall i | 0 <= i < |s.outputs|
      ensures s.outputs[i] == o.outputs[i]
    {
      NewOutput(c, BEGIN, x, i);
      assert ExplainsAt(c, s, x, i);
    }
  }

  lemma ExactRunCount(c: Config, chunks: seq<seq<real>>)
    requires c.Narrow() && Exact(c) && Legal(c, chunks) && |chunks| > 0
    ensures |Run(c, chunks).outputs| == c.OutputLength(|Concat(chunks)|)
    ensures Run(c, chunks).consumed == c.Offset(|Run(c, chunks).outputs|)
  {
    var x, s := Concat(chunks), Run(c, chunks);
    RunExplainsInput(c, chunks);
    ExactRunHasNoDrift(c, chunks);
    LastStepOfExactRun(c, chunks);
    StepsDown(c.ratio, |s.outputs|);
    hide Steps;
    hide Run;
    CeilIsUnique(|x| - |c.filter|, c.ratio, |s.outputs|);
  }

  lemma LastStepOfExactRun(c: Config, chunks: seq<seq<real>>)
    requires c.Narrow() && Exact(c) && Legal(c, chunks) && |chunks| > 0
    ensures |c.filter| as real - c.ratio < |Run(c, chunks).buffer| as real <= |c.filter| as real
  {
    hide Steps, Dot, Config.OutputLength;
    var b := |Run(c, chunks[..|chunks| - 1]).buffer + chunks[|chunks| - 1]|;
    NothingDiscarded(c, b);
    ExactStep(c, b);
    LengthCovers(c, b);
  }

  /** Chunks that bring the buffer to F + 1 samples every time. */
  function Steady(c: Config, n: nat): seq<seq<real>>
    requires c.Narrow()
  {
    StepBounds(c);
    if n == 0 then []
    else if n == 1 then [Silence(|c.filter| + 1)]
    else Steady(c, n - 1) + [Silence(StepLength(c))]
  }

  function Silence(n: nat): seq<real> { seq(n, _ => 0.0) }

  function StepCount(c: Config): int
    requires c.Valid()
  {
    c.OutputLength(|c.filter| + 1)
  }

  function StepLength(c: Config): int
    requires c.Valid()
  {
    c.Offset(StepCount(c))
  }

  lemma StepBounds(c: Config)
    requires c.Narrow()
    ensures c.Enough(|c.filter| + 1)
    ensures 1 <= StepLength(c) <= |c.filter|
    ensures StepCount(c) == Ceil(1.0 / c.ratio) >= 0
  {
    NothingDiscarded(c, |c.filter| + 1);
    LeftoverBounds(c, |c.filter| + 1);
  }

  lemma {:induction false} SteadyRun(c: Config, n: nat)
    requires c.Narrow() && n >= 1
    ensures Legal(c, Steady(c, n))
    ensures |Run(c, Steady(c, n)).buffer| == |c.filter| + 1 - StepLength(c)
    ensures |Run(c, Steady(c, n)).outputs| == n * StepCount(c)
    ensures |Concat(Steady(c, n))| == n * StepLength(c) + |c.filter| + 1 - StepLength(c)
  {
    StepBounds(c);
    var chunks := Steady(c, n);
    var before, last := chunks[..|chunks| - 1], chunks[|chunks| - 1];
    if n == 1 {
      assert before == [] && Concat(before) == [];
    } else {
      SteadyRun(c, n - 1);
      assert before == Steady(c, n - 1);
      RunExplainsInput(c, before);
    }
    SteadyStep(c, Run(c, before), last);
    MultiplesAdd(n, StepCount(c));
    MultiplesAdd(n, StepLength(c));
    hide Steps, Dot, Config.OutputLength, Config.Offset, Capture;
  }

  lemma SteadyStep(c: Config, s: RunState, chunk: seq<real>)
    requires c.Narrow() && |s.positions| == |s.outputs|
    requires |s.buffer + chunk| == |c.filter| + 1
    ensures c.Enough(|s.buffer + chunk|)
    ensures |Capture(c, s, chunk).buffer| == |c.filter| + 1 - StepLength(c)
    ensures |Capture(c, s, chunk).outputs| == |s.outputs| + StepCount(c)
  {
    StepBounds(c);
    CaptureFacts(c, s, chunk);
  }

  lemma MultiplesAdd(n: int, k: int)
    ensures n * k == (n - 1) * k + k
  {
  }

  /** A step that is not a whole number of samples makes the ratio inexact and
      the other way round. */
  lemma ExactIffStepIsWhole(c: Config)
    requires c.Valid()
    ensures Exact(c) <==> IsInteger(Steps(c.ratio, Ceil(1.0 / c.ratio)))
  {
    hide Steps;
    var r, m := c.ratio, Ceil(1.0 / c.ratio);
    if IsInteger(1.0 / r) {
      InverseLength(r, 1, (1.0 / r).Floor);
    } else if IsInteger(r) {
      WholeSteps(r, m);
    } else if IsInteger(Steps(r, m)) {
      WholeStepIsExact(r, Steps(r, m).Floor);
    }
  }

  lemma WholeStepIsExact(r: real, q: int)
    requires r > 0.0 && Steps(r, Ceil(1 as real / r)) == q as real
    ensures IsInteger(r) || IsInteger(1.0 / r)
  {
    var m := Ceil(1 as real / r);
    CeilOfQuotient(1, r);
    StepsDown(r, m);
    StepsUnit(r);
    if r >= 1.0 {
      CeilIsUnique(1, r, 1);
    } else {
      assert q == 1;
      UnitSteps(r, m);
    }
  }

  lemma UnitSteps(r: real, m: int)
    requires r > 0.0 && Steps(r, m) == 1.0
    ensures 1.0 / r == m as real
  {
  }

  predicate SameOutputsAsOneShot(c: Config, chunks: seq<seq<real>>)
    requires c.Valid() && Legal(c, chunks)
  {
    c.Enough(|Concat(chunks)|) && Run(c, chunks).outputs == OneShot(c, Concat(chunks)).outputs
  }

  /** With any other ratio some legal split gives another number of outputs than
      one single callback. */
  lemma InexactRunDiverges(c: Config) returns (chunks: seq<seq<real>>)
    requires c.Narrow() && !Exact(c)
    ensures |chunks| > 0 && Legal(c, chunks) && c.Enough(|Concat(chunks)|)
    ensures |Run(c, chunks).outputs| != |OneShot(c, Concat(chunks)).outputs|
    ensures !SameAsOneShot(c, chunks) && !SameOutputsAsOneShot(c, chunks)
  {
    ExactIffStepIsWhole(c);
    StepBounds(c);
    var gap := Steps(c.ratio, StepCount(c)) - StepLength(c) as real;
    var n := Enlarge(gap, |c.filter| as real + c.ratio);
    GapGrows(c.ratio, StepCount(c), StepLength(c), n);
    hide Steps, StepCount, StepLength, Exact;
    SteadyDiffers(c, n);
    chunks := Steady(c, n);
    hide Steady;
  }

  lemma SteadyDiffers(c: Config, n: nat)
    requires c.Narrow() && n >= 1
    requires !Near(Steps(c.ratio, n * StepCount(c)), (n * StepLength(c)) as real, |c.filter| as real + c.ratio)
    ensures |Steady(c, n)| > 0 && Legal(c, Steady(c, n)) && c.Enough(|Concat(Steady(c, n))|)
    ensures |Run(c, Steady(c, n)).outputs| != |OneShot(c, Concat(Steady(c, n))).outputs|
  {
    SteadyRun(c, n);
    StepBounds(c);
    var chunks := Steady(c, n);
    var x := Concat(chunks);
    MultiplesAdd(n, StepLength(c));
    MultiplesNotNegative(n - 1, StepLength(c));
    assert |x| >= |c.filter| + 1;
    assert BEGIN.buffer + x == x;
    CaptureFacts(c, BEGIN, x);
    LengthCovers(c, |x|);
    hide Steps, Run, Concat, Steady, Config.OutputLength, StepCount, StepLength, Capture;
  }

  lemma {:induction false} MultiplesNotNegative(n: int, k: int)
    requires n >= 0 && k >= 0
    ensures n * k >= 0
  {
    if n > 0 {
      MultiplesAdd(n, k);
      MultiplesNotNegative(n - 1, k);
    }
  }

  lemma QuotientBack(a: real, b: real)
    requires b != 0.0
    ensures b * (a / b) == a
  {
  }

  lemma NegatedProductLeft(a: real, b: real)
    ensures -a * b == -(a * b)
  {
  }

  lemma Enlarge(gap: real, tolerance: real) returns (n: nat)
    requires gap != 0.0 && tolerance > 0.0
    ensures n >= 1 && !Near(Steps(gap, n), 0.0, tolerance)
  {
    if gap > 0.0 {
      n := Exceeds(gap, tolerance);
    } else {
      n := Exceeds(-gap, tolerance);
      NegatedProductLeft(gap, n as real);
    }
  }

  lemma Exceeds(size: real, tolerance: real) returns (n: nat)
    requires size > 0.0 && tolerance > 0.0
    ensures n >= 1 && size * n as real > tolerance
  {
    var inverse := tolerance / size;
    n := inverse.Floor + 1;
    QuotientBack(tolerance, size);
    ProductBetween(size, inverse, n as real, n as real);
  }

  lemma GapGrows(r: real, count: int, length: int, n: int)
    ensures Steps(r, n * count) - (n * length) as real == Steps(Steps(r, count) - length as real, n)
  {
    assert (n * count) as real == n as real * count as real;
    assert (n * length) as real == n as real * length as real;
  }

  /** The exact condition under which the split into chunks cannot be heard. */
  lemma ChunkingInvisibleExactlyWhenExact(c: Config)
    requires c.Narrow()
    ensures (forall chunks :: |chunks| > 0 && Legal(c, chunks) ==> SameAsOneShot(c, chunks)) <==> Exact(c)
    ensures (forall chunks :: |chunks| > 0 && Legal(c, chunks) ==> SameOutputsAsOneShot(c, chunks)) <==> Exact(c)
  {
    if Exact(c) {
      forall chunks | |chunks| > 0 && Legal(c, chunks)
        ensures SameAsOneShot(c, chunks) && SameOutputsAsOneShot(c, chunks)
      {
        ExactRunIsOneShot(c, chunks);
      }
    } else {
      var chunks := InexactRunDiverges(c);
    }
  }

  // ---- The filter ----

  const FILTER_LENGTH := 23

  function Sum(f: seq<real>, m: nat): real
    requires m <= |f|
  {
    if m == 0 then 0.0 else Sum(f, m - 1) + f[m - 1]
  }

  lemma {:induction false} SumScales(f: seq<real>, g: seq<real>, d: real, m: nat)
    requires d != 0.0 && m <= |f| && |f| == |g|
    requires forall i :: 0 <= i < m ==> g[i] == f[i] / d
    ensures Sum(g, m) == Sum(f, m) / d
  {
    if m > 0 {
      SumScales(f, g, d, m - 1);
      QuotientsAdd(Sum(f, m - 1), f[m - 1], d);
    }
  }

  lemma QuotientsAdd(a: real, b: real, d: real)
    requires d != 0.0
    ensures a / d + b / d == (a + b) / d
  {
    assert d * (a / d + b / d) == a + b;
  }

  /** The filter has unit gain, so a constant signal passes unchanged. */
  lemma {:induction false} ConstantWindow(x: seq<real>, p: nat, f: seq<real>, m: nat, v: real)
    requires m <= |f| && p + m <= |x|
    requires forall j :: p <= j < p + m ==> x[j] == v
    ensures Dot(x, p, f, m) == v * Sum(f, m)
  {
    if m > 0 {
      ConstantWindow(x, p, f, m - 1, v);
      assert v * (Sum(f, m - 1) + f[m - 1]) == v * Sum(f, m - 1) + v * f[m - 1];
    }
  }

  lemma ConstantSignalPasses(c: Config, chunks: seq<seq<real>>, v: real)
    requires c.Narrow() && Legal(c, chunks) && Sum(c.filter, |c.filter|) == 1.0
    requires forall j :: 0 <= j < |Concat(chunks)| ==> Concat(chunks)[j] == v
    ensures forall k :: 0 <= k < |Run(c, chunks).outputs| ==> Run(c, chunks).outputs[k] == v
  {
    var s, x := Run(c, chunks), Concat(chunks);
    RunExplainsInput(c, chunks);
    forall k | 0 <= k < |s.outputs|
      ensures s.outputs[k] == v
    {
      assert ExplainsAt(c, s, x, k);
      ConstantWindow(x, s.positions[k], c.filter, |c.filter|, v);
    }
  }

  // ---- The recorder ----

  function FirstChannel(audio: seq<real>, frames: nat, channels: nat): (r: seq<real>)
    requires channels > 0 && frames * channels <= |audio|
    ensures |r| == frames
    decreases frames
  {
    if frames == 0 then []
    else
      FrameInside(frames - 1, frames, channels);
      FirstChannel(audio, frames - 1, channels) + [audio[(frames - 1) * channels]]
  }

  lemma {:induction false} FirstChannelAt(audio: seq<real>, frames: nat, channels: nat, i: nat)
    requires channels > 0 && frames * channels <= |audio| && i < frames
    ensures i * channels < |audio| && FirstChannel(audio, frames, channels)[i] == audio[i * channels]
  {
    FrameInside(i, frames, channels);
    if i < frames - 1 {
      FrameInside(frames - 1, frames, channels);
      FirstChannelAt(audio, frames - 1, channels, i);
    }
  }

  lemma FrameInside(i: nat, frames: nat, channels: nat)
    requires channels > 0 && i < frames
    ensures i * channels < (i + 1) * channels <= frames * channels
  {
    var rest: nat := frames - (i + 1);
    assert rest * channels >= 0;
    assert frames * channels == rest * channels + (i + 1) * channels;
  }

  lemma RunBegins(c: Config)
    requires c.Valid()
    ensures Legal(c, []) && Run(c, []) == BEGIN
  {
  }

  /** One more callback. */
  lemma RunGoesOn(c: Config, chunks: seq<seq<real>>, chunk: seq<real>)
    requires c.Valid() && Legal(c, chunks) && c.Enough(|Run(c, chunks).buffer + chunk|)
    ensures Legal(c, chunks + [chunk])
    ensures var s, t := Run(c, chunks), Run(c, chunks + [chunk]);
      t.buffer == Leftover(c, s.buffer + chunk) && t.outputs == s.outputs + Outputs(c, s.buffer + chunk)
  {
    assert (chunks + [chunk])[..|chunks + [chunk]| - 1] == chunks;
  }

  class FSpeechRecorder {
    var bIsCapturing: bool
    var SampleRatio: real
    var Filter: seq<real>
    var Buffer: seq<real>
    var Output: seq<real>

    /** What was captured since the buffer was last empty, chunk by chunk, and
        all that was handed on for it. */
    ghost var chunks: seq<seq<real>>
    ghost var sent: seq<real>

    /** Buffer and what was sent are those of a run of callbacks. */
    ghost predicate Valid()
      reads this
    {
      if chunks == [] then Buffer == [] && sent == []
      else
        && Settings().Valid() && Legal(Settings(), chunks)
        && Buffer == Run(Settings(), chunks).buffer && sent == Run(Settings(), chunks).outputs
    }

    /** After the first callback one frame is enough for the next. */
    lemma OneFrameIsEnough(frames: nat)
      requires Valid() && chunks != [] && Settings().Narrow() && frames >= 1
      ensures Settings().Enough(|Buffer| + frames)
    {
      var c, before := Settings(), chunks[..|chunks| - 1];
      LeftoverBounds(c, |Run(c, before).buffer + chunks[|chunks| - 1]|);
    }

    /** For a whole ratio or inverse ratio, all that was sent since the buffer
        was last empty is what one callback on all that was captured gives. */
    lemma SentIsOneShot()
      requires Valid() && chunks != [] && Settings().Narrow() && Exact(Settings())
      ensures Settings().Enough(|Concat(chunks)|)
      ensures sent == OneShot(Settings(), Concat(chunks)).outputs
      ensures Buffer == OneShot(Settings(), Concat(chunks)).buffer
    {
      ExactRunIsOneShot(Settings(), chunks);
    }

    function Settings(): Config
      reads this
    {
      Config(Filter, SampleRatio)
    }

    constructor ()
      ensures !bIsCapturing && Buffer == [] && Filter == [] && Valid()
    {
      chunks, sent := [], [];
      bIsCapturing, SampleRatio, Filter, Buffer, Output := false, 1.0, [], [], [];
    }

    /** Opening the stream is left out; `preferred` is the device's rate. */
    method Start(preferred: nat, sampleRate: nat, streamOpen: bool, sinc: real -> real)
      requires Valid()
      requires preferred > 0 && sampleRate > 0
      requires !streamOpen ==> Sum(Taps(preferred, sampleRate, sinc), FILTER_LENGTH) != 0.0
      modifies this`bIsCapturing, this`SampleRatio, this`Filter
      ensures streamOpen || chunks == [] ==> Valid()
      ensures bIsCapturing
      ensures streamOpen ==> Settings() == old(Settings())
      ensures !streamOpen ==>
        && SampleRatio == preferred as real / sampleRate as real
        && |Filter| == FILTER_LENGTH
        && Sum(Filter, FILTER_LENGTH) == 1.0
        && Settings().Valid()
    {
      if !streamOpen {
        SampleRatio := preferred as real / sampleRate as real;
        GenerateFilter(preferred, sampleRate, sinc);
      }
      bIsCapturing := true;
    }

    method Stop()
      modifies this`bIsCapturing, this`Buffer, this`chunks, this`sent
      ensures !bIsCapturing && Buffer == [] && chunks == [] && Valid()
    {
      bIsCapturing := false;
      Buffer := [];
      chunks, sent := [], [];
    }

    /** One callback of the audio device. `called` tells whether the client is
        handed `Output`. */
    method OnAudioCapture(audio: seq<real>, frames: nat, channels: nat) returns (called: bool)
      requires Valid() && channels > 0 && frames * channels <= |audio|
      requires bIsCapturing ==> Settings().Valid() && Settings().Enough(|Buffer| + frames)
      modifies this`Buffer, this`Output, this`chunks, this`sent
      ensures Valid()
      ensures called == bIsCapturing
      ensures chunks == old(chunks) + if called then [FirstChannel(audio, frames, channels)] else []
      ensures sent == old(sent) + if called then Output else []
      ensures !called ==> Buffer == old(Buffer) && Output == old(Output)
      ensures called ==>
        var x := old(Buffer) + FirstChannel(audio, frames, channels);
        && |x| == |old(Buffer)| + frames
        && Buffer == Leftover(Settings(), x)
        && Output == Outputs(Settings(), x)
    {
      hide Run, Legal, Outputs, Leftover, FirstChannel, Steps;
      if !bIsCapturing { return false; }
      ghost var chunk := FirstChannel(audio, frames, channels);
      RunBegins(Settings());
      RunGoesOn(Settings(), chunks, chunk);
      AppendFirstChannel(audio, frames, channels);
      Resample();
      ShiftLeftover();
      chunks, sent := chunks + [chunk], sent + Output;
      return true;
    }

    method AppendFirstChannel(audio: seq<real>, frames: nat, channels: nat)
      requires channels > 0 && frames * channels <= |audio|
      modifies this`Buffer
      ensures Buffer == old(Buffer) + FirstChannel(audio, frames, channels)
    {
      for i := 0 to frames
        invariant i * channels <= frames * channels
        invariant Buffer == old(Buffer) + FirstChannel(audio, i, channels)
      {
        FrameInside(i, frames, channels);
        Buffer := Buffer + [audio[i * channels]];
      }
    }

    method Resample()
      requires Settings().Valid() && Settings().Enough(|Buffer|)
      modifies this`Output
      ensures Output == Outputs(Settings(), Buffer)
    {
      ghost var c, x := Settings(), Buffer;
      EnoughIffLengthNonNegative(c, |Buffer|);
      var outputLength := Ceil((|Buffer| - |Filter|) as real / SampleRatio);
      assert outputLength == c.OutputLength(|x|);
      hide Steps, Config.OutputLength;
      Output := [];
      for i := 0 to outputLength
        invariant Output == Outputs(c, x)[..i]
      {
        WindowInBounds(c, |x|, i);
        Output := Output + [0.0];
        var offset := Round(Steps(SampleRatio, i));
        AddWindow(offset);
        assert Output[i] == OutputAt(c, x, i);
      }
    }

    /** The window at `offset`, weighted by the filter, summed into the last
        output. */
    method AddWindow(offset: nat)
      requires offset + |Filter| <= |Buffer| && |Output| > 0 && Output[|Output| - 1] == 0.0
      modifies this`Output
      ensures Output == old(Output)[..|old(Output)| - 1] + [Dot(Buffer, offset, Filter, |Filter|)]
    {
      var last := |Output| - 1;
      for j := 0 to |Filter|
        invariant Output == old(Output)[..last] + [Dot(Buffer, offset, Filter, j)]
      {
        var term := Buffer[offset + j] * Filter[j];
        assert Dot(Buffer, offset, Filter, j + 1) == Dot(Buffer, offset, Filter, j) + term;
        Output := Output[last := Output[last] + term];
      }
    }

    /** The overlapping in-place move of the unread samples to the front. */
    method ShiftLeftover()
      requires Settings().Valid() && Settings().Enough(|Buffer|)
      modifies this`Buffer
      ensures Buffer == Leftover(Settings(), old(Buffer))
    {
      hide Steps;
      LeftoverBounds(Settings(), |Buffer|);
      var outputLength := Ceil((|Buffer| - |Filter|) as real / SampleRatio);
      var remainingOffset := Round(Steps(SampleRatio, outputLength));
      if remainingOffset < |Buffer| {
        var i, j := remainingOffset, 0;
        while i < |Buffer|
          invariant |Buffer| == |old(Buffer)|
          invariant remainingOffset <= i <= |Buffer| && j == i - remainingOffset
          invariant Buffer[..j] == old(Buffer)[remainingOffset..i]
          invariant Buffer[i..] == old(Buffer)[i..]
        {
          assert Buffer[i] == Buffer[i..][0] == old(Buffer)[i];
          Buffer := Buffer[j := Buffer[i]];
          assert Buffer[i + 1..] == old(Buffer)[i..][1..];
          i, j := i + 1, j + 1;
        }
        Buffer := Buffer[..|Buffer| - remainingOffset];
      } else {
        Buffer := [];
      }
    }

    method GenerateFilter(preferred: nat, sampleRate: nat, sinc: real -> real)
      requires preferred > 0 && sampleRate > 0
      requires Sum(Taps(preferred, sampleRate, sinc), FILTER_LENGTH) != 0.0
      modifies this`Filter
      ensures |Filter| == FILTER_LENGTH
      ensures forall i :: 0 <= i < FILTER_LENGTH ==>
        Filter[i] == Taps(preferred, sampleRate, sinc)[i] / Sum(Taps(preferred, sampleRate, sinc), FILTER_LENGTH)
      ensures Sum(Filter, FILTER_LENGTH) == 1.0
    {
      ghost var taps := Taps(preferred, sampleRate, sinc);
      Filter := [];
      var sum := 0.0;
      for i := 0 to FILTER_LENGTH
        invariant |Filter| == i && Filter == taps[..i]
        invariant sum == Sum(taps, i)
      {
        var x := sinc(TapAt(preferred, sampleRate, i));
        Filter := Filter + [x];
        sum := sum + x;
      }
      assert Filter == taps;
      Normalise(sum);
    }

    method Normalise(sum: real)
      requires sum == Sum(Filter, |Filter|) && sum != 0.0
      modifies this`Filter
      ensures |Filter| == |old(Filter)|
      ensures forall i :: 0 <= i < |Filter| ==> Filter[i] == old(Filter)[i] / sum
      ensures Sum(Filter, |Filter|) == 1.0
    {
      ghost var taps := Filter;
      for i := 0 to |Filter|
        invariant |Filter| == |taps|
        invariant forall k :: 0 <= k < i ==> Filter[k] == taps[k] / sum
        invariant Filter[i..] == taps[i..]
      {
        assert Filter[i] == Filter[i..][0] == taps[i];
        Filter := Filter[i := Filter[i] / sum];
        assert Filter[i + 1..] == taps[i..][1..];
      }
      SumScales(taps, Filter, sum, |Filter|);
      assert sum / sum == 1.0;
    }
  }

  function TapAt(preferred: nat, sampleRate: nat, i: int): real
    requires preferred > 0
  {
    (sampleRate as real / preferred as real) * (i as real - (FILTER_LENGTH - 1) as real / 2.0)
  }

  function Taps(preferred: nat, sampleRate: nat, sinc: real -> real): (t: seq<real>)
    requires preferred > 0
  {
    seq(FILTER_LENGTH, i => sinc(TapAt(preferred, sampleRate, i)))
  }

  lemma NegatedProduct(a: real, b: real)
    ensures a * -b == -(a * b)
  {
  }

  /** For an even sinc the filter is symmetric, so it delays all frequencies
      alike. */
  lemma TapsAreSymmetric(preferred: nat, sampleRate: nat, sinc: real -> real, i: nat)
    requires preferred > 0 && i < FILTER_LENGTH
    requires forall x :: sinc(x) == sinc(-x)
    ensures Taps(preferred, sampleRate, sinc)[i] == Taps(preferred, sampleRate, sinc)[FILTER_LENGTH - 1 - i]
    ensures Taps(preferred, sampleRate, sinc)[(FILTER_LENGTH - 1) / 2] == sinc(0.0)
  {
    var q := sampleRate as real / preferred as real;
    var d := i as real - (FILTER_LENGTH - 1) as real / 2.0;
    assert (FILTER_LENGTH - 1 - i) as real - (FILTER_LENGTH - 1) as real / 2.0 == -d;
    NegatedProduct(q, d);
    assert TapAt(preferred, sampleRate, FILTER_LENGTH - 1 - i) == -TapAt(preferred, sampleRate, i);
    var middle := (FILTER_LENGTH - 1) / 2;
    assert middle as real == (FILTER_LENGTH - 1) as real / 2.0;
    assert TapAt(preferred, sampleRate, middle) == q * 0.0;
  }

  /** The taps sample sinc at steps of the target rate over the device's rate,
      around zero. */
  lemma TapsStep(preferred: nat, sampleRate: nat, i: int)
    requires preferred > 0
    ensures TapAt(preferred, sampleRate, (FILTER_LENGTH - 1) / 2) == 0.0
    ensures TapAt(preferred, sampleRate, i + 1) - TapAt(preferred, sampleRate, i) ==
      sampleRate as real / preferred as real
  {
    var q := sampleRate as real / preferred as real;
    var at := i as real - (FILTER_LENGTH - 1) as real / 2.0;
    var middle := (FILTER_LENGTH - 1) / 2;
    assert middle as real == (FILTER_LENGTH - 1) as real / 2.0;
    assert TapAt(preferred, sampleRate, middle) == q * 0.0;
    assert q * (at + 1.0) == q * at + q;
    assert TapAt(preferred, sampleRate, i + 1) == q * (at + 1.0);
  }
}
