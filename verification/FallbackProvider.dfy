/** Trying providers in order until one produces output (maurice/kernel/providers.py:56-92). */
module FallbackProvider {
  import opened Wrappers

  datatype Kind = TextDelta | ToolCall | Usage | Status

  /** `failed`: the chunk carries the failed status, which any kind may do. */
  datatype Chunk = Chunk(kind: Kind, failed: bool, body: string)

  /** What a provider streams, and whether it raises at the end of that. */
  datatype Attempt = Attempt(chunks: seq<Chunk>, raises: bool)

  datatype Emission = Emission(chunks: seq<Chunk>, raised: bool)

  /** The position of a failure that comes before any output. */
  predicate FailsAt(chunks: seq<Chunk>, k: nat) {
    k < |chunks| && chunks[k].failed && forall j :: 0 <= j < k ==> chunks[j].kind.Status? && !chunks[j].failed
  }

  function FirstFailure(chunks: seq<Chunk>): (r: Option<nat>)
    ensures r.Some? ==> FailsAt(chunks, r.value)
    ensures r.None? ==> forall k :: !FailsAt(chunks, k)
  {
    FailureFrom(chunks, 0)
  }

  function FailureFrom(chunks: seq<Chunk>, i: nat): (r: Option<nat>)
    requires i <= |chunks| && forall j :: 0 <= j < i ==> chunks[j].kind.Status? && !chunks[j].failed
    ensures r.Some? ==> FailsAt(chunks, r.value)
    ensures r.None? ==> forall k :: !FailsAt(chunks, k)
    decreases |chunks| - i
  {
    if i == |chunks| then None
    else if chunks[i].failed then Some(i)
    else if chunks[i].kind.Status? then FailureFrom(chunks, i + 1)
    else None
  }

  predicate FailsEarly(a: Attempt) {
    FirstFailure(a.chunks).Some?
  }

  /** The statuses streamed by an attempt before it failed. */
  function Prelude(a: Attempt): seq<Chunk>
    requires FailsEarly(a)
  {
    a.chunks[..FirstFailure(a.chunks).value]
  }

  function Stream(attempts: seq<Attempt>): Emission {
    if attempts == [] then Emission([], false)
    else if |attempts| > 1 && FailsEarly(attempts[0]) then
      var rest := Stream(attempts[1..]);
      Emission(Prelude(attempts[0]) + rest.chunks, rest.raised)
    else Emission(attempts[0].chunks, attempts[0].raises)
  }

  method StreamAttempts(attempts: seq<Attempt>) returns (emitted: seq<Chunk>, raised: bool)
    ensures Emission(emitted, raised) == Stream(attempts)
  {
    emitted, raised := [], false;
    for i := 0 to |attempts|
      invariant !raised
      invariant Stream(attempts) == Emission(emitted + Stream(attempts[i..]).chunks, Stream(attempts[i..]).raised)
    {
      ghost var before := emitted;
      assert attempts[i..][0] == attempts[i] && attempts[i..][1..] == attempts[i + 1..];
      var failed: bool;
      emitted, failed := StreamOne(attempts[i], i < |attempts| - 1, emitted);
      if !failed {
        return emitted, attempts[i].raises;
      }
      assert before + (Prelude(attempts[i]) + Stream(attempts[i + 1..]).chunks)
             == emitted + Stream(attempts[i + 1..]).chunks;
    }
    assert attempts[|attempts|..] == [];
  }

  /** Pass on the chunks of one attempt, unless it fails before any output and another is left. */
  method StreamOne(a: Attempt, anotherLeft: bool, before: seq<Chunk>) returns (emitted: seq<Chunk>, failed: bool)
    ensures failed == (anotherLeft && FailsEarly(a))
    ensures emitted == before + if failed then Prelude(a) else a.chunks
  {
    emitted := before;
    var produced := false;
    for i := 0 to |a.chunks|
      invariant emitted == before + a.chunks[..i]
      invariant anotherLeft && !produced ==> forall j :: 0 <= j < i ==> a.chunks[j].kind.Status? && !a.chunks[j].failed
      invariant anotherLeft && produced ==> !FailsEarly(a)
    {
      var chunk := a.chunks[i];
      PrefixStep(a.chunks, i);
      if chunk.failed && !produced && anotherLeft {
        assert FailsAt(a.chunks, i);
        return emitted, true;
      }
      if !chunk.kind.Status? {
        produced := true;
      }
      emitted := emitted + [chunk];
    }
    PrefixAll(a.chunks);
    failed := false;
  }

  // ----- one attempt speaks -----

  /** The first attempt that does not fail before output, or the last. */
  predicate Speaks(attempts: seq<Attempt>, c: nat) {
    && c < |attempts|
    && (c == |attempts| - 1 || !FailsEarly(attempts[c]))
    && forall j :: 0 <= j < c ==> FailsEarly(attempts[j])
  }

  function Outputs(chunks: seq<Chunk>): seq<Chunk> {
    if chunks == [] then [] else (if chunks[0].kind.Status? then [] else [chunks[0]]) + Outputs(chunks[1..])
  }

  function Failures(chunks: seq<Chunk>): seq<Chunk> {
    if chunks == [] then [] else (if chunks[0].failed then [chunks[0]] else []) + Failures(chunks[1..])
  }

  lemma {:induction false} AfterPrelude(prelude: seq<Chunk>, rest: seq<Chunk>)
    requires forall j :: 0 <= j < |prelude| ==> prelude[j].kind.Status? && !prelude[j].failed
    ensures Outputs(prelude + rest) == Outputs(rest) && Failures(prelude + rest) == Failures(rest)
  {
    if prelude == [] {
      assert prelude + rest == rest;
    } else {
      assert (prelude + rest)[1..] == prelude[1..] + rest;
      AfterPrelude(prelude[1..], rest);
    }
  }

  /** One attempt speaks, and only one: all output and every failure that comes through are its own, in
      its order and complete; the attempts before it leave nothing but harmless statuses in front. */
  lemma {:induction false} OneAttemptSpeaks(attempts: seq<Attempt>, c: nat)
    requires Speaks(attempts, c)
    ensures var out := Stream(attempts);
            && out.raised == attempts[c].raises
            && Outputs(out.chunks) == Outputs(attempts[c].chunks)
            && Failures(out.chunks) == Failures(attempts[c].chunks)
            && |attempts[c].chunks| <= |out.chunks|
            && out.chunks[|out.chunks| - |attempts[c].chunks|..] == attempts[c].chunks
            && (forall i :: 0 <= i < |out.chunks| - |attempts[c].chunks| ==>
                  out.chunks[i].kind.Status? && !out.chunks[i].failed)
  {
    if c > 0 {
      var prelude, rest := Prelude(attempts[0]), Stream(attempts[1..]);
      OneAttemptSpeaks(attempts[1..], c - 1);
      AfterPrelude(prelude, rest.chunks);
    }
  }

  /** The chunks before the given ones of the first attempts. */
  function Fronts(attempts: seq<Attempt>, ks: seq<nat>): seq<Chunk>
    requires |ks| <= |attempts| && forall j :: 0 <= j < |ks| ==> ks[j] <= |attempts[j].chunks|
  {
    if ks == [] then [] else attempts[0].chunks[..ks[0]] + Fronts(attempts[1..], ks[1..])
  }

  /** What comes before the speaking attempt: all of each earlier one up to its failed chunk. */
  lemma {:induction false} FrontIsWhatCameBefore(attempts: seq<Attempt>, c: nat, ks: seq<nat>)
    requires Speaks(attempts, c) && |ks| == c
    requires forall j :: 0 <= j < c ==> ks[j] <= |attempts[j].chunks| && FailsAt(attempts[j].chunks, ks[j])
    ensures Stream(attempts).chunks == Fronts(attempts, ks) + attempts[c].chunks
  {
    if c == 0 {
      assert [] + attempts[0].chunks == attempts[0].chunks;
    } else {
      var k := FirstFailure(attempts[0].chunks).value;
      assert FailsAt(attempts[0].chunks, k) && FailsAt(attempts[0].chunks, ks[0]) && k == ks[0];
      FrontIsWhatCameBefore(attempts[1..], c - 1, ks[1..]);
      assert Prelude(attempts[0]) + (Fronts(attempts[1..], ks[1..]) + attempts[c].chunks)
             == Fronts(attempts, ks) + attempts[c].chunks;
    }
  }

  lemma {:induction false} SomeAttemptSpeaks(attempts: seq<Attempt>) returns (c: nat)
    requires attempts != []
    ensures Speaks(attempts, c)
  {
    if |attempts| == 1 || !FailsEarly(attempts[0]) {
      c := 0;
    } else {
      c := SomeAttemptSpeaks(attempts[1..]);
      c := c + 1;
    }
  }

  lemma EarlyAfterPrelude(prelude: seq<Chunk>, rest: seq<Chunk>)
    requires forall j :: 0 <= j < |prelude| ==> prelude[j].kind.Status? && !prelude[j].failed
    ensures FirstFailure(prelude + rest).Some? <==> FirstFailure(rest).Some?
  {
    var n, all := |prelude|, prelude + rest;
    if FirstFailure(rest).Some? {
      var k := FirstFailure(rest).value;
      forall j | 0 <= j < n + k
        ensures all[j].kind.Status? && !all[j].failed
      {
        assert all[j] == if j < n then prelude[j] else rest[j - n];
      }
      assert FailsAt(all, n + k);
    }
    if FirstFailure(all).Some? {
      var k := FirstFailure(all).value;
      assert k >= n;
      forall j | 0 <= j < k - n
        ensures rest[j].kind.Status? && !rest[j].failed
      {
        assert rest[j] == all[n + j];
      }
      assert FailsAt(rest, k - n);
    }
  }

  lemma SpeakerFailsWithAll(attempts: seq<Attempt>, c: nat)
    requires Speaks(attempts, c)
    ensures FailsEarly(attempts[c]) <==> forall j :: 0 <= j < |attempts| ==> FailsEarly(attempts[j])
  {
  }

  lemma SpeakerDecides(attempts: seq<Attempt>, c: nat)
    requires Speaks(attempts, c)
    ensures FirstFailure(Stream(attempts).chunks).Some? <==> FailsEarly(attempts[c])
  {
    OneAttemptSpeaks(attempts, c);
    var out := Stream(attempts).chunks;
    var n := |out| - |attempts[c].chunks|;
    EarlyAfterPrelude(out[..n], out[n..]);
    assert out == out[..n] + out[n..];
  }

  /** A failure that the loop sees before any output means that every attempt failed before output. */
  lemma EarlyFailureMeansAllFailed(attempts: seq<Attempt>)
    requires attempts != []
    ensures FirstFailure(Stream(attempts).chunks).Some?
            <==> forall j :: 0 <= j < |attempts| ==> FailsEarly(attempts[j])
  {
    var c := SomeAttemptSpeaks(attempts);
    SpeakerFailsWithAll(attempts, c);
    SpeakerDecides(attempts, c);
  }
}
