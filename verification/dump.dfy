/**
 * The decoding and dump loop of an evaluation-only run, main.py lines 129-147:
 * every example of every predicted batch is decoded and its two strings are
 * appended to the parallel lists `dump_data['reactants']` and
 * `dump_data['generated']`.
 */
module Dump {
  import opened Wrappers
  import opened Decoding

  /** `dump_data`: two lists that the loop only ever appends to. */
  class DumpData {
    var reactants: seq<string>
    var generated: seq<string>

    /** `{'reactants': [], 'generated': []}` (line 129). */
    constructor ()
      ensures reactants == [] && generated == []
    {
      reactants := [];
      generated := [];
    }

    /** `dump_data['reactants'].append(s)` (line 138). */
    method AppendReactant(s: string)
      modifies this
      ensures reactants == old(reactants) + [s]
      ensures generated == old(generated)
    {
      reactants := reactants + [s];
    }

    /** `dump_data['generated'].append(s)` (line 142). */
    method AppendGenerated(s: string)
      modifies this
      ensures generated == old(generated) + [s]
      ensures reactants == old(reactants)
    {
      generated := generated + [s];
    }
  }

  /**
   * The observable state of a generation pass: the two dump lists, the
   * (reference, generated) pairs printed as degenerate (lines 144-147), and
   * the error that aborted the pass, if any.
   */
  datatype Pass = Pass(reactants: seq<string>, generated: seq<string>,
                       printed: seq<(string, string)>, failure: Option<DecodeError>)

  /** All examples of the predicted batches, batch after batch, row after row. */
  function AllExamples(out: seq<Prediction>): seq<Example>
  {
    if out == [] then [] else AllExamples(out[..|out| - 1]) + Examples(out[|out| - 1])
  }

  /**
   * One iteration of the inner loop. The reference is appended before the
   * generation is decoded, so an unknown generated id leaves one more
   * reference than generation behind.
   */
  function Step(p: Pass, e: Example, decoder: map<int, string>, eor: int): Pass
  {
    match DecodeExample(e, decoder, eor)
    case Ok(d) =>
      p.(reactants := p.reactants + [d.reference], generated := p.generated + [d.generated],
         printed := if d.degenerate then p.printed + [(d.reference, d.generated)] else p.printed)
    case Err(x) =>
      var reference := ReferenceString(e.reactant, decoder, eor);
      p.(reactants := if reference.Ok? then p.reactants + [reference.value] else p.reactants,
         failure := Some(x))
  }

  /**
   * The pass over `es`: one Step per example until the first error, which
   * Python raises and which ends the pass.
   */
  function Run(es: seq<Example>, decoder: map<int, string>, eor: int): Pass
  {
    if es == [] then Pass([], [], [], None)
    else
      var prev := Run(es[..|es| - 1], decoder, eor);
      if prev.failure.Some? then prev else Step(prev, es[|es| - 1], decoder, eor)
  }

  /**
   * The body of the inner loop (lines 136-147) for one example: decode and
   * append the reference, then decode and append the generation, then print
   * the pair when the generated cut is 0.
   */
  method DumpExample(dump: DumpData, printed: seq<(string, string)>, e: Example,
                     ghost seen: seq<Example>, decoder: map<int, string>, eor: int)
    returns (printed': seq<(string, string)>, failure: Option<DecodeError>)
    requires Pass(dump.reactants, dump.generated, printed, None) == Run(seen, decoder, eor)
    modifies dump
    ensures Pass(dump.reactants, dump.generated, printed', failure) == Run(seen + [e], decoder, eor)
  {
    RunSnoc(seen, e, decoder, eor);
    printed', failure := printed, None;
    var reference := ReferenceString(e.reactant, decoder, eor);
    if reference.Err? {
      failure := Some(reference.error);
      return;
    }
    dump.AppendReactant(reference.value);
    var generation := GeneratedString(e.sample, decoder, eor);
    if generation.Err? {
      failure := Some(generation.error);
      return;
    }
    dump.AppendGenerated(generation.value);
    if GeneratedCut(e.sample, eor) == 0 {
      printed' := printed + [(reference.value, generation.value)];
    }
  }

  /**
   * The inner loop (line 135) over the examples of one batch, entered with a
   * pass that has not failed over the examples `done` seen so far.
   */
  method DumpBatch(dump: DumpData, printed: seq<(string, string)>, rows: seq<Example>,
                   ghost done: seq<Example>, decoder: map<int, string>, eor: int)
    returns (printed': seq<(string, string)>, failure: Option<DecodeError>)
    requires Pass(dump.reactants, dump.generated, printed, None) == Run(done, decoder, eor)
    modifies dump
    ensures Pass(dump.reactants, dump.generated, printed', failure) == Run(done + rows, decoder, eor)
  {
    printed', failure := printed, None;
    var j := 0;
    assert done + rows[..j] == done;
    while j < |rows| && failure.None?
      invariant 0 <= j <= |rows|
      invariant Pass(dump.reactants, dump.generated, printed', failure) == Run(done + rows[..j], decoder, eor)
    {
      assert done + rows[..j] + [rows[j]] == done + rows[..j + 1];
      printed', failure := DumpExample(dump, printed', rows[j], done + rows[..j], decoder, eor);
      j := j + 1;
    }
    RunStopsEarly(done, rows, j, decoder, eor);
  }

  /**
   * The loop of lines 129-147 over the predictor output `out`. It returns the
   * dump, the pairs printed as degenerate and the error that aborted the
   * pass; on an error the pickle of line 150 is never written.
   */
  method DecodeAndDump(out: seq<Prediction>, decoder: map<int, string>, eor: int)
    returns (dump: DumpData, printed: seq<(string, string)>, failure: Option<DecodeError>)
    ensures Pass(dump.reactants, dump.generated, printed, failure) == Run(AllExamples(out), decoder, eor)
  {
    dump := new DumpData();
    printed := [];
    failure := None;
    var b := 0;
    ghost var seen: seq<Example> := [];
    while b < |out| && failure.None?
      invariant 0 <= b <= |out|
      invariant seen == AllExamples(out[..b])
      invariant Pass(dump.reactants, dump.generated, printed, failure) == Run(seen, decoder, eor)
    {
      AllExamplesSnoc(out, b);
      var rows := Examples(out[b]);
      printed, failure := DumpBatch(dump, printed, rows, seen, decoder, eor);
      seen := seen + rows;
      b := b + 1;
    }
    RunStopsAtBatch(out, b, decoder, eor);
  }

  /** The examples of the first `b + 1` batches are those of the first `b`, then those of batch `b`. */
  lemma AllExamplesSnoc(out: seq<Prediction>, b: nat)
    requires b < |out|
    ensures AllExamples(out[..b + 1]) == AllExamples(out[..b]) + Examples(out[b])
  {
    assert out[..b + 1][..b] == out[..b];
  }

  /** The outer loop stopped after `b` batches on a failure has the state of the full pass. */
  lemma RunStopsAtBatch(out: seq<Prediction>, b: nat, decoder: map<int, string>, eor: int)
    requires b <= |out|
    requires b < |out| ==> Run(AllExamples(out[..b]), decoder, eor).failure.Some?
    ensures Run(AllExamples(out[..b]), decoder, eor) == Run(AllExamples(out), decoder, eor)
  {
    if b < |out| {
      AllExamplesAppend(out[..b], out[b..]);
      assert out[..b] + out[b..] == out;
      RunStopsAtFailure(AllExamples(out[..b]), AllExamples(out[b..]), decoder, eor);
    } else {
      assert out[..b] == out;
    }
  }

  /**
   * The two dump lists stay parallel: they have one entry per example of a
   * completed pass, and differ by at most the one reference appended before
   * an unknown generated id aborted the pass.
   */
  lemma {:induction false} RunShape(es: seq<Example>, decoder: map<int, string>, eor: int)
    ensures var p := Run(es, decoder, eor);
            |p.generated| <= |es| &&
            |p.reactants| == |p.generated| + (if p.failure.Some? && p.failure.value.UnknownGeneratedId? then 1 else 0) &&
            (p.failure.None? ==> |p.generated| == |es|) &&
            |p.printed| <= |p.generated|
  {
    if es != [] {
      RunShape(es[..|es| - 1], decoder, eor);
    }
  }

  /** One more example is one more Step, unless the pass has already failed. */
  lemma RunSnoc(es: seq<Example>, e: Example, decoder: map<int, string>, eor: int)
    ensures Run(es + [e], decoder, eor) ==
              if Run(es, decoder, eor).failure.Some? then Run(es, decoder, eor)
              else Step(Run(es, decoder, eor), e, decoder, eor)
  {
  }

  /** Once the pass has failed, later examples change nothing. */
  lemma {:induction false} RunStopsAtFailure(a: seq<Example>, b: seq<Example>, decoder: map<int, string>, eor: int)
    requires Run(a, decoder, eor).failure.Some?
    ensures Run(a + b, decoder, eor) == Run(a, decoder, eor)
    decreases |b|
  {
    if b == [] {
      assert a + b == a;
    } else {
      RunStopsAtFailure(a, b[..|b| - 1], decoder, eor);
      assert (a + b)[..|a + b| - 1] == a + b[..|b| - 1];
    }
  }

  /** A loop over `rest` that stopped at `j` on a failure has the state of the full loop. */
  lemma RunStopsEarly(done: seq<Example>, rest: seq<Example>, j: nat, decoder: map<int, string>, eor: int)
    requires j <= |rest|
    requires j < |rest| ==> Run(done + rest[..j], decoder, eor).failure.Some?
    ensures Run(done + rest[..j], decoder, eor) == Run(done + rest, decoder, eor)
  {
    if j < |rest| {
      assert done + rest[..j] + rest[j..] == done + rest;
      RunStopsAtFailure(done + rest[..j], rest[j..], decoder, eor);
    } else {
      assert rest[..j] == rest;
    }
  }

  /** Batches are visited in order: the examples of `a + b` are those of `a`, then those of `b`. */
  lemma {:induction false} AllExamplesAppend(a: seq<Prediction>, b: seq<Prediction>)
    ensures AllExamples(a + b) == AllExamples(a) + AllExamples(b)
    decreases |b|
  {
    if b == [] {
      assert a + b == a;
    } else {
      var init, last := b[..|b| - 1], b[|b| - 1];
      AllExamplesAppend(a, init);
      assert (a + b)[..|a + b| - 1] == a + init;
      assert (a + b)[|a + b| - 1] == last;
      assert AllExamples(a + b) == AllExamples(a + init) + Examples(last);
      assert AllExamples(b) == AllExamples(init) + Examples(last);
    }
  }

  /**
   * Batch-then-row order: row `j` of batch `b` comes right after the examples
   * of the batches before it.
   */
  lemma {:induction false} AllExamplesAt(out: seq<Prediction>, b: nat, j: nat)
    requires b < |out| && j < |Examples(out[b])|
    ensures |AllExamples(out[..b])| + j < |AllExamples(out)|
    ensures AllExamples(out)[|AllExamples(out[..b])| + j] == Examples(out[b])[j]
  {
    var init := out[..|out| - 1];
    assert init[..b] == out[..b];
    if b < |out| - 1 {
      assert init[b] == out[b];
      AllExamplesAt(init, b, j);
    } else {
      assert init == out[..b];
    }
  }

  /** Batches of `n` rows each give `|out| * n` examples. */
  lemma {:induction false} UniformBatches(out: seq<Prediction>, n: nat)
    requires forall b :: 0 <= b < |out| ==>
               |out[b].reactants| == n && |out[b].products| == n && |out[b].sample| == n
    ensures |AllExamples(out)| == |out| * n
  {
    if out != [] {
      var init := out[..|out| - 1];
      UniformBatches(init, n);
      MulSucc(|init|, n);
    }
  }

  /** One more batch of `n` rows is `n` more rows. */
  lemma MulSucc(a: nat, n: nat)
    ensures (a + 1) * n == a * n + n
  {
  }

  /** Every example of `es` decodes. */
  predicate AllDecode(es: seq<Example>, decoder: map<int, string>, eor: int)
  {
    forall k :: 0 <= k < |es| ==> DecodeExample(es[k], decoder, eor).Ok?
  }

  /** `es` decodes when its examples but the last do and the last one does too. */
  lemma AllDecodeSnoc(es: seq<Example>, decoder: map<int, string>, eor: int)
    requires es != []
    ensures AllDecode(es, decoder, eor) <==>
              AllDecode(es[..|es| - 1], decoder, eor) && DecodeExample(es[|es| - 1], decoder, eor).Ok?
  {
  }

  /** A pass completes exactly when every example decodes. */
  lemma {:induction false} RunCompletes(es: seq<Example>, decoder: map<int, string>, eor: int)
    ensures Run(es, decoder, eor).failure.None? <==> AllDecode(es, decoder, eor)
  {
    if es != [] {
      var init := es[..|es| - 1];
      RunCompletes(init, decoder, eor);
      AllDecodeSnoc(es, decoder, eor);
    }
  }

  /** After a completed pass, element `k` of both dump lists comes from example `k`. */
  lemma {:induction false} RunDumpsEach(es: seq<Example>, decoder: map<int, string>, eor: int)
    requires Run(es, decoder, eor).failure.None?
    ensures |Run(es, decoder, eor).reactants| == |es| && |Run(es, decoder, eor).generated| == |es|
    ensures forall k :: 0 <= k < |es| ==>
              DecodeExample(es[k], decoder, eor).Ok? &&
              Run(es, decoder, eor).reactants[k] == DecodeExample(es[k], decoder, eor).value.reference &&
              Run(es, decoder, eor).generated[k] == DecodeExample(es[k], decoder, eor).value.generated
  {
    if es != [] {
      var init, last := es[..|es| - 1], es[|es| - 1];
      var p := Run(init, decoder, eor);
      assert p.failure.None?;
      RunDumpsEach(init, decoder, eor);
      var d := DecodeExample(last, decoder, eor);
      assert d.Ok?;
      var q := Run(es, decoder, eor);
      assert q.reactants == p.reactants + [d.value.reference];
      assert q.generated == p.generated + [d.value.generated];
      forall k | 0 <= k < |es|
        ensures DecodeExample(es[k], decoder, eor).Ok? &&
                q.reactants[k] == DecodeExample(es[k], decoder, eor).value.reference &&
                q.generated[k] == DecodeExample(es[k], decoder, eor).value.generated
      {
        if k < |init| {
          assert es[k] == init[k];
        }
      }
    }
  }

  /**
   * A failed pass failed on its first example that does not decode, with that
   * example's error; the generated list holds exactly the examples before it.
   */
  lemma {:induction false} RunFailsAtFirstBadExample(es: seq<Example>, decoder: map<int, string>, eor: int)
    requires Run(es, decoder, eor).failure.Some?
    ensures |Run(es, decoder, eor).generated| < |es|
    ensures DecodeExample(es[|Run(es, decoder, eor).generated|], decoder, eor) == Err(Run(es, decoder, eor).failure.value)
    ensures forall j :: 0 <= j < |Run(es, decoder, eor).generated| ==> DecodeExample(es[j], decoder, eor).Ok?
  {
    var init, last := es[..|es| - 1], es[|es| - 1];
    assert forall k :: 0 <= k < |init| ==> es[k] == init[k];
    if Run(init, decoder, eor).failure.Some? {
      RunFailsAtFirstBadExample(init, decoder, eor);
    } else {
      RunCompletes(init, decoder, eor);
      RunDumpsEach(init, decoder, eor);
      var p := Run(init, decoder, eor);
      assert Run(es, decoder, eor).generated == p.generated;
      assert |p.generated| == |init|;
    }
  }

  /** The dump is append-only: the state after a prefix of the examples is a prefix of the final state. */
  lemma {:induction false} RunOnlyAppends(es: seq<Example>, j: nat, decoder: map<int, string>, eor: int)
    requires j <= |es|
    ensures Run(es[..j], decoder, eor).reactants <= Run(es, decoder, eor).reactants
    ensures Run(es[..j], decoder, eor).generated <= Run(es, decoder, eor).generated
    ensures Run(es[..j], decoder, eor).printed <= Run(es, decoder, eor).printed
    decreases |es|
  {
    if j < |es| {
      var init := es[..|es| - 1];
      assert init[..j] == es[..j];
      RunOnlyAppends(init, j, decoder, eor);
    } else {
      assert es[..j] == es;
    }
  }

  /** The (reference, generated) pairs of the examples whose generation is degenerate, in order. */
  function Flagged(es: seq<Example>, decoder: map<int, string>, eor: int): seq<(string, string)>
  {
    if es == [] then []
    else
      Flagged(es[..|es| - 1], decoder, eor) +
      match DecodeExample(es[|es| - 1], decoder, eor)
      case Ok(d) => if d.degenerate then [(d.reference, d.generated)] else []
      case Err(_) => []
  }

  /**
   * The diagnostic of lines 144-147 is printed for exactly the degenerate
   * examples, each with an empty generated string; those examples are still
   * in the dump (RunDumpsEach).
   */
  lemma {:induction false} RunPrintsDegenerate(es: seq<Example>, decoder: map<int, string>, eor: int)
    ensures Run(es, decoder, eor).failure.None? ==> Run(es, decoder, eor).printed == Flagged(es, decoder, eor)
    ensures forall k :: 0 <= k < |Run(es, decoder, eor).printed| ==> Run(es, decoder, eor).printed[k].1 == []
  {
    if es != [] {
      RunPrintsDegenerate(es[..|es| - 1], decoder, eor);
    }
  }
}
