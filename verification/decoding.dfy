/**
 * Decoding of one predicted example, main.py lines 135-147.
 *
 * A predicted batch holds the padded `reactants`, `products` and `sample`
 * id tensors. Each row of `reactants[:, 1:]` (the reference) and of
 * `sample[:, :-1]` (the generation) is cut at its first end-of-reaction id
 * and the ids before the cut are mapped through the vocabulary's
 * `token_decoder` and joined into one string.
 */
module Decoding {
  import opened Wrappers

  /** Why decoding one example raises, aborting the whole generation pass. */
  datatype DecodeError =
    | MissingTerminator            // the reference row holds no <eor> id: `nonzero(...)[0]` on an empty result
    | UnknownReferenceId(id: int)  // `token_decoder[id]` has no entry, while joining the reference
    | UnknownGeneratedId(id: int)  // `token_decoder[id]` has no entry, while joining the generation

  /** One zipped row: `reactants[k, 1:]`, `products[k, 1:]` and `sample[k, :-1]`. */
  datatype Example = Example(reactant: seq<int>, product: seq<int>, sample: seq<int>)

  /** The per-batch output of the predictor, its float metrics left out. */
  datatype Prediction = Prediction(reactants: seq<seq<int>>, products: seq<seq<int>>, sample: seq<seq<int>>)

  /** The two strings decoded from one example, and whether its generation is degenerate. */
  datatype Decoded = Decoded(reference: string, generated: string, degenerate: bool)

  function Min(a: nat, b: nat): nat { if a <= b then a else b }

  /** Python's `row[1:]`. */
  function DropFirst(row: seq<int>): seq<int> { if row == [] then [] else row[1..] }

  /** Python's `row[:-1]`. */
  function DropLast(row: seq<int>): seq<int> { if row == [] then [] else row[..|row| - 1] }

  /**
   * Python's `zip(reactants[:, 1:], products[:, 1:], sample[:, :-1])`: it stops
   * at the shortest of the three and slices every row it yields.
   */
  function Zip(reactants: seq<seq<int>>, products: seq<seq<int>>, sample: seq<seq<int>>): (es: seq<Example>)
    ensures |es| == Min(|reactants|, Min(|products|, |sample|))
  {
    if reactants == [] || products == [] || sample == [] then []
    else
      [Example(DropFirst(reactants[0]), DropFirst(products[0]), DropLast(sample[0]))]
      + Zip(reactants[1..], products[1..], sample[1..])
  }

  /** Row `k` of the zip is row `k` of each tensor, sliced. */
  lemma {:induction false} ZipAt(reactants: seq<seq<int>>, products: seq<seq<int>>, sample: seq<seq<int>>, k: nat)
    requires k < |reactants| && k < |products| && k < |sample|
    ensures k < |Zip(reactants, products, sample)|
    ensures Zip(reactants, products, sample)[k] ==
              Example(DropFirst(reactants[k]), DropFirst(products[k]), DropLast(sample[k]))
  {
    if k > 0 {
      ZipAt(reactants[1..], products[1..], sample[1..], k - 1);
    }
  }

  /** The examples of one predicted batch, in row order. */
  function Examples(p: Prediction): seq<Example>
  {
    Zip(p.reactants, p.products, p.sample)
  }

  /** The first position of `x` in `row`; `nonzero(row == x)[0]` when it exists. */
  function FirstIndexOf(row: seq<int>, x: int): (r: Option<nat>)
    ensures r.None? <==> x !in row
    ensures r.Some? ==> r.value < |row| && row[r.value] == x && x !in row[..r.value]
  {
    if row == [] then None
    else if row[0] == x then Some(0)
    else
      match FirstIndexOf(row[1..], x)
      case None => None
      case Some(k) =>
        assert row[..k + 1] == [row[0]] + row[1..][..k];
        Some(k + 1)
  }

  /** A position holding `x` with no `x` before it is the first index of `x`. */
  lemma FirstIndexOfUnique(row: seq<int>, x: int, k: nat)
    requires k < |row| && row[k] == x && x !in row[..k]
    ensures FirstIndexOf(row, x) == Some(k)
  {
  }

  /** The reference cut (line 136): the first <eor> position, an error when there is none. */
  function ReferenceCut(reactant: seq<int>, eor: int): (r: Result<nat, DecodeError>)
    ensures r.Err? <==> eor !in reactant
    ensures r.Err? ==> r.error == MissingTerminator
    ensures r.Ok? ==> r.value < |reactant| && reactant[r.value] == eor && eor !in reactant[..r.value]
  {
    match FirstIndexOf(reactant, eor)
    case None => Err(MissingTerminator)
    case Some(k) => Ok(k)
  }

  /**
   * The generated cut (line 140): the first <eor> position, or the whole row
   * when the model never emitted the terminator.
   */
  function GeneratedCut(sample: seq<int>, eor: int): (k: nat)
    ensures k <= |sample|
    ensures eor !in sample[..k]
    ensures k < |sample| <==> eor in sample
    ensures k < |sample| ==> sample[k] == eor
    ensures k == 0 <==> sample == [] || sample[0] == eor
  {
    match FirstIndexOf(sample, eor)
    case None => assert sample[..|sample|] == sample; |sample|
    case Some(k) => k
  }

  /**
   * `''.join([token_decoder[id] for id in ids])`: the concatenation of the
   * decoded ids, or the first id the decoder has no entry for (a KeyError).
   */
  function DecodeIds(ids: seq<int>, decoder: map<int, string>): (r: Result<string, int>)
    ensures r.Ok? <==> forall k :: 0 <= k < |ids| ==> ids[k] in decoder
  {
    if ids == [] then Ok([])
    else if ids[0] !in decoder then Err(ids[0])
    else
      match DecodeIds(ids[1..], decoder)
      case Err(id) => Err(id)
      case Ok(s) => Ok(decoder[ids[0]] + s)
  }

  /** The KeyError names the first id of `ids` that the decoder has no entry for. */
  lemma {:induction false} DecodeIdsError(ids: seq<int>, decoder: map<int, string>)
    requires DecodeIds(ids, decoder).Err?
    ensures DecodeIds(ids, decoder).error !in decoder
    ensures exists k :: 0 <= k < |ids| && ids[k] == DecodeIds(ids, decoder).error &&
                        forall j :: 0 <= j < k ==> ids[j] in decoder
  {
    if ids[0] in decoder {
      DecodeIdsError(ids[1..], decoder);
      var id := DecodeIds(ids, decoder).error;
      var k :| 0 <= k < |ids[1..]| && ids[1..][k] == id && forall j :: 0 <= j < k ==> ids[1..][j] in decoder;
      assert ids[k + 1] == id;
      forall j | 0 <= j < k + 1 ensures ids[j] in decoder {
        if j > 0 { assert ids[j] == ids[1..][j - 1]; }
      }
    } else {
      assert ids[0] == DecodeIds(ids, decoder).error;
    }
  }

  /** Decoding a concatenation decodes each part; the first part's error wins. */
  lemma {:induction false} DecodeIdsAppend(a: seq<int>, b: seq<int>, decoder: map<int, string>)
    ensures DecodeIds(a + b, decoder) ==
              match DecodeIds(a, decoder)
              case Err(id) => Err(id)
              case Ok(s) =>
                match DecodeIds(b, decoder)
                case Err(id) => Err(id)
                case Ok(t) => Ok(s + t)
  {
    if a == [] {
      assert a + b == b;
      match DecodeIds(b, decoder)
      case Err(id) =>
      case Ok(t) => assert [] + t == t;
    } else {
      assert (a + b)[1..] == a[1..] + b;
      DecodeIdsAppend(a[1..], b, decoder);
      if a[0] in decoder {
        match DecodeIds(a[1..], decoder)
        case Err(id) =>
        case Ok(s) =>
          match DecodeIds(b, decoder)
          case Err(id) =>
          case Ok(t) =>
            assert decoder[a[0]] + (s + t) == (decoder[a[0]] + s) + t;
      }
    }
  }

  /** A single id decodes to its vocabulary entry. */
  lemma DecodeIdsSingle(id: int, decoder: map<int, string>)
    requires id in decoder
    ensures DecodeIds([id], decoder) == Ok(decoder[id])
  {
    assert [id][1..] == [];
    assert decoder[id] + [] == decoder[id];
  }

  /** Every vocabulary entry is one character, as in a character-level vocabulary. */
  ghost predicate CharLevel(decoder: map<int, string>)
  {
    forall id | id in decoder :: |decoder[id]| == 1
  }

  /** With one character per id, the decoded string has one character per id, in order. */
  lemma {:induction false} DecodeIdsCharLevel(ids: seq<int>, decoder: map<int, string>)
    requires CharLevel(decoder)
    requires forall k :: 0 <= k < |ids| ==> ids[k] in decoder
    ensures |DecodeIds(ids, decoder).value| == |ids|
    ensures forall k :: 0 <= k < |ids| ==> |decoder[ids[k]]| == 1 && DecodeIds(ids, decoder).value[k] == decoder[ids[k]][0]
  {
    if ids != [] {
      var first := ids[0];
      assert first in decoder && |decoder[first]| == 1;
      DecodeIdsCharLevel(ids[1..], decoder);
      var s := DecodeIds(ids[1..], decoder).value;
      assert DecodeIds(ids, decoder).value == decoder[first] + s;
      forall k | 0 <= k < |ids|
        ensures |decoder[ids[k]]| == 1 && DecodeIds(ids, decoder).value[k] == decoder[ids[k]][0]
      {
        var id := ids[k];
        assert id in decoder && |decoder[id]| == 1;
        if k > 0 { assert id == ids[1..][k - 1]; }
      }
    }
  }

  /** A KeyError while joining the reference. */
  function AsReference(r: Result<string, int>): Result<string, DecodeError>
  {
    match r
    case Ok(s) => Ok(s)
    case Err(id) => Err(UnknownReferenceId(id))
  }

  /** A KeyError while joining the generation. */
  function AsGenerated(r: Result<string, int>): Result<string, DecodeError>
  {
    match r
    case Ok(s) => Ok(s)
    case Err(id) => Err(UnknownGeneratedId(id))
  }

  /** `r_smi` (lines 136-137): the reference decoded up to its first <eor>. */
  function ReferenceString(reactant: seq<int>, decoder: map<int, string>, eor: int): (r: Result<string, DecodeError>)
    ensures r == Err(MissingTerminator) <==> eor !in reactant
    ensures r.Err? && eor in reactant ==> r.error.UnknownReferenceId?
  {
    match ReferenceCut(reactant, eor)
    case Err(e) => Err(e)
    case Ok(k) => AsReference(DecodeIds(reactant[..k], decoder))
  }

  /**
   * A reference row is decoded exactly up to its first <eor>: the terminator
   * and whatever follows it never reach the string.
   */
  lemma ReferenceStringOfTerminated(p: seq<int>, t: seq<int>, decoder: map<int, string>, eor: int)
    requires eor !in p
    ensures ReferenceString(p + [eor] + t, decoder, eor) == AsReference(DecodeIds(p, decoder))
  {
    var row := p + [eor] + t;
    assert row[..|p|] == p;
    FirstIndexOfUnique(row, eor, |p|);
  }

  /** `g_smi` (lines 140-141): the generation decoded up to its first <eor>, or in full. */
  function GeneratedString(sample: seq<int>, decoder: map<int, string>, eor: int): (r: Result<string, DecodeError>)
    ensures r.Err? ==> r.error.UnknownGeneratedId?
  {
    AsGenerated(DecodeIds(sample[..GeneratedCut(sample, eor)], decoder))
  }

  /** A generation that emitted <eor> is decoded exactly up to its first <eor>. */
  lemma GeneratedStringOfTerminated(p: seq<int>, t: seq<int>, decoder: map<int, string>, eor: int)
    requires eor !in p
    ensures GeneratedString(p + [eor] + t, decoder, eor) == AsGenerated(DecodeIds(p, decoder))
  {
    var row := p + [eor] + t;
    assert row[..|p|] == p;
    FirstIndexOfUnique(row, eor, |p|);
  }

  /** A generation that never emitted <eor> is decoded in full. */
  lemma GeneratedStringOfUnterminated(sample: seq<int>, decoder: map<int, string>, eor: int)
    requires eor !in sample
    ensures GeneratedString(sample, decoder, eor) == AsGenerated(DecodeIds(sample, decoder))
  {
    assert sample[..|sample|] == sample;
  }

  /**
   * With a character-level vocabulary the generated string has as many
   * characters as the cut, so the full row length when no <eor> was emitted.
   */
  lemma GeneratedLengthCharLevel(sample: seq<int>, decoder: map<int, string>, eor: int)
    requires CharLevel(decoder)
    requires GeneratedString(sample, decoder, eor).Ok?
    ensures |GeneratedString(sample, decoder, eor).value| == GeneratedCut(sample, eor)
    ensures eor !in sample ==> |GeneratedString(sample, decoder, eor).value| == |sample|
  {
    var cut := sample[..GeneratedCut(sample, eor)];
    DecodeIdsCharLevel(cut, decoder);
  }

  /**
   * Both strings of one example (lines 135-147), and whether its generation is
   * degenerate (the generated cut is 0, line 144).
   */
  function DecodeExample(e: Example, decoder: map<int, string>, eor: int): Result<Decoded, DecodeError>
  {
    match ReferenceString(e.reactant, decoder, eor)
    case Err(x) => Err(x)
    case Ok(reference) =>
      match GeneratedString(e.sample, decoder, eor)
      case Err(x) => Err(x)
      case Ok(generated) => Ok(Decoded(reference, generated, GeneratedCut(e.sample, eor) == 0))
  }

  /** A decoded example holds exactly the reference string and the generated string. */
  lemma DecodeExampleStrings(e: Example, decoder: map<int, string>, eor: int)
    requires DecodeExample(e, decoder, eor).Ok?
    ensures ReferenceString(e.reactant, decoder, eor).Ok? && GeneratedString(e.sample, decoder, eor).Ok?
    ensures DecodeExample(e, decoder, eor).value.reference == ReferenceString(e.reactant, decoder, eor).value
    ensures DecodeExample(e, decoder, eor).value.generated == GeneratedString(e.sample, decoder, eor).value
  {
  }

  /**
   * An example decodes when both rows do, and then it is degenerate exactly
   * when the generated row is empty or starts with <eor>; a degenerate
   * generation decodes to the empty string.
   */
  lemma DecodeExampleDegenerate(e: Example, decoder: map<int, string>, eor: int)
    ensures DecodeExample(e, decoder, eor).Ok? <==>
              ReferenceString(e.reactant, decoder, eor).Ok? && GeneratedString(e.sample, decoder, eor).Ok?
    ensures DecodeExample(e, decoder, eor).Ok? ==>
              (DecodeExample(e, decoder, eor).value.degenerate <==> e.sample == [] || e.sample[0] == eor)
    ensures DecodeExample(e, decoder, eor).Ok? && DecodeExample(e, decoder, eor).value.degenerate ==>
              DecodeExample(e, decoder, eor).value.generated == []
  {
  }
}
