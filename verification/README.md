# x-transformers retrosynthesis driver: a Dafny model of `main.py`

`main.py` trains an x-transformers model on USPTO-50k reactions (or on
Shakespeare characters) with PyTorch Lightning. In an evaluation-only run it
does three more things. It picks a checkpoint: the first entry of the sorted
glob of `*.ckpt` in the run directory. It runs the predictor over the test
loader. It then decodes every predicted example into a reference and a
generated string and collects them in `dump_data`, which is pickled to
`output_dump.pkl`. This project models those steps and the configuration
logic in front of them:

- `wrappers.dfy` (module `Wrappers`): `Option` and `Result`.
- `decoding.dfy` (module `Decoding`): decoding of one example (lines 135-147).
  - The zip of the three id tensors and its slices.
  - The cut of each row at its first `<eor>` id.
  - The `''.join(token_decoder[...])` of the ids before the cut.
  - The degenerate-generation test of line 144.
- `dump.dfy` (module `Dump`): the loop of lines 129-147.
  - `DumpData` is a class with the two lists the loop appends to.
  - `DecodeAndDump`, `DumpBatch` and `DumpExample` are the outer loop, the
    inner loop and the inner loop's body.
  - Each is proved against the specification function `Run`, a fold of
    `Step` over all examples that stops at the first error.
  - The lemmas about `Run` state what the dump holds.
- `checkpoint.dfy` (module `Checkpoint`): the checkpoint pick of line 121.
  - Python's string order and the glob filter are modelled.
  - The pick is the least path.
- `config.dfy` (module `Config`): configuration.
  - The data directory (line 50) and the task dispatch (lines 56-70).
  - The dataset sizes, each `batch_size` times an iteration count.
  - The loaders' shuffle flags (lines 73-81).

Choices the model makes:

- `token_decoder` is a `map<int, string>`, so a missing id is an error (a
  KeyError, or an IndexError for a list-like decoder) and not a
  precondition.
- The `<eor>` id that `token_encoder['<eor>']` returns is a parameter `eor`.
- Any exception raised inside the loop ends the pass. `Run` therefore
  carries the failure, and then the pickle is never written.
- Python raises the reference's KeyError before the append of line 138, and
  the generation's KeyError after it. So when a generated id is unknown, one
  more reference than generation is left behind (`Dump.RunShape`).
- Tensor rows are sequences of ids. The model does not require every row of
  a batch to have the same length, so it covers the rectangular tensors of
  the source as a special case.

## Model

| member | source | states |
|---|---|---|
| `Decoding.Zip` | main.py:135 | zip stops at the shortest of the three row lists |
| `Decoding.ZipAt` | main.py:135 | row `k` of the zip is `reactants[k][1:]`, `products[k][1:]`, `sample[k][:-1]` |
| `Decoding.FirstIndexOf` | main.py:136 | `None` exactly when the id is absent; otherwise a position holding it with no earlier occurrence |
| `Decoding.FirstIndexOfUnique` | main.py:136 | a position holding `x` with no `x` before it is the first index |
| `Decoding.ReferenceCut` | main.py:136 | the first `<eor>` position of the reference; `nonzero()[0]` fails (MissingTerminator) exactly when there is no `<eor>` |
| `Decoding.GeneratedCut` | main.py:140 | the first `<eor>` position, or the row length when there is none; no `<eor>` before the cut; the cut is 0 exactly when the row is empty or starts with `<eor>` |
| `Decoding.DecodeIds` | main.py:137 | the join succeeds exactly when every id has a vocabulary entry |
| `Decoding.DecodeIdsError` | main.py:137 | a KeyError names an id with no entry, and every id before it has one |
| `Decoding.DecodeIdsAppend` | main.py:137 | joining a concatenation is the concatenation of the joins; the first part's KeyError wins |
| `Decoding.DecodeIdsSingle` | main.py:137 | a single known id decodes to its vocabulary entry |
| `Decoding.DecodeIdsCharLevel` | main.py:137 | with one-character entries, the string has one character per id, and character `k` comes from id `k` |
| `Decoding.ReferenceString` | main.py:136-137 | fails with MissingTerminator exactly when the reference has no `<eor>`; any other failure is an unknown reference id |
| `Decoding.ReferenceStringOfTerminated` | main.py:136-137 | for `p + [eor] + t` with no `<eor>` in `p`, the reference is the decoding of `p`, whatever `t` holds |
| `Decoding.GeneratedString` | main.py:140-141 | any failure is an unknown generated id; a missing `<eor>` is never an error |
| `Decoding.GeneratedStringOfTerminated` | main.py:140-141 | for `p + [eor] + t` with no `<eor>` in `p`, the generation is the decoding of `p` |
| `Decoding.GeneratedStringOfUnterminated` | main.py:140-141 | without `<eor>` the whole row is decoded |
| `Decoding.GeneratedLengthCharLevel` | main.py:140-141 | with a character-level vocabulary, the generated string is as long as the cut, and as long as the row when there is no `<eor>` |
| `Decoding.DecodeExample` | main.py:136-144 | both strings of one example and the line-144 flag (generated cut 0), or the first error; its contract is carried by `Decoding.DecodeExampleStrings` and `Decoding.DecodeExampleDegenerate`, which with `Decoding.ReferenceStringOfTerminated` and `Decoding.GeneratedStringOfTerminated` give the decoded values |
| `Decoding.DecodeExampleStrings` | main.py:136-142 | a decoded example holds exactly the reference string and the generated string |
| `Decoding.DecodeExampleDegenerate` | main.py:135-147 | an example decodes exactly when both strings do; it is flagged exactly when the generated row is empty or starts with `<eor>`; a flagged generation is empty |
| `Dump.DumpData.constructor` | main.py:129 | both lists start empty |
| `Dump.DumpData.AppendReactant` | main.py:138 | appends to `reactants`; `generated` is unchanged |
| `Dump.DumpData.AppendGenerated` | main.py:142 | appends to `generated`; `reactants` is unchanged |
| `Dump.Step` | main.py:136-147 | one inner-loop iteration: on success both strings are appended and the pair is printed when flagged; on a failure the reference is still appended when only the generation failed, since line 138 runs before line 141 raises; its contract is carried by `Dump.RunShape`, `Dump.RunDumpsEach` and `Dump.RunPrintsDegenerate` |
| `Dump.Run` | main.py:129-147 | the whole pass: one Step per example until the first error, which ends the pass; its contract is carried by `Dump.RunShape`, `Dump.RunCompletes`, `Dump.RunDumpsEach`, `Dump.RunFailsAtFirstBadExample`, `Dump.RunOnlyAppends` and `Dump.RunPrintsDegenerate` |
| `Dump.DumpExample` | main.py:136-147 | the lists, the printed pairs and the failure after one more example are `Run` of the examples seen plus that one |
| `Dump.DumpBatch` | main.py:135-147 | the inner loop over a batch's rows takes `Run(done)` to `Run(done + rows)`, stopping at the first error |
| `Dump.DecodeAndDump` | main.py:129-147 | the final lists, printed pairs and failure are `Run` of all examples, batch after batch |
| `Dump.AllExamplesSnoc` | main.py:130-135 | the examples of `b + 1` batches are those of `b` batches, then those of batch `b` |
| `Dump.RunStopsAtBatch` | main.py:130-147 | stopping the outer loop after a failure leaves the state of the whole pass |
| `Dump.RunShape` | main.py:136-142 | at most one generation per example; `reactants` is one longer than `generated` exactly when an unknown generated id aborted the pass; a completed pass has one generation per example; no more printed pairs than generations |
| `Dump.RunSnoc` | main.py:135-147 | one more example is one more step, unless the pass has already failed |
| `Dump.RunStopsAtFailure` | main.py:135-147 | once the pass has failed, later examples change nothing |
| `Dump.RunStopsEarly` | main.py:135-147 | an inner loop stopped on a failure has the state of the full inner loop |
| `Dump.AllExamplesAppend` | main.py:130-135 | the examples of `a + b` are those of `a`, then those of `b` |
| `Dump.AllExamplesAt` | main.py:130-135 | row `j` of batch `b` is example `\|AllExamples(out[..b])\| + j`, right after the examples of the batches before it |
| `Dump.UniformBatches` | main.py:130-135 | batches of `n` rows give `\|out\| * n` examples |
| `Dump.AllDecodeSnoc` | main.py:135-147 | all examples decode exactly when all but the last decode and the last one does too |
| `Dump.RunCompletes` | main.py:129-150 | the pass completes, and so reaches the pickle, exactly when every example decodes |
| `Dump.RunDumpsEach` | main.py:136-142 | after a completed pass both lists have one entry per example, and entry `k` holds the two strings of example `k` |
| `Dump.RunFailsAtFirstBadExample` | main.py:135-147 | a failed pass failed on the first example that does not decode, with that example's error, and every earlier example decoded |
| `Dump.RunOnlyAppends` | main.py:136-147 | each list after a prefix of the examples is a prefix of the final one |
| `Dump.RunPrintsDegenerate` | main.py:144-147 | a completed pass prints exactly the flagged pairs, in order; every printed generation is empty |
| `Checkpoint.LexLeReflexive` | main.py:121 | Python's string `<=` is reflexive |
| `Checkpoint.LexLeTotal` | main.py:121 | any two strings are ordered one way or the other |
| `Checkpoint.LexLeAntisymmetric` | main.py:121 | strings ordered both ways are equal |
| `Checkpoint.LexLeTransitive` | main.py:121 | the order is transitive |
| `Checkpoint.LexLeCommonPrefix` | main.py:121 | a common prefix does not change the order |
| `Checkpoint.LexLe` | main.py:121 | Python's `str <=`: code point by code point, a proper prefix first; its contract is carried by `Checkpoint.LexLeReflexive`, `Checkpoint.LexLeTotal`, `Checkpoint.LexLeAntisymmetric`, `Checkpoint.LexLeTransitive` and `Checkpoint.LexLeCommonPrefix` |
| `Checkpoint.PathOf` | main.py:121 | the path glob reports for an entry: the directory, one `/`, then the entry name |
| `Checkpoint.IsCheckpointName` | main.py:121 | `*.ckpt`: ends in `.ckpt` and, as glob skips hidden entries, does not start with `.`; its contract is carried by `Checkpoint.Glob` and `Checkpoint.PickCheckpoint` |
| `Checkpoint.Glob` | main.py:121 | the glob lists exactly the `*.ckpt` entries of the directory, as paths in it |
| `Checkpoint.Least` | main.py:121 | `sorted(paths)[0]` is one of the paths |
| `Checkpoint.LeastIsLeast` | main.py:121 | `sorted(paths)[0]` is no greater than any path |
| `Checkpoint.LeastUnique` | main.py:121 | two least paths of the same list are equal |
| `Checkpoint.PickCheckpoint` | main.py:121 | fails (IndexError) exactly when no entry matches `*.ckpt`; otherwise returns a globbed path no greater than any other |
| `Checkpoint.PickIgnoresListingOrder` | main.py:121 | the pick depends only on which entries exist, not on the order glob lists them in |
| `Checkpoint.PickInRunDir` | main.py:121 | the loaded checkpoint is `f"{save_dir}/{project}/{run}/"` followed by a `*.ckpt` entry of that directory |
| `Checkpoint.PathOrder` | main.py:121 | paths in one directory compare as their entry names do |
| `Checkpoint.PickPrefersLast` | main.py:121 | when `last.ckpt` exists (`save_last=True`, line 93) and every other `*.ckpt` entry's name starts with `model-`, `last.ckpt` is loaded |
| `Checkpoint.VersionedLastFirst` | main.py:121 | `last-v1.ckpt` sorts strictly before `last.ckpt`, so of the two it is the one loaded |
| `Checkpoint.PickOfTwo` | main.py:121 | of two checkpoint entries, the one whose name sorts first is loaded |
| `Checkpoint.PickIgnoresMetric` | main.py:121 | of `model-05-0.10.ckpt` and `model-01-0.40.ckpt`, the epoch-1 one is loaded, although its metric is worse |
| `Config.DataDir` | main.py:50 | the data directory is the given directory followed by the task name |
| `Config.ResolveTask` | main.py:56-70 | an unknown task raises NotImplementedError |
| `Config.ResolveTaskInverse` | main.py:56-61 | exactly the names "shakespeare_char" and "uspto50" resolve, each to its own task |
| `Config.BuildDatasets` | main.py:56-70 | train, val and test sizes are `batch_size` times `validate_every`, `validate_for` and `generate_for`; all read the data directory; only uspto50 builds a test dataset, on the val split |
| `Config.LoadersOf` | main.py:73-81 | the training loader shuffles exactly when `validate_every < 0`; the other two never shuffle; every loader has batch size `batch_size` |
| `Config.BuildLoaders` | main.py:56-81 | as written, the loaders are built exactly for the task "uspto50" |
| `Config.ShakespeareHasNoTestLoader` | main.py:56-81 | the shakespeare_char task fails at the test loader |
| `Config.BuildDatasetsFixed` | main.py:56-70 | every known task gets a test dataset sized `batch_size * generate_for` on the val split |
| `Config.BuildLoadersFixed` | main.py:56-81 | every known task gets its three loaders with the sizes and shuffle flags above; only an unknown task fails |
| `Config.FixAgreesOnUspto50` | main.py:61-81 | the corrected construction agrees with the code wherever the code succeeds |

## Left out

- The training branch (lines 112-118) and its dead `if False:` block (lines 113-116). Only the evaluation-only branch is modelled.
- `trainer.test` and `trainer.predict` (lines 125-128) are framework calls. The predictor's output is the input `out` of `Dump.DecodeAndDump`.
- The model, the datasets' contents, `collate_fn`, worker counts, pinning and prefetching of the DataLoaders are left out. So are the WandbLogger, the ModelCheckpoint retention policy, the Trainer options and the matmul precision. None of them is logic of `main.py`.
- The accuracy and character-mismatch prints (lines 132-134) are float formatting and are left out. So are the printed separator and the blank line.
- The pickle write (lines 149-150) is I/O. The model only states when it happens: after a completed pass (`Dump.RunCompletes`).
- `token_encoder['<eor>']` raising a KeyError is left out. The `<eor>` id is a parameter.
- Argument parsing (lines 1-49) is left out. `Config.Options` holds the parsed values that this part reads.
- `vocab_size` and `pad_token_id` (lines 67-68) come from the dataset class. That class is not part of this model.
- Glob metacharacters inside the directory name, and entries in sub-directories, are left out. The listing is given.
- Glob strips trailing '/' from the directory part of its pattern before joining. So for an empty run name, or one ending in '/', Python reports `save/proj/x.ckpt` where `Checkpoint.PathOf` gives `save/proj//x.ckpt`. The same entry is picked either way; only the path string differs.
- Checkpoint.PickPrefersLast: holds only when every other `*.ckpt` entry's name starts with `model-`. Versioned `last-vN.ckpt` files, which Lightning writes when `last.ckpt` already exists, sort before `last.ckpt` and are loaded instead (`Checkpoint.VersionedLastFirst`).
- The order in which the operating system lists directory entries is not modelled. `Checkpoint.PickIgnoresListingOrder` shows that the pick does not depend on it.
- Negative ids are left out: if `token_decoder` were a list, Python would index it from the end. The decoder is a map, so every id it has no entry for fails.
- The decoder is indexed with 0-d tensor elements (lines 137 and 141). A dict keyed by ints would not match those, since tensors hash by identity. So the int-keyed map assumes a list-like decoder, for which an unknown id raises IndexError rather than KeyError. The model does not tell the two exceptions apart: both end the pass as an unknown id.
- No encode/decode round trip is stated. The encoder belongs to the dataset classes, which are not part of this model.
- `Decoding.GeneratedString`: its own contract only states the error kind. What it decodes is stated by `Decoding.GeneratedStringOfTerminated` and `Decoding.GeneratedStringOfUnterminated`.

## Findings

| source | as written | input that shows it | evidently intended | confidence | as-written member | corrected member |
|---|---|---|---|---|---|---|
| main.py:56-81 | only the uspto50 branch defines `test_dataset`, but line 80 builds the test loader from it for every task | `--task shakespeare_char`: line 80 raises NameError before training or evaluation starts | the shakespeare_char branch builds a test dataset the way the uspto50 branch does, on the val split sized by `generate_for` | high; not executed | `Config.ShakespeareHasNoTestLoader` | `Config.BuildLoadersFixed` |
