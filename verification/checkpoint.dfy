/**
 * Checkpoint lookup of an evaluation-only run, main.py line 121:
 * the least of the sorted glob of `*.ckpt` files in the run directory.
 *
 * The lookup takes the lexicographically least path, whatever metric the
 * file name records, and fails when the directory holds no checkpoint.
 */
module Checkpoint {
  import opened Wrappers

  /** `[0]` on an empty sorted list raises IndexError. */
  datatype LookupError = NoCheckpoint

  /** Python's `a <= b` on str: code point by code point, a proper prefix first. */
  predicate LexLe(a: string, b: string)
  {
    a == [] || (b != [] && (a[0] < b[0] || (a[0] == b[0] && LexLe(a[1..], b[1..]))))
  }

  lemma {:induction false} LexLeReflexive(a: string)
    ensures LexLe(a, a)
  {
    if a != [] { LexLeReflexive(a[1..]); }
  }

  lemma {:induction false} LexLeTotal(a: string, b: string)
    ensures LexLe(a, b) || LexLe(b, a)
  {
    if a != [] && b != [] && a[0] == b[0] { LexLeTotal(a[1..], b[1..]); }
  }

  lemma {:induction false} LexLeAntisymmetric(a: string, b: string)
    requires LexLe(a, b) && LexLe(b, a)
    ensures a == b
  {
    if a != [] {
      LexLeAntisymmetric(a[1..], b[1..]);
      assert a == [a[0]] + a[1..] && b == [b[0]] + b[1..];
    }
  }

  lemma {:induction false} LexLeTransitive(a: string, b: string, c: string)
    requires LexLe(a, b) && LexLe(b, c)
    ensures LexLe(a, c)
  {
    if a != [] && a[0] == b[0] && b[0] == c[0] { LexLeTransitive(a[1..], b[1..], c[1..]); }
  }

  /** Paths in one directory compare as their file names do. */
  lemma {:induction false} LexLeCommonPrefix(p: string, a: string, b: string)
    ensures LexLe(p + a, p + b) == LexLe(a, b)
  {
    if p != [] {
      assert (p + a)[1..] == p[1..] + a && (p + b)[1..] == p[1..] + b;
      LexLeCommonPrefix(p[1..], a, b);
    } else {
      assert p + a == a && p + b == b;
    }
  }

  /** The directory `f"{save_dir}/{project}/{run}"`. */
  function CheckpointDir(saveDir: string, project: string, run: string): string
  {
    saveDir + "/" + project + "/" + run
  }

  /** The path glob reports for the entry `name` of `dir`. */
  function PathOf(dir: string, name: string): (p: string)
    ensures |p| == |dir| + 1 + |name|
    ensures p[..|dir|] == dir && p[|dir|] == '/' && p[|dir| + 1..] == name
  {
    dir + "/" + name
  }

  /** `*.ckpt`: ends in ".ckpt" and, as glob skips hidden entries, does not start with '.'. */
  predicate IsCheckpointName(name: string)
  {
    |name| >= 5 && name[|name| - 5..] == ".ckpt" && name[0] != '.'
  }

  /** The glob of `*.ckpt` in `dir`, given its entries `listing`, in listing order. */
  function Glob(dir: string, listing: seq<string>): (paths: seq<string>)
    ensures forall n :: n in listing && IsCheckpointName(n) ==> PathOf(dir, n) in paths
    ensures forall p :: p in paths ==> exists n :: n in listing && IsCheckpointName(n) && p == PathOf(dir, n)
  {
    if listing == [] then []
    else (if IsCheckpointName(listing[0]) then [PathOf(dir, listing[0])] else []) + Glob(dir, listing[1..])
  }

  /** `sorted(paths)[0]` for a non-empty list: one of the paths. */
  function Least(paths: seq<string>): (m: string)
    requires paths != []
    ensures m in paths
  {
    if |paths| == 1 then paths[0]
    else
      var rest := Least(paths[1..]);
      if LexLe(paths[0], rest) then paths[0] else rest
  }

  /** `sorted(paths)[0]` is no greater than any path, so it is the unique least one. */
  lemma {:induction false} LeastIsLeast(paths: seq<string>)
    requires paths != []
    ensures forall p :: p in paths ==> LexLe(Least(paths), p)
  {
    if |paths| == 1 {
      LexLeReflexive(paths[0]);
    } else {
      var rest := paths[1..];
      LeastIsLeast(rest);
      var r := Least(rest);
      forall p | p in paths ensures LexLe(Least(paths), p) {
        if p == paths[0] {
          LexLeReflexive(p);
          LexLeTotal(p, r);
        } else {
          assert p in rest;
          if LexLe(paths[0], r) { LexLeTransitive(paths[0], r, p); }
        }
      }
    }
  }

  /** Two least elements of the same set of paths are the same path. */
  lemma LeastUnique(a: string, b: string, paths: seq<string>)
    requires a in paths && b in paths
    requires forall p :: p in paths ==> LexLe(a, p)
    requires forall p :: p in paths ==> LexLe(b, p)
    ensures a == b
  {
    LexLeAntisymmetric(a, b);
  }

  /** Line 121: the lexicographically least checkpoint path, or an error when there is none. */
  function PickCheckpoint(dir: string, listing: seq<string>): (r: Result<string, LookupError>)
    ensures r.Err? <==> forall n :: n in listing ==> !IsCheckpointName(n)
    ensures r.Ok? ==> r.value in Glob(dir, listing)
    ensures r.Ok? ==> forall p :: p in Glob(dir, listing) ==> LexLe(r.value, p)
  {
    var paths := Glob(dir, listing);
    if paths == [] then Err(NoCheckpoint)
    else
      LeastIsLeast(paths);
      Ok(Least(paths))
  }

  /**
   * Line 121 globs the run directory `f"{save_dir}/{project}/{run}"`: the
   * checkpoint it loads is a `*.ckpt` entry of that directory, under its path.
   */
  lemma PickInRunDir(saveDir: string, project: string, run: string, listing: seq<string>)
    ensures var r := PickCheckpoint(CheckpointDir(saveDir, project, run), listing);
            r.Ok? ==> exists n :: n in listing && IsCheckpointName(n) &&
                                  r.value == saveDir + "/" + project + "/" + run + "/" + n
  {
    var dir := CheckpointDir(saveDir, project, run);
    var r := PickCheckpoint(dir, listing);
    if r.Ok? {
      var n :| n in listing && IsCheckpointName(n) && r.value == PathOf(dir, n);
      assert r.value == saveDir + "/" + project + "/" + run + "/" + n;
    }
  }

  /** The pick depends on which entries the directory holds, not on the order glob lists them in. */
  lemma PickIgnoresListingOrder(dir: string, listing: seq<string>, other: seq<string>)
    requires forall n :: n in listing <==> n in other
    ensures PickCheckpoint(dir, listing) == PickCheckpoint(dir, other)
  {
    var r, s := PickCheckpoint(dir, listing), PickCheckpoint(dir, other);
    if r.Ok? && s.Ok? {
      var g, h := Glob(dir, listing), Glob(dir, other);
      assert forall p :: p in g <==> p in h;
      LeastUnique(r.value, s.value, g);
    }
  }

  /** Paths in one directory compare as their entry names do. */
  lemma PathOrder(dir: string, a: string, b: string)
    ensures LexLe(PathOf(dir, a), PathOf(dir, b)) == LexLe(a, b)
  {
    assert PathOf(dir, a) == (dir + "/") + a && PathOf(dir, b) == (dir + "/") + b;
    LexLeCommonPrefix(dir + "/", a, b);
  }

  /** "last.ckpt" sorts before every name that starts with 'm'. */
  lemma LastBeforeM(n: string)
    requires n != [] && n[0] == 'm'
    ensures LexLe("last.ckpt", n)
  {
  }

  /**
   * Lightning names the retained checkpoints "model-..." and the most recent
   * one "last.ckpt"; as 'l' sorts before 'm', an evaluation-only run loads
   * "last.ckpt" when it exists and every other checkpoint name starts with
   * "model-". A versioned "last-v1.ckpt" breaks that hypothesis
   * (VersionedLastFirst).
   */
  lemma PickPrefersLast(dir: string, listing: seq<string>)
    requires "last.ckpt" in listing
    requires forall n :: n in listing && IsCheckpointName(n) && n != "last.ckpt" ==> |n| >= 6 && n[..6] == "model-"
    ensures PickCheckpoint(dir, listing) == Ok(PathOf(dir, "last.ckpt"))
  {
    var last := PathOf(dir, "last.ckpt");
    var g := Glob(dir, listing);
    assert IsCheckpointName("last.ckpt");
    forall p | p in g ensures LexLe(last, p) {
      var n :| n in listing && IsCheckpointName(n) && p == PathOf(dir, n);
      PathOrder(dir, "last.ckpt", n);
      if n == "last.ckpt" {
        LexLeReflexive(n);
      } else {
        assert n[0] == n[..6][0] == 'm';
        LastBeforeM(n);
      }
    }
    LeastUnique(PickCheckpoint(dir, listing).value, last, g);
  }

  /**
   * Lightning writes "last-v1.ckpt" when "last.ckpt" already exists; as '-'
   * sorts before '.', that file sorts first and is the one loaded.
   */
  lemma VersionedLastFirst(dir: string)
    ensures LexLe("last-v1.ckpt", "last.ckpt") && !LexLe("last.ckpt", "last-v1.ckpt")
    ensures PickCheckpoint(dir, ["last.ckpt", "last-v1.ckpt"]) == Ok(PathOf(dir, "last-v1.ckpt"))
  {
    var prefix := "last";
    assert "last-v1.ckpt" == prefix + "-v1.ckpt" && "last.ckpt" == prefix + ".ckpt";
    LexLeCommonPrefix(prefix, "-v1.ckpt", ".ckpt");
    LexLeCommonPrefix(prefix, ".ckpt", "-v1.ckpt");
    assert IsCheckpointName("last.ckpt") && IsCheckpointName("last-v1.ckpt");
    PickOfTwo(dir, "last.ckpt", "last-v1.ckpt");
  }

  /**
   * The pick ignores the metric recorded in the name: of an epoch-1 checkpoint
   * at 0.40 and an epoch-5 one at 0.10, the epoch-1 one is loaded.
   */
  lemma PickIgnoresMetric(dir: string)
    ensures PickCheckpoint(dir, ["model-05-0.10.ckpt", "model-01-0.40.ckpt"]) == Ok(PathOf(dir, "model-01-0.40.ckpt"))
  {
    var late, early := "model-05-0.10.ckpt", "model-01-0.40.ckpt";
    assert IsCheckpointName(late) && IsCheckpointName(early);
    EarlierEpochFirst();
    PickOfTwo(dir, late, early);
  }

  /** Of two checkpoint entries, the one whose name sorts first is picked. */
  lemma PickOfTwo(dir: string, a: string, b: string)
    requires IsCheckpointName(a) && IsCheckpointName(b) && LexLe(b, a)
    ensures PickCheckpoint(dir, [a, b]) == Ok(PathOf(dir, b))
  {
    var listing := [a, b];
    var g := Glob(dir, listing);
    assert PathOf(dir, b) in g;
    PathOrder(dir, b, a);
    LexLeReflexive(PathOf(dir, b));
    forall p | p in g ensures LexLe(PathOf(dir, b), p) {
      var n :| n in listing && IsCheckpointName(n) && p == PathOf(dir, n);
    }
    LeastUnique(PickCheckpoint(dir, listing).value, PathOf(dir, b), g);
  }

  /** The two names share "model-0" and then differ at the epoch digit. */
  lemma EarlierEpochFirst()
    ensures LexLe("model-01-0.40.ckpt", "model-05-0.10.ckpt")
  {
    var prefix := "model-0";
    assert "model-01-0.40.ckpt" == prefix + "1-0.40.ckpt" && "model-05-0.10.ckpt" == prefix + "5-0.10.ckpt";
    LexLeCommonPrefix(prefix, "1-0.40.ckpt", "5-0.10.ckpt");
  }
}
