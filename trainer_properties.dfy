/** What `Trainer` promises: how many epochs `train` runs and when it stops
    early, that the best epoch is the first epoch reaching the lowest
    validation loss, that the newest intermediate checkpoint belongs to the
    best epoch, that loading what was saved changes nothing, and what
    `clean_models` deletes. */
module TrainerProperties {
  import opened Common
  import opened Trainer

  // ---------------------------------------------------------------------
  // Checkpoint names

  lemma {:induction false} DigitRunOfDigits(d: string, t: string)
    requires forall i :: 0 <= i < |d| ==> IsDigit(d[i])
    requires |t| > 0 && !IsDigit(t[0])
    ensures DigitRun(d + t) == |d|
    decreases |d|
  {
    if |d| > 0 {
      assert (d + t)[1..] == d[1..] + t;
      DigitRunOfDigits(d[1..], t);
    } else {
      assert d + t == t;
    }
  }

  lemma PaddedDigits(n: nat, w: nat)
    ensures |ZeroPadded(n, w)| >= w
    ensures forall i :: 0 <= i < |ZeroPadded(n, w)| ==> IsDigit(ZeroPadded(n, w)[i])
  {
    var t := NatText(n);
    if |t| < w {
      var z := Zeros(w - |t|);
      forall i | 0 <= i < |z + t| ensures IsDigit((z + t)[i]) {
        if i >= |z| { assert (z + t)[i] == t[i - |z|]; }
      }
    }
  }

  /** Every checkpoint of a trained epoch matches `checkpoint\d+\.pt`. */
  lemma CheckpointNameMatches(epoch: nat)
    ensures MatchesCheckpoint(CheckpointName(epoch))
  {
    var p := ZeroPadded(epoch, 4);
    var name := CheckpointName(epoch);
    PaddedDigits(epoch, 4);
    assert name[..10] == "checkpoint";
    assert name[10..] == p + ".pt";
    DigitRunOfDigits(p, ".pt");
    assert (p + ".pt")[|p|..] == ".pt";
  }

  /** Neither the final checkpoint, nor the config, nor a checkpoint saved
      before the first epoch (`checkpoint-001.pt`) matches. */
  lemma OtherNamesDoNotMatch()
    ensures !MatchesCheckpoint(LastName)
    ensures !MatchesCheckpoint(ConfigName)
    ensures !MatchesCheckpoint(CheckpointName(-1))
  {
    assert LastName[10..] == ".pt";
    assert !IsDigit(LastName[10..][0]);
    assert ConfigName[..10] != "checkpoint" by { assert ConfigName[1] != "checkpoint"[1]; }
    var n := CheckpointName(-1);
    assert n[10..][0] == '-';
  }

  /** Below 10000, checkpoint names sort in epoch order. */
  lemma CheckpointNameOrder(a: nat, b: nat)
    requires a < b < 10000
    ensures Less(CheckpointName(a), CheckpointName(b))
  {
    assert Pow10(4) == 10000 by {
      assert Pow10(1) == 10 && Pow10(2) == 100 && Pow10(3) == 1000;
    }
    PaddedIsFixed(a, 4);
    PaddedIsFixed(b, 4);
    var fa := FixedDigits(a, 4);
    var fb := FixedDigits(b, 4);
    FixedDigitsOrder(a, b, 4);
    LessExtend(fa, fb, ".pt", ".pt");
    LessPrefix("checkpoint", fa + ".pt", fb + ".pt");
    assert CheckpointName(a) == "checkpoint" + (fa + ".pt");
    assert CheckpointName(b) == "checkpoint" + (fb + ".pt");
  }

  // ---------------------------------------------------------------------
  // Epoch counts and early stopping

  /** One iteration trains one epoch, and stops the loop only on the early
      stopping condition or an error. */
  lemma StepCounts(setup: Setup, s: State, es: int, tl: int -> real, vl: int -> real, bounds: (real, real))
    ensures var (t, exit) := Step(setup, s, es, tl, vl, bounds);
      && t.epoch == s.epoch + 1 && |t.trainLoss| == |s.trainLoss| + 1
      && (setup.hasValLoader ==> |t.valLoss| == |s.valLoss| + 1)
      && (!setup.hasValLoader ==> exit.None?)
      && (exit == Some(Stopped) ==> es != 0 && t.bestEpoch + es <= t.epoch)
      && (exit.Some? ==> exit.value != Finished)
  {
  }

  /** `train`'s loop from iteration `e`: it trains one epoch per
      iteration, at most `epochs - e` of them and all of them when it is not
      stopped; it stops early only when `early_stopping` is non-zero and
      `best_epoch + early_stopping <= epoch`. */
  lemma {:induction false} LoopCounts(setup: Setup, s: State, e: int, epochs: int, es: int,
                                      tl: int -> real, vl: int -> real, bounds: (real, real))
    ensures var (t, exit) := Loop(setup, s, e, epochs, es, tl, vl, bounds);
      && t.epoch - s.epoch == |t.trainLoss| - |s.trainLoss|
      && 0 <= t.epoch - s.epoch <= (if epochs > e then epochs - e else 0)
      && (setup.hasValLoader ==> |t.valLoss| - |s.valLoss| == t.epoch - s.epoch)
      && (exit == Finished ==> t.epoch - s.epoch == (if epochs > e then epochs - e else 0))
      && (exit == Stopped ==> setup.hasValLoader && es != 0 && t.bestEpoch + es <= t.epoch)
      && (!setup.hasValLoader ==> exit == Finished)
    decreases epochs - e
  {
    if e < epochs {
      StepCounts(setup, s, es, tl, vl, bounds);
      var (s1, exit) := Step(setup, s, es, tl, vl, bounds);
      if exit.None? {
        LoopCounts(setup, s1, e + 1, epochs, es, tl, vl, bounds);
      }
    }
  }

  /** A fresh trainer's `train(epochs)` runs at most `epochs` epochs, one
      history entry each. */
  lemma TrainRunsAtMostEpochs(setup: Setup, files: Folder, epochs: int, es: int,
                              tl: int -> real, vl: int -> real, bounds: (real, real))
    ensures var t := TrainRun(setup, Fresh(files), epochs, es, tl, vl, bounds).0;
      && |t.trainLoss| == t.epoch + 1
      && t.epoch + 1 <= (if epochs > 0 then epochs else 0)
      && (setup.hasValLoader ==> |t.valLoss| == t.epoch + 1)
  {
    LoopCounts(setup, Fresh(files), 0, epochs, es, tl, vl, bounds);
  }

  /** Without a validation loader `train` runs every epoch and then always
      fails: the final save needs the loader for the residual bounds, after
      `checkpoint.pt` is written. */
  lemma TrainWithoutValidationFails(setup: Setup, s: State, epochs: int, es: int,
                                    tl: int -> real, vl: int -> real, bounds: (real, real))
    requires !setup.hasValLoader
    ensures var (t, r) := TrainRun(setup, s, epochs, es, tl, vl, bounds);
      && r == Failure("AssertionError")
      && t.epoch == s.epoch + (if epochs > 0 then epochs else 0)
      && LastName in t.files
  {
    LoopCounts(setup, s, 0, epochs, es, tl, vl, bounds);
  }

  // ---------------------------------------------------------------------
  // The best epoch

  /** `b` is the first index of the lowest of `v[..n]`. */
  ghost predicate FirstMinimum(v: seq<real>, b: int, n: int) {
    && 0 <= b < n <= |v|
    && (forall i :: 0 <= i < n ==> v[b] <= v[i])
    && (forall i :: 0 <= i < b ==> v[b] < v[i])
  }

  /** A validating trainer between epochs: one loss of each kind per epoch,
      and, once trained, the best epoch is the first minimum. */
  ghost predicate Tracking(s: State) {
    && |s.trainLoss| == s.epoch + 1 && |s.valLoss| == s.epoch + 1
    && (s.epoch == -1 ==> s.bestEpoch == -1)
    && (s.epoch >= 0 ==> FirstMinimum(s.valLoss, s.bestEpoch, |s.valLoss|))
  }

  /** A validating trainer stopped early: the epoch just validated has not
      been weighed yet, and the final save can read the best loss. */
  ghost predicate Halted(s: State) {
    && |s.trainLoss| == s.epoch + 1 && |s.valLoss| == s.epoch + 1
    && (s.bestEpoch == -1 || FirstMinimum(s.valLoss, s.bestEpoch, |s.valLoss| - 1))
    && Index(s.valLoss, s.bestEpoch).Some?
  }

  lemma FirstMinimumPrefix(v: seq<real>, l: real, b: int)
    requires FirstMinimum(v, b, |v|)
    ensures FirstMinimum(v + [l], b, |v|)
  {
    assert forall i :: 0 <= i < |v| ==> (v + [l])[i] == v[i];
  }

  /** One iteration of a validating trainer keeps the best epoch the first
      minimum; when it stops, the epoch just validated has not been weighed
      yet. */
  lemma StepTracksBest(setup: Setup, s: State, es: int, tl: int -> real, vl: int -> real, bounds: (real, real))
    requires setup.hasValLoader && Tracking(s)
    ensures var (t, exit) := Step(setup, s, es, tl, vl, bounds);
      && (exit.None? ==> Tracking(t))
      && (exit.Some? ==> exit.value == Stopped)
      && (exit.Some? ==> Halted(t))
      && (exit.None? ==> t.bestEpoch == s.bestEpoch || t.bestEpoch == t.epoch)
  {
    var s1 := Trained(s, tl(s.epoch + 1));
    var l := vl(s1.epoch);
    var v := s.valLoss + [l];
    var s2 := s1.(valLoss := v);
    if es != 0 && s2.bestEpoch + es <= s2.epoch {
      if s.bestEpoch != -1 { FirstMinimumPrefix(s.valLoss, l, s.bestEpoch); }
    } else {
      var bestLoss := Index(v, s.bestEpoch).value;
      if bestLoss > l || s.bestEpoch == -1 {
        assert s.bestEpoch == -1 ==> s.epoch == -1;
        assert FirstMinimum(v, s2.epoch, |v|) by {
          forall i | 0 <= i < |v| - 1 ensures l < v[i] {
            assert v[i] == s.valLoss[i];
            assert s.valLoss[s.bestEpoch] <= s.valLoss[i];
          }
        }
      } else {
        assert bestLoss == s.valLoss[s.bestEpoch];
        FirstMinimumPrefix(s.valLoss, l, s.bestEpoch);
      }
    }
  }

  /** `train`'s loop on a validating trainer raises nothing; each epoch
      that does not stop leaves `val_loss[best_epoch]` the lowest so far and
      `best_epoch` the first epoch reaching it. */
  lemma {:induction false} LoopTracksBest(setup: Setup, s: State, e: int, epochs: int, es: int,
                                          tl: int -> real, vl: int -> real, bounds: (real, real))
    requires setup.hasValLoader && Tracking(s)
    ensures var (t, exit) := Loop(setup, s, e, epochs, es, tl, vl, bounds);
      && !exit.Raised?
      && (exit == Finished ==> Tracking(t))
      && (exit == Stopped ==> Halted(t))
    decreases epochs - e
  {
    if e < epochs {
      StepTracksBest(setup, s, es, tl, vl, bounds);
      var (s1, exit) := Step(setup, s, es, tl, vl, bounds);
      if exit.None? {
        LoopTracksBest(setup, s1, e + 1, epochs, es, tl, vl, bounds);
      }
    }
  }

  /** A fresh trainer with a validation loader finishes `train` without an
      error exactly when it trains at least one epoch (with none, the final
      save reads `val_loss[-1]` of an empty history), and its `config.json`
      then records the best epoch and its loss. */
  lemma TrainSucceeds(setup: Setup, files: Folder, epochs: int, es: int,
                      tl: int -> real, vl: int -> real, bounds: (real, real))
    requires setup.hasValLoader
    ensures var (t, r) := TrainRun(setup, Fresh(files), epochs, es, tl, vl, bounds);
      && (r.Success? <==> epochs > 0)
      && (epochs <= 0 ==> r == Failure("IndexError"))
      && (r.Success? ==> ConfigName in t.files && t.files[ConfigName] == Config(
            setup.experimentName, t.epoch, t.bestEpoch,
            Index(t.valLoss, t.bestEpoch).value, t.trainLoss[|t.trainLoss| - 1], bounds))
  {
    LoopTracksBest(setup, Fresh(files), 0, epochs, es, tl, vl, bounds);
    LoopCounts(setup, Fresh(files), 0, epochs, es, tl, vl, bounds);
  }

  // ---------------------------------------------------------------------
  // The newest checkpoint is the best one

  /** The matching entries are checkpoints of epochs up to the best one,
      and the best epoch's checkpoint is present. */
  ghost predicate CheckpointsUpToBest(s: State) {
    && (forall n :: n in s.files && MatchesCheckpoint(n) ==> exists k :: 0 <= k <= s.bestEpoch && n == CheckpointName(k))
    && (s.bestEpoch >= 0 ==> CheckpointName(s.bestEpoch) in s.files)
  }

  lemma CheckpointNameIsNotFinal(k: nat)
    ensures CheckpointName(k) != LastName && CheckpointName(k) != ConfigName
  {
    PaddedDigits(k, 4);
    assert |CheckpointName(k)| >= 17;
  }

  /** What one iteration does to the folder: it only adds names, and
      besides the final checkpoint and the config only the checkpoint of a
      new best epoch. */
  lemma StepFiles(setup: Setup, s: State, es: int, tl: int -> real, vl: int -> real, bounds: (real, real))
    requires setup.hasValLoader
    ensures var t := Step(setup, s, es, tl, vl, bounds).0;
      && (forall n :: n in s.files ==> n in t.files)
      && (forall n :: n in t.files ==> n in s.files || n == LastName || n == ConfigName || n == CheckpointName(t.bestEpoch))
      && (t.bestEpoch == s.bestEpoch || (t.bestEpoch == s.epoch + 1 && CheckpointName(t.bestEpoch) in t.files))
  {
    var s1 := Trained(s, tl(s.epoch + 1));
    var l := vl(s1.epoch);
    var s2 := Validated(setup, s1, false, l).0;
    assert s2 == s1.(valLoss := s1.valLoss + [l]);
  }

  lemma StepKeepsCheckpoints(setup: Setup, s: State, es: int, tl: int -> real, vl: int -> real, bounds: (real, real))
    requires setup.hasValLoader && Tracking(s) && CheckpointsUpToBest(s)
    ensures CheckpointsUpToBest(Step(setup, s, es, tl, vl, bounds).0)
  {
    StepFiles(setup, s, es, tl, vl, bounds);
    OtherNamesDoNotMatch();
    var t := Step(setup, s, es, tl, vl, bounds).0;
    assert -1 <= s.bestEpoch <= s.epoch;
    if s.bestEpoch >= 0 { CheckpointNameIsNotFinal(s.bestEpoch); }
    forall n | n in t.files && MatchesCheckpoint(n)
      ensures exists k :: 0 <= k <= t.bestEpoch && n == CheckpointName(k)
    {
      if n == CheckpointName(t.bestEpoch) {
        assert t.bestEpoch >= 0;
      } else {
        assert n in s.files;
      }
    }
  }

  lemma {:induction false} LoopKeepsCheckpoints(setup: Setup, s: State, e: int, epochs: int, es: int,
                                                tl: int -> real, vl: int -> real, bounds: (real, real))
    requires setup.hasValLoader && Tracking(s) && CheckpointsUpToBest(s)
    ensures CheckpointsUpToBest(Loop(setup, s, e, epochs, es, tl, vl, bounds).0)
    decreases epochs - e
  {
    if e < epochs {
      StepKeepsCheckpoints(setup, s, es, tl, vl, bounds);
      StepTracksBest(setup, s, es, tl, vl, bounds);
      var (s1, exit) := Step(setup, s, es, tl, vl, bounds);
      if exit.None? {
        LoopKeepsCheckpoints(setup, s1, e + 1, epochs, es, tl, vl, bounds);
      }
    }
  }

  /** `train` on a fresh validating trainer over a folder without
      checkpoints keeps every checkpoint an epoch up to the best one, and the
      best epoch's present. */
  lemma TrainKeepsCheckpoints(setup: Setup, files: Folder, epochs: int, es: int,
                              tl: int -> real, vl: int -> real, bounds: (real, real))
    requires setup.hasValLoader
    requires forall n :: n in files ==> !MatchesCheckpoint(n)
    ensures var t := TrainRun(setup, Fresh(files), epochs, es, tl, vl, bounds).0;
      && CheckpointsUpToBest(t)
      && -1 <= t.bestEpoch < (if epochs > 0 then epochs else 0)
  {
    var s0 := Fresh(files);
    LoopKeepsCheckpoints(setup, s0, 0, epochs, es, tl, vl, bounds);
    LoopTracksBest(setup, s0, 0, epochs, es, tl, vl, bounds);
    LoopCounts(setup, s0, 0, epochs, es, tl, vl, bounds);
    var (u, exit) := Loop(setup, s0, 0, epochs, es, tl, vl, bounds);
    var t := TrainRun(setup, s0, epochs, es, tl, vl, bounds).0;
    if !exit.Raised? {
      SaveAfterAddsFinal(setup, u, bounds);
    }
    OtherNamesDoNotMatch();
    if u.bestEpoch >= 0 { CheckpointNameIsNotFinal(u.bestEpoch); }
    forall n | n in t.files && MatchesCheckpoint(n)
      ensures exists k :: 0 <= k <= t.bestEpoch && n == CheckpointName(k)
    {
      assert n in u.files;
    }
  }

  /** Saving after training keeps the epochs and every entry, and adds
      only the final checkpoint and the config. */
  lemma SaveAfterAddsFinal(setup: Setup, s: State, bounds: (real, real))
    ensures var t := Save(setup, s, "after", bounds).0;
      && t.bestEpoch == s.bestEpoch
      && (forall n :: n in t.files && n != LastName && n != ConfigName ==> n in s.files)
      && (forall n :: n in s.files ==> n in t.files)
  {
    var t := Save(setup, s, "after", bounds).0;
    assert t.files.Keys <= s.files.Keys + {LastName, ConfigName};
  }

  /** The epoch a matching entry of such a folder is the checkpoint of. */
  lemma EpochOf(s: State, n: string) returns (k: nat)
    requires CheckpointsUpToBest(s) && n in s.files && MatchesCheckpoint(n)
    ensures k <= s.bestEpoch && n == CheckpointName(k)
  {
    k :| 0 <= k <= s.bestEpoch && n == CheckpointName(k);
  }

  /** On a folder whose checkpoints are those of epochs up to the best,
      below 10000, `load_checkpoint(last=False)` picks the best epoch's
      checkpoint, or raises IndexError when there is no best epoch. */
  lemma NewestIsBest(s: State, listing: seq<string>)
    requires CheckpointsUpToBest(s) && -1 <= s.bestEpoch < 10000
    requires Lists(listing, s.files)
    ensures NewestCheckpoint(listing) == if s.bestEpoch >= 0 then Success(CheckpointName(s.bestEpoch)) else Failure("IndexError")
  {
    if s.bestEpoch >= 0 {
      NewestWithBest(s, listing);
    } else {
      NoBestNoCheckpoint(s, listing);
    }
  }

  lemma NewestWithBest(s: State, listing: seq<string>)
    requires CheckpointsUpToBest(s) && 0 <= s.bestEpoch < 10000
    requires Lists(listing, s.files)
    ensures NewestCheckpoint(listing) == Success(CheckpointName(s.bestEpoch))
  {
    var best := CheckpointName(s.bestEpoch);
    CheckpointNameMatches(s.bestEpoch);
    assert best in listing by {
      assert best in s.files;
    }
    forall n | n in listing && MatchesCheckpoint(n) ensures LessEq(n, best) {
      assert n in s.files;
      AtMostBest(s, n);
    }
    NewestIsGreatest(listing, best);
  }

  /** Every checkpoint kept sorts no later than the best epoch's. */
  lemma AtMostBest(s: State, n: string)
    requires CheckpointsUpToBest(s) && 0 <= s.bestEpoch < 10000
    requires n in s.files && MatchesCheckpoint(n)
    ensures LessEq(n, CheckpointName(s.bestEpoch))
  {
    var k := EpochOf(s, n);
    if k < s.bestEpoch {
      CheckpointNameOrder(k, s.bestEpoch);
    }
  }

  /** A matching name that no other matching name exceeds is the newest. */
  lemma NewestIsGreatest(listing: seq<string>, best: string)
    requires best in listing && MatchesCheckpoint(best)
    requires forall n :: n in listing && MatchesCheckpoint(n) ==> LessEq(n, best)
    ensures NewestCheckpoint(listing) == Success(best)
  {
    var v := NewestCheckpoint(listing).value;
    assert LessEq(best, v) && LessEq(v, best);
    if v != best {
      LessAsymmetric(v, best);
    }
  }

  lemma NoBestNoCheckpoint(s: State, listing: seq<string>)
    requires CheckpointsUpToBest(s) && s.bestEpoch < 0
    requires Lists(listing, s.files)
    ensures NewestCheckpoint(listing) == Failure("IndexError")
  {
    forall n | n in listing ensures !MatchesCheckpoint(n) {
      assert n in s.files;
    }
  }

  /** After a fresh validating trainer's `train` over a folder without
      checkpoints, for at most 10000 epochs, `load_checkpoint(last=False)`
      picks the best epoch's checkpoint, or raises IndexError when no epoch
      was ever the best. */
  lemma NewestCheckpointIsBest(setup: Setup, files: Folder, epochs: int, es: int,
                               tl: int -> real, vl: int -> real, bounds: (real, real), listing: seq<string>)
    requires setup.hasValLoader && epochs <= 10000
    requires forall n :: n in files ==> !MatchesCheckpoint(n)
    requires Lists(listing, TrainRun(setup, Fresh(files), epochs, es, tl, vl, bounds).0.files)
    ensures var t := TrainRun(setup, Fresh(files), epochs, es, tl, vl, bounds).0;
      NewestCheckpoint(listing) == if t.bestEpoch >= 0 then Success(CheckpointName(t.bestEpoch)) else Failure("IndexError")
  {
    TrainKeepsCheckpoints(setup, files, epochs, es, tl, vl, bounds);
    NewestIsBest(TrainRun(setup, Fresh(files), epochs, es, tl, vl, bounds).0, listing);
  }

  // ---------------------------------------------------------------------
  // Saving and loading

  /** Loading the final checkpoint just saved, into any trainer over the
      same folder, restores the saver's history, counters and experiment
      name. */
  lemma SaveThenLoad(setup: Setup, s: State, bounds: (real, real), u: State, name: string, listing: seq<string>)
    requires Save(setup, s, "after", bounds).1.Success?
    requires u.files == Save(setup, s, "after", bounds).0.files
    ensures var t := Save(setup, s, "after", bounds).0;
      Load(u, name, listing, true) == (t, setup.experimentName, Success(()))
  {
    var t := Save(setup, s, "after", bounds).0;
    assert LastName != ConfigName;
  }

  // ---------------------------------------------------------------------
  // Cleaning old checkpoints

  /** Each value at most once. */
  ghost predicate NoRepeats(s: seq<string>) {
    forall x :: multiset(s)[x] <= 1
  }

  /** A path that resolves to an entry is that entry joined to the folder. */
  lemma ResolvedIsJoin(folder: string, files: Folder, path: string)
    requires FileAt(folder, files, path).Some?
    ensures path == PathJoin(folder, FileAt(folder, files, path).value)
  {
    var prefix := PathJoin(folder, "");
    var n := FileAt(folder, files, path).value;
    FileAtJoin(folder, files, n);
    assert PathJoin(folder, n) == prefix + n;
    assert path == path[..|prefix|] + path[|prefix|..];
  }

  /** Joining '/'-free names to one folder keeps them apart. */
  lemma JoinInjective(folder: string, a: string, b: string)
    requires '/' !in a && '/' !in b
    ensures PathJoin(folder, a) == PathJoin(folder, b) <==> a == b
  {
    var prefix := PathJoin(folder, "");
    FileAtJoin(folder, map[a := Foreign], a);
    FileAtJoin(folder, map[a := Foreign], b);
  }

  /** The tail of a sequence without repeats has none, and lacks the head. */
  lemma NoRepeatsTail(paths: seq<string>)
    requires |paths| > 0 && NoRepeats(paths)
    ensures paths[0] !in paths[1..] && NoRepeats(paths[1..])
  {
    var p0, rest := paths[0], paths[1..];
    assert paths == [p0] + rest;
    assert multiset(paths) == multiset{p0} + multiset(rest);
    assert p0 !in rest by {
      assert multiset(paths)[p0] == 1 + multiset(rest)[p0];
    }
    forall x ensures multiset(rest)[x] <= 1 {
      assert multiset(paths)[x] == multiset{p0}[x] + multiset(rest)[x];
    }
  }

  /** Removing one entry keeps every other path resolving. */
  lemma StillResolved(folder: string, files: Folder, n0: string, rest: seq<string>)
    requires forall i :: 0 <= i < |rest| ==> FileAt(folder, files, rest[i]).Some?
    requires forall i :: 0 <= i < |rest| ==> rest[i] != PathJoin(folder, n0)
    ensures forall i :: 0 <= i < |rest| ==> FileAt(folder, files - {n0}, rest[i]).Some?
  {
    forall i | 0 <= i < |rest| ensures FileAt(folder, files - {n0}, rest[i]).Some? {
      var m := FileAt(folder, files, rest[i]).value;
      ResolvedIsJoin(folder, files, rest[i]);
      FileAtJoin(folder, files - {n0}, m);
    }
  }

  /** Removing paths that each resolve to an entry, none twice, succeeds and
      leaves exactly the entries whose joined path is not among them. */
  lemma {:induction false} RemoveAllResolved(folder: string, files: Folder, paths: seq<string>)
    requires NoRepeats(paths)
    requires forall n :: n in files ==> '/' !in n
    requires forall i :: 0 <= i < |paths| ==> FileAt(folder, files, paths[i]).Some?
    ensures var (after, r) := RemoveAll(folder, files, paths);
      && r == Success(())
      && (forall n :: n in after <==> n in files && PathJoin(folder, n) !in paths)
      && (forall n :: n in after ==> after[n] == files[n])
    decreases |paths|
  {
    if |paths| > 0 {
      var p0, rest := paths[0], paths[1..];
      var n0 := FileAt(folder, files, p0).value;
      ResolvedIsJoin(folder, files, p0);
      NoRepeatsTail(paths);
      assert forall i :: 0 <= i < |rest| ==> FileAt(folder, files, rest[i]).Some? && rest[i] != p0 by {
        forall i | 0 <= i < |rest| ensures FileAt(folder, files, rest[i]).Some? && rest[i] != p0 {
          assert rest[i] == paths[i + 1];
        }
      }
      StillResolved(folder, files, n0, rest);
      var files' := files - {n0};
      RemoveAllResolved(folder, files', rest);
      var after := RemoveAll(folder, files', rest).0;
      assert RemoveAll(folder, files, paths) == RemoveAll(folder, files', rest);
      RemovedFirst(folder, files, paths, n0, after);
    }
  }

  /** The entries left after removing the first path's entry and then the
      rest are those whose joined path is none of the paths. */
  lemma RemovedFirst(folder: string, files: Folder, paths: seq<string>, n0: string, after: Folder)
    requires |paths| > 0 && paths[0] == PathJoin(folder, n0)
    requires '/' !in n0 && forall n :: n in files ==> '/' !in n
    requires forall n :: n in after <==> n in files - {n0} && PathJoin(folder, n) !in paths[1..]
    ensures forall n :: n in after <==> n in files && PathJoin(folder, n) !in paths
  {
    HeadTail(paths);
    forall n | n in files ensures PathJoin(folder, n) in paths <==> n == n0 || PathJoin(folder, n) in paths[1..] {
      JoinInjective(folder, n, n0);
    }
  }

  /** The folder's checkpoint paths, none twice. */
  lemma {:induction false} JoinedNoRepeats(folder: string, names: seq<string>)
    requires NoRepeats(names)
    requires forall i :: 0 <= i < |names| ==> '/' !in names[i]
    ensures NoRepeats(seq(|names|, i requires 0 <= i < |names| => PathJoin(folder, names[i])))
    decreases |names|
  {
    var joined := seq(|names|, i requires 0 <= i < |names| => PathJoin(folder, names[i]));
    if |names| > 0 {
      var k := |names| - 1;
      var front := names[..k];
      assert names == front + [names[k]];
      assert multiset(names) == multiset(front) + multiset{names[k]};
      assert NoRepeats(front) by {
        forall x ensures multiset(front)[x] <= 1 {
          assert multiset(names)[x] == multiset(front)[x] + multiset{names[k]}[x];
        }
      }
      JoinedNoRepeats(folder, front);
      var joinedFront := seq(|front|, i requires 0 <= i < |front| => PathJoin(folder, front[i]));
      assert joined == joinedFront + [PathJoin(folder, names[k])];
      forall i | 0 <= i < |front| ensures joinedFront[i] != PathJoin(folder, names[k]) {
        assert multiset(front)[front[i]] >= 1;
        assert multiset(names)[front[i]] == multiset(front)[front[i]] + multiset{names[k]}[front[i]];
        JoinInjective(folder, front[i], names[k]);
      }
      assert multiset(joined) == multiset(joinedFront) + multiset{PathJoin(folder, names[k])};
    }
  }

  /** Every deleted path is one of the folder's checkpoint paths. */
  lemma ToDeleteFromCheckpoints(folder: string, listing: seq<string>, numberLeft: int)
    ensures multiset(ToDelete(folder, listing, numberLeft)) <= multiset(Checkpoints(folder, listing))
  {
    var sorted := SortStrings(Checkpoints(folder, listing));
    TakeDrop(sorted, -numberLeft);
    assert multiset(sorted) == multiset(Take(sorted, -numberLeft)) + multiset(Drop(sorted, -numberLeft));
  }

  /** `sorted(checkpoints)[:-number_left]` deletes the oldest: the deleted
      paths and the kept ones make up the sorted checkpoint paths, every
      deleted path sorts no later than every kept one, a positive
      `number_left` keeps that many of the greatest (all of them when there
      are fewer), and `number_left == 0` deletes nothing, since `[:-0]` is
      empty. */
  lemma ToDeleteOldest(folder: string, listing: seq<string>, numberLeft: int)
    ensures ToDelete(folder, listing, numberLeft) + Kept(folder, listing, numberLeft)
         == SortStrings(Checkpoints(folder, listing))
    ensures var del, kept := ToDelete(folder, listing, numberLeft), Kept(folder, listing, numberLeft);
      forall i, j :: 0 <= i < |del| && 0 <= j < |kept| ==> LessEq(del[i], kept[j])
    ensures numberLeft == 0 ==> ToDelete(folder, listing, numberLeft) == []
    ensures numberLeft > 0 ==>
      |Kept(folder, listing, numberLeft)| == if numberLeft < |Matching(listing)| then numberLeft else |Matching(listing)|
  {
    var sorted := SortStrings(Checkpoints(folder, listing));
    SortedCut(sorted, numberLeft);
  }

  /** The checkpoint paths of a folder's listing each name an entry of the
      folder (the matching name itself), and none appears twice. */
  lemma CheckpointsResolve(folder: string, files: Folder, listing: seq<string>)
    requires Lists(listing, files)
    ensures var cps := Checkpoints(folder, listing);
      forall i :: 0 <= i < |cps| ==> FileAt(folder, files, cps[i]) == Some(Matching(listing)[i])
    ensures NoRepeats(Checkpoints(folder, listing))
  {
    var names := Matching(listing);
    forall i | 0 <= i < |names| ensures names[i] in files && '/' !in names[i] {
      assert names[i] in listing;
      var j :| 0 <= j < |listing| && listing[j] == names[i];
    }
    forall i | 0 <= i < |names| ensures FileAt(folder, files, PathJoin(folder, names[i])) == Some(names[i]) {
      FileAtJoin(folder, files, names[i]);
    }
    assert NoRepeats(names) by {
      forall x ensures multiset(names)[x] <= 1 {
        assert multiset(names)[x] <= multiset(listing)[x];
      }
    }
    JoinedNoRepeats(folder, names);
  }

  /** So do the paths chosen for deletion. */
  lemma ToDeleteResolves(folder: string, files: Folder, listing: seq<string>, numberLeft: int)
    requires Lists(listing, files)
    ensures var del := ToDelete(folder, listing, numberLeft);
      forall i :: 0 <= i < |del| ==> FileAt(folder, files, del[i]).Some?
    ensures NoRepeats(ToDelete(folder, listing, numberLeft))
  {
    var del, cps := ToDelete(folder, listing, numberLeft), Checkpoints(folder, listing);
    CheckpointsResolve(folder, files, listing);
    ToDeleteFromCheckpoints(folder, listing, numberLeft);
    forall i | 0 <= i < |del| ensures FileAt(folder, files, del[i]).Some? {
      assert del[i] in multiset(del);
      assert del[i] in multiset(cps);
      var j :| 0 <= j < |cps| && cps[j] == del[i];
    }
    forall x ensures multiset(del)[x] <= 1 {
      assert multiset(del)[x] <= multiset(cps)[x];
    }
  }

  /** Removing each deleted path as listed, the corrected `clean_models`
      succeeds, removes exactly the entries whose path was chosen and leaves
      every other entry as it was. */
  lemma CleanModelsRemovesChosen(folder: string, files: Folder, listing: seq<string>, numberLeft: int)
    requires Lists(listing, files)
    ensures var del := ToDelete(folder, listing, numberLeft);
      var (after, r) := RemoveAll(folder, files, del);
      && r == Success(())
      && (forall n :: n in after <==> n in files && PathJoin(folder, n) !in del)
      && (forall n :: n in after ==> after[n] == files[n])
  {
    ToDeleteResolves(folder, files, listing, numberLeft);
    forall n | n in files ensures '/' !in n {
      var j :| 0 <= j < |listing| && listing[j] == n;
    }
    RemoveAllResolved(folder, files, ToDelete(folder, listing, numberLeft));
  }

  /** `s[:-n]` and `s[-n:]` of a sorted list: they rejoin to it, the first
      stays below the second, and the second holds `n` strings at most. */
  lemma SortedCut(sorted: seq<string>, n: int)
    requires Sorted(sorted)
    ensures Take(sorted, -n) + Drop(sorted, -n) == sorted
    ensures var del, kept := Take(sorted, -n), Drop(sorted, -n);
      forall i, j :: 0 <= i < |del| && 0 <= j < |kept| ==> LessEq(del[i], kept[j])
    ensures n == 0 ==> Take(sorted, -n) == []
    ensures n > 0 ==> |Drop(sorted, -n)| == if n < |sorted| then n else |sorted|
  {
    TakeDrop(sorted, -n);
    var k := SliceBound(-n, |sorted|);
    forall i, j | 0 <= i < k && 0 <= j < |sorted| - k
      ensures LessEq(sorted[..k][i], sorted[k..][j])
    {
      assert sorted[..k][i] == sorted[i] && sorted[k..][j] == sorted[k + j];
    }
  }

  /** The three characters of a checkpoint name: none is '/'. */
  lemma CheckpointNameHasNoSlash(epoch: nat)
    ensures '/' !in CheckpointName(epoch)
  {
    PaddedDigits(epoch, 4);
    var p := ZeroPadded(epoch, 4);
    assert CheckpointName(epoch) == "checkpoint" + p + ".pt";
    forall i | 0 <= i < |p| ensures p[i] != '/' {
      assert IsDigit(p[i]);
    }
  }

  /** `clean_models` as written joins the folder to a path that already
      holds it: for a relative experiment folder, the first path it removes
      names nothing, so it raises FileNotFoundError before removing
      anything. */
  lemma CleanModelsAsWrittenFails(folder: string, files: Folder, listing: seq<string>, numberLeft: int)
    requires Lists(listing, files)
    requires folder != "" && folder[0] != '/'
    requires |ToDelete(folder, listing, numberLeft)| > 0
    ensures RemoveAll(folder, files, Rejoined(folder, ToDelete(folder, listing, numberLeft)))
         == (files, Failure("FileNotFoundError"))
  {
    ToDeleteResolves(folder, files, listing, numberLeft);
    var p := ToDelete(folder, listing, numberLeft)[0];
    RejoinedMisses(folder, files, p);
  }

  /** A path that resolves under a relative folder, joined to the folder
      again, resolves to nothing: the name after the prefix still holds the
      folder's '/'. */
  lemma RejoinedMisses(folder: string, files: Folder, p: string)
    requires folder != "" && folder[0] != '/'
    requires FileAt(folder, files, p).Some?
    ensures FileAt(folder, files, PathJoin(folder, p)).None?
  {
    var n := FileAt(folder, files, p).value;
    ResolvedIsJoin(folder, files, p);
    var prefix := PathJoin(folder, "");
    FileAtJoin(folder, files, n);
    assert p == prefix + n;
    assert prefix[|prefix| - 1] == '/';
    assert p[0] != '/';
    var q := PathJoin(folder, p);
    assert q == prefix + p;
    assert (prefix + p)[|prefix|..] == p;
    assert p[|prefix| - 1] == '/';
  }

  /** For an absolute experiment folder the second join is harmless: the
      joined path is absolute and `os.path.join` returns it unchanged. */
  lemma AbsoluteFolderUnaffected(folder: string, listing: seq<string>, numberLeft: int)
    requires |folder| > 0 && folder[0] == '/'
    ensures Rejoined(folder, ToDelete(folder, listing, numberLeft)) == ToDelete(folder, listing, numberLeft)
  {
    var del := ToDelete(folder, listing, numberLeft);
    var cps := Checkpoints(folder, listing);
    ToDeleteFromCheckpoints(folder, listing, numberLeft);
    forall i | 0 <= i < |del| ensures PathJoin(folder, del[i]) == del[i] {
      assert del[i] in multiset(del);
      assert del[i] in multiset(cps);
      var j :| 0 <= j < |cps| && cps[j] == del[i];
      JoinAbsolute(folder, Matching(listing)[j]);
    }
    assert Rejoined(folder, del) == del;
  }

  /** Joining to an absolute folder gives an absolute path, which a second
      join returns unchanged. */
  lemma JoinAbsolute(folder: string, name: string)
    requires |folder| > 0 && folder[0] == '/'
    ensures StartsWith(PathJoin(folder, name), "/")
    ensures PathJoin(folder, PathJoin(folder, name)) == PathJoin(folder, name)
  {
    var p := PathJoin(folder, name);
    if !StartsWith(name, "/") {
      assert p[0] == folder[0];
      assert p[..1] == "/";
    }
  }

  /** A name without '/' joins after the folder's own prefix. */
  lemma JoinIsPrefix(folder: string, name: string)
    requires '/' !in name
    ensures PathJoin(folder, name) == PathJoin(folder, "") + name
  {
    if |name| > 0 {
      assert name[0] in name;
    }
  }

  /** Two names in order sort to themselves. */
  lemma SortTwo(x: string, y: string)
    requires Less(x, y)
    ensures SortStrings([x, y]) == [x, y]
  {
    var sorted := SortStrings([x, y]);
    assert multiset(sorted) == multiset{x, y};
    assert sorted[0] in multiset(sorted) && sorted[1] in multiset(sorted);
    assert LessEq(sorted[0], sorted[1]);
    LessIrreflexive(x);
    LessAsymmetric(x, y);
  }

  /** The listing of two checkpoints `a < b`. */
  lemma TwoCheckpointsListed(a: nat, b: nat)
    requires a < b < 10000
    ensures var listing := [CheckpointName(a), CheckpointName(b)];
      && Lists(listing, map[CheckpointName(a) := Checkpoint([], []), CheckpointName(b) := Checkpoint([], [])])
      && Matching(listing) == listing
      && '/' !in CheckpointName(a) && '/' !in CheckpointName(b)
      && Less(CheckpointName(a), CheckpointName(b))
  {
    var ca, cb := CheckpointName(a), CheckpointName(b);
    var listing := [ca, cb];
    CheckpointNameOrder(a, b);
    LessIrreflexive(ca);
    CheckpointNameMatches(a);
    CheckpointNameMatches(b);
    CheckpointNameHasNoSlash(a);
    CheckpointNameHasNoSlash(b);
    assert listing[1..] == [cb];
    assert listing[1..][1..] == [];
    assert multiset(listing) == multiset{ca} + multiset{cb};
  }

  /** Keeping one of two checkpoints `a < b` deletes the path of `a`. */
  lemma TwoCheckpointsToDelete(folder: string, a: nat, b: nat)
    requires a < b < 10000
    ensures ToDelete(folder, [CheckpointName(a), CheckpointName(b)], 1) == [PathJoin(folder, CheckpointName(a))]
  {
    TwoCheckpointsListed(a, b);
    TwoNamesToDelete(folder, CheckpointName(a), CheckpointName(b));
  }

  lemma TwoNamesToDelete(folder: string, ca: string, cb: string)
    requires Matching([ca, cb]) == [ca, cb]
    requires '/' !in ca && '/' !in cb && Less(ca, cb)
    ensures ToDelete(folder, [ca, cb], 1) == [PathJoin(folder, ca)]
  {
    var pa, pb := PathJoin(folder, ca), PathJoin(folder, cb);
    assert Checkpoints(folder, [ca, cb]) == [pa, pb] by {
      CheckpointsOfTwo(folder, ca, cb);
    }
    assert Less(pa, pb) by {
      JoinIsPrefix(folder, ca);
      JoinIsPrefix(folder, cb);
      LessPrefix(PathJoin(folder, ""), ca, cb);
    }
    SortTwo(pa, pb);
  }

  /** The checkpoint paths of a listing of two matching names. */
  lemma CheckpointsOfTwo(folder: string, ca: string, cb: string)
    requires Matching([ca, cb]) == [ca, cb]
    ensures Checkpoints(folder, [ca, cb]) == [PathJoin(folder, ca), PathJoin(folder, cb)]
  {
  }

  /** A relative folder holding the checkpoints of two epochs `a < b`,
      asked to keep one: as written `clean_models` raises FileNotFoundError
      and deletes nothing. */
  lemma TwoCheckpointsAsWritten(folder: string, a: nat, b: nat)
    requires folder != "" && folder[0] != '/'
    requires a < b < 10000
    ensures var listing := [CheckpointName(a), CheckpointName(b)];
      var files := map[CheckpointName(a) := Checkpoint([], []), CheckpointName(b) := Checkpoint([], [])];
      RemoveAll(folder, files, Rejoined(folder, ToDelete(folder, listing, 1))) == (files, Failure("FileNotFoundError"))
  {
    TwoCheckpointsListed(a, b);
    TwoCheckpointsToDelete(folder, a, b);
    var listing := [CheckpointName(a), CheckpointName(b)];
    var files := map[CheckpointName(a) := Checkpoint([], []), CheckpointName(b) := Checkpoint([], [])];
    CleanModelsAsWrittenFails(folder, files, listing, 1);
  }

  /** A folder of two entries without the one whose path was deleted
      holds the other. */
  lemma OtherSurvives(folder: string, del: seq<string>, x: string, y: string, v: Saved, after: Folder)
    requires x != y && '/' !in x && '/' !in y
    requires forall n :: n in after <==> n in map[x := v, y := v] && PathJoin(folder, n) !in del
    requires forall n :: n in after ==> after[n] == map[x := v, y := v][n]
    requires del == [PathJoin(folder, x)]
    ensures after == map[y := v]
  {
    JoinInjective(folder, y, x);
    assert x !in after;
    assert y in after;
    assert after.Keys == {y};
  }

  /** The same, removing each path as listed: epoch `a` is deleted and
      epoch `b` kept. */
  lemma TwoCheckpointsCorrected(folder: string, a: nat, b: nat)
    requires a < b < 10000
    ensures var listing := [CheckpointName(a), CheckpointName(b)];
      var files := map[CheckpointName(a) := Checkpoint([], []), CheckpointName(b) := Checkpoint([], [])];
      RemoveAll(folder, files, ToDelete(folder, listing, 1)) == (map[CheckpointName(b) := Checkpoint([], [])], Success(()))
  {
    var ca, cb := CheckpointName(a), CheckpointName(b);
    var files := map[ca := Checkpoint([], []), cb := Checkpoint([], [])];
    TwoCheckpointsListed(a, b);
    TwoCheckpointsToDelete(folder, a, b);
    LessIrreflexive(ca);
    CleanModelsRemovesChosen(folder, files, [ca, cb], 1);
    var del := ToDelete(folder, [ca, cb], 1);
    var after := RemoveAll(folder, files, del).0;
    OtherSurvives(folder, del, ca, cb, Checkpoint([], []), after);
  }

  /** The same for the folder the training task names
      (`linear01_<date>`), epochs 0 and 1. */
  lemma CleanModelsExample()
    ensures var folder := "linear01_20220101";
      var listing := [CheckpointName(0), CheckpointName(1)];
      var files := map[CheckpointName(0) := Checkpoint([], []), CheckpointName(1) := Checkpoint([], [])];
      && RemoveAll(folder, files, Rejoined(folder, ToDelete(folder, listing, 1))) == (files, Failure("FileNotFoundError"))
      && RemoveAll(folder, files, ToDelete(folder, listing, 1)) == (map[CheckpointName(1) := Checkpoint([], [])], Success(()))
  {
    TwoCheckpointsAsWritten("linear01_20220101", 0, 1);
    TwoCheckpointsCorrected("linear01_20220101", 0, 1);
  }
}
