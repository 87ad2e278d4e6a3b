/** The training bookkeeping of the anomaly detector
    (platform/vertex-ai/anomaly-detection/trainer/trainer.py): epoch and
    best-epoch counters, the loss histories, early stopping, the checkpoint
    and config files written to the experiment folder, choosing a checkpoint
    to load, and cleaning old checkpoints.

    The model, optimiser and loss function are not modelled: each epoch's
    training and validation losses are given as functions of the epoch
    number, and the residual bounds as a pair of reals. The experiment folder
    is a map from entry names to what they hold; `os.listdir` is a listing
    of those names. */
module Trainer {
  import opened Common

  // ---------------------------------------------------------------------
  // The experiment folder

  /** What an entry of the experiment folder holds: a checkpoint (of which
      only the history is modelled), the `config.json` of a finished run,
      a `config.json` left empty by a write that failed, or anything else. */
  datatype Saved =
    | Checkpoint(trainLoss: seq<real>, valLoss: seq<real>)
    | Config(experimentName: string, epoch: int, bestEpoch: int,
             bestValLoss: real, lastTrainLoss: real, bounds: (real, real))
    | Partial
    | Foreign

  type Folder = map<string, Saved>

  const LastName: string := "checkpoint.pt"
  const ConfigName: string := "config.json"

  /** The name `save_checkpoint` gives an intermediate checkpoint:
      `f"checkpoint{epoch:04}.pt"`. */
  function CheckpointName(epoch: int): string {
    "checkpoint" + ZeroPadded(epoch, 4) + ".pt"
  }

  /** `os.path.join(a, b)` on POSIX. */
  function PathJoin(a: string, b: string): string {
    if StartsWith(b, "/") then b
    else if a == "" || EndsWith(a, "/") then a + b
    else a + "/" + b
  }

  /** The entry of `files`, the contents of the folder `folder`, that `path`
      names, if any. */
  function FileAt(folder: string, files: Folder, path: string): (r: Option<string>)
    ensures r.Some? ==> r.value in files && '/' !in r.value
  {
    var prefix := PathJoin(folder, "");
    if StartsWith(path, prefix) && path[|prefix|..] in files && '/' !in path[|prefix|..]
    then Some(path[|prefix|..])
    else None
  }

  /** A name joined to its folder resolves to that entry, when present. */
  lemma FileAtJoin(folder: string, files: Folder, name: string)
    requires '/' !in name
    ensures FileAt(folder, files, PathJoin(folder, name)) == if name in files then Some(name) else None
  {
    var prefix := PathJoin(folder, "");
    if |name| > 0 {
      assert name[0] in name;
    }
    assert PathJoin(folder, name) == prefix + name;
    assert (prefix + name)[|prefix|..] == name;
  }

  /** `listing` is what `os.listdir` returns for a folder holding `files`:
      each name once, no name holding a '/'. */
  ghost predicate Lists(listing: seq<string>, files: Folder) {
    && (forall n :: multiset(listing)[n] <= 1)
    && (forall n :: n in listing <==> n in files)
    && (forall i :: 0 <= i < |listing| ==> '/' !in listing[i])
  }

  // ---------------------------------------------------------------------
  // `re.match(r'checkpoint\d+\.pt', name)`

  predicate IsDigit(c: char) {
    '0' <= c <= '9'
  }

  /** The length of the run of digits that starts `s`. */
  function DigitRun(s: string): (k: nat)
    ensures k <= |s|
    ensures forall i :: 0 <= i < k ==> IsDigit(s[i])
    ensures k < |s| ==> !IsDigit(s[k])
  {
    if |s| == 0 || !IsDigit(s[0]) then 0 else 1 + DigitRun(s[1..])
  }

  /** `re.match` anchors at the start only: the name begins with
      "checkpoint", one or more digits and ".pt". A shorter run of digits
      cannot be followed by '.', so the longest run decides. */
  predicate MatchesCheckpoint(name: string) {
    && StartsWith(name, "checkpoint")
    && var rest := name[10..];
       var k := DigitRun(rest);
       k > 0 && StartsWith(rest[k..], ".pt")
  }

  /** The names of `listing` that match, in listing order. */
  function Matching(listing: seq<string>): (r: seq<string>)
    ensures forall n :: n in r <==> n in listing && MatchesCheckpoint(n)
    ensures multiset(r) <= multiset(listing)
  {
    if |listing| == 0 then []
    else
      assert listing == [listing[0]] + listing[1..];
      (if MatchesCheckpoint(listing[0]) then [listing[0]] else []) + Matching(listing[1..])
  }

  // ---------------------------------------------------------------------
  // The trainer's state, and the operations on it as functions

  /** The fields of a `Trainer` that change. */
  datatype State = State(epoch: int, bestEpoch: int, trainLoss: seq<real>, valLoss: seq<real>, files: Folder)

  /** The fields of a `Trainer` that do not: its folder, and whether it was
      given a validation loader. */
  datatype Setup = Setup(experimentName: string, hasValLoader: bool)

  /** A trainer just built over a folder holding `files`. */
  function Fresh(files: Folder): State {
    State(-1, -1, [], [], files)
  }

  /** `train_one_epoch`, which reports `loss`. */
  function Trained(s: State, loss: real): (t: State)
    ensures t.epoch == s.epoch + 1 && t.trainLoss == s.trainLoss + [loss]
    ensures t.bestEpoch == s.bestEpoch && t.valLoss == s.valLoss && t.files == s.files
  {
    s.(epoch := s.epoch + 1, trainLoss := s.trainLoss + [loss])
  }

  /** `validate`, whose loader reports `loss`: on a test loader the history
      is left alone; without one the validation loader is required. */
  function Validated(setup: Setup, s: State, testLoader: bool, loss: real): (r: (State, Result<real, string>))
    ensures testLoader ==> r == (s, Success(loss))
    ensures !testLoader && !setup.hasValLoader ==> r == (s, Failure("AssertionError"))
    ensures !testLoader && setup.hasValLoader ==> r == (s.(valLoss := s.valLoss + [loss]), Success(loss))
  {
    if testLoader then (s, Success(loss))
    else if !setup.hasValLoader then (s, Failure("AssertionError"))
    else (s.(valLoss := s.valLoss + [loss]), Success(loss))
  }

  /** `save_checkpoint(stage)`: only 'intermediate' and 'after' are
      accepted; the checkpoint is written first; 'after' then needs the
      validation loader for the residual bounds, opens `config.json` (which
      empties it) and fills it, which needs `val_loss[best_epoch]` and
      `train_loss[-1]`. The counters and histories never change. */
  function Save(setup: Setup, s: State, stage: string, bounds: (real, real)): (r: (State, Result<(), string>))
    ensures r.0 == s.(files := r.0.files)
    ensures r.1.Success? <==>
      || stage == "intermediate"
      || (stage == "after" && setup.hasValLoader && Index(s.valLoss, s.bestEpoch).Some? && |s.trainLoss| > 0)
    ensures stage != "intermediate" && stage != "after" ==> r.0 == s
    ensures stage == "intermediate" ==>
      r.0.files == s.files[CheckpointName(s.epoch) := Checkpoint(s.trainLoss, s.valLoss)]
    ensures stage == "after" ==>
      && r.0.files.Keys <= s.files.Keys + {LastName, ConfigName}
      && LastName in r.0.files && r.0.files[LastName] == Checkpoint(s.trainLoss, s.valLoss)
      && (forall n :: n in s.files && n != LastName && n != ConfigName ==> n in r.0.files && r.0.files[n] == s.files[n])
      && (r.1.Success? ==> ConfigName in r.0.files && r.0.files[ConfigName] == Config(
            setup.experimentName, s.epoch, s.bestEpoch,
            Index(s.valLoss, s.bestEpoch).value, s.trainLoss[|s.trainLoss| - 1], bounds))
  {
    if stage != "intermediate" && stage != "after" then (s, Failure("AssertionError"))
    else
      var name := if stage == "intermediate" then CheckpointName(s.epoch) else LastName;
      var s1 := s.(files := s.files[name := Checkpoint(s.trainLoss, s.valLoss)]);
      if stage == "intermediate" then (s1, Success(()))
      else if !setup.hasValLoader then (s1, Failure("AssertionError"))
      else
        var emptied := s1.(files := s1.files[ConfigName := Partial]);
        match Index(s.valLoss, s.bestEpoch)
        case None => (emptied, Failure("IndexError"))
        case Some(bestLoss) =>
          match Index(s.trainLoss, -1)
          case None => (emptied, Failure("IndexError"))
          case Some(lastLoss) =>
            (s1.(files := s1.files[ConfigName := Config(
               setup.experimentName, s.epoch, s.bestEpoch, bestLoss, lastLoss, bounds)]), Success(()))
  }

  /** How the `for` loop of `train` ends. */
  datatype Exit = Finished | Stopped | Raised(error: string)

  /** One iteration of the loop of `train`, where epoch `k` trains to
      `trainLossAt(k)` and validates to `valLossAt(k)`: the new state, and
      how the loop ends if it ends here. */
  function Step(setup: Setup, s: State, earlyStopping: int,
                trainLossAt: int -> real, valLossAt: int -> real, bounds: (real, real)): (State, Option<Exit>)
  {
    var s1 := Trained(s, trainLossAt(s.epoch + 1));
    if !setup.hasValLoader then (s1, None)
    else
      var l := valLossAt(s1.epoch);
      var s2 := Validated(setup, s1, false, l).0;
      if earlyStopping != 0 && s2.bestEpoch + earlyStopping <= s2.epoch then
        var (s3, out) := Save(setup, s2, "after", bounds);
        (s3, Some(if out.Success? then Stopped else Raised(out.error)))
      else
        match Index(s2.valLoss, s2.bestEpoch)
        case None => (s2, Some(Raised("IndexError")))
        case Some(bestLoss) =>
          if bestLoss > l || s2.bestEpoch == -1 then
            (Save(setup, s2.(bestEpoch := s2.epoch), "intermediate", bounds).0, None)
          else (s2, None)
  }

  /** The `for e in range(epochs)` loop of `train`, from iteration `e` on. */
  function Loop(setup: Setup, s: State, e: int, epochs: int, earlyStopping: int,
                trainLossAt: int -> real, valLossAt: int -> real, bounds: (real, real)): (State, Exit)
    decreases epochs - e
  {
    if e >= epochs then (s, Finished)
    else
      var (s1, exit) := Step(setup, s, earlyStopping, trainLossAt, valLossAt, bounds);
      if exit.Some? then (s1, exit.value)
      else Loop(setup, s1, e + 1, epochs, earlyStopping, trainLossAt, valLossAt, bounds)
  }

  /** `train(epochs, early_stopping)`: the loop, then a final 'after' save. */
  function TrainRun(setup: Setup, s: State, epochs: int, earlyStopping: int,
                    trainLossAt: int -> real, valLossAt: int -> real, bounds: (real, real)): (State, Result<(), string>)
  {
    var (s1, exit) := Loop(setup, s, 0, epochs, earlyStopping, trainLossAt, valLossAt, bounds);
    if exit.Raised? then (s1, Failure(exit.error)) else Save(setup, s1, "after", bounds)
  }

  /** The greatest matching name of the listing, which `load_checkpoint`
      picks with `last=False` (`sorted(files)[-1]`, an IndexError when none
      matches). */
  function NewestCheckpoint(listing: seq<string>): (r: Result<string, string>)
    ensures r.Success? <==> exists n :: n in listing && MatchesCheckpoint(n)
    ensures r.Failure? ==> r.error == "IndexError"
    ensures r.Success? ==> r.value in listing && MatchesCheckpoint(r.value)
    ensures r.Success? ==> forall n :: n in listing && MatchesCheckpoint(n) ==> LessEq(n, r.value)
  {
    var matching := Matching(listing);
    if |matching| == 0 then
      assert forall n :: n in listing && MatchesCheckpoint(n) ==> n in matching;
      Failure("IndexError")
    else
      var sorted := SortStrings(matching);
      SortedLastIsGreatest(matching);
      Success(sorted[|sorted| - 1])
  }

  /** The last of the sorted strings is one of them, and the greatest. */
  lemma SortedLastIsGreatest(s: seq<string>)
    requires |s| > 0
    ensures SortStrings(s)[|s| - 1] in s
    ensures forall n :: n in s ==> LessEq(n, SortStrings(s)[|s| - 1])
  {
    var sorted := SortStrings(s);
    assert sorted[|s| - 1] in multiset(sorted);
    forall n | n in s ensures LessEq(n, sorted[|s| - 1]) {
      assert n in multiset(sorted);
      SortedLastIsMax(sorted, n);
    }
  }

  /** The checkpoint `load_checkpoint(last)` reads: `checkpoint.pt`, or the
      newest intermediate one. */
  function Chosen(listing: seq<string>, last: bool): (r: Result<string, string>)
    ensures last ==> r == Success(LastName)
    ensures !last ==> r == NewestCheckpoint(listing)
  {
    if last then Success(LastName) else NewestCheckpoint(listing)
  }

  /** A load succeeds: the chosen checkpoint exists and unpickles, and a
      `config.json`, when present, decodes. */
  predicate Loadable(files: Folder, listing: seq<string>, last: bool) {
    var chosen := Chosen(listing, last);
    && chosen.Success? && chosen.value in files && files[chosen.value].Checkpoint?
    && (ConfigName in files ==> files[ConfigName].Config?)
  }

  /** `load_checkpoint(last)` on the trainer's own folder, by a trainer
      whose experiment is named `experimentName`: the history from the chosen
      checkpoint, then the experiment name and the counters from
      `config.json` when it exists. The result is the new state, the new
      experiment name and the outcome. */
  function Load(s: State, experimentName: string, listing: seq<string>, last: bool): (r: (State, string, Result<(), string>))
    ensures r.2.Success? ==> r.0.files == s.files
    ensures r.2.Success? && ConfigName in s.files ==>
      s.files[ConfigName].Config? && r.1 == s.files[ConfigName].experimentName
    ensures r.2.Failure? || ConfigName !in s.files ==> r.1 == experimentName
  {
    var chosen := Chosen(listing, last);
    match chosen
    case Failure(e) => (s, experimentName, Failure(e))
    case Success(name) =>
      if name !in s.files then (s, experimentName, Failure("FileNotFoundError"))
      else match s.files[name]
        case Checkpoint(trainLoss, valLoss) =>
          var s1 := s.(trainLoss := trainLoss, valLoss := valLoss);
          if ConfigName !in s.files then (s1, experimentName, Success(()))
          else (
            match s.files[ConfigName]
            case Config(stored, epoch, bestEpoch, _, _, _) =>
              (s1.(epoch := epoch, bestEpoch := bestEpoch), stored, Success(()))
            case _ => (s1, experimentName, Failure("JSONDecodeError")))
        case _ => (s, experimentName, Failure("UnpicklingError"))
  }

  /** What a load restores: it succeeds exactly when the chosen checkpoint
      and any `config.json` can be read; the history is then the
      checkpoint's, and the counters and experiment name are those of
      `config.json` when it exists and the trainer's own otherwise. */
  lemma LoadRestores(s: State, experimentName: string, listing: seq<string>, last: bool)
    ensures var r := Load(s, experimentName, listing, last);
      && (r.2.Success? <==> Loadable(s.files, listing, last))
      && (r.2.Success? ==>
            var checkpoint := s.files[Chosen(listing, last).value];
            r.0.trainLoss == checkpoint.trainLoss && r.0.valLoss == checkpoint.valLoss)
      && (r.2.Success? && ConfigName in s.files ==>
            var config := s.files[ConfigName];
            r.1 == config.experimentName && r.0.epoch == config.epoch && r.0.bestEpoch == config.bestEpoch)
      && (r.2.Success? && ConfigName !in s.files ==>
            r.1 == experimentName && r.0.epoch == s.epoch && r.0.bestEpoch == s.bestEpoch)
  {
  }

  /** `checkpoints` in `clean_models`: the matching names joined to the
      folder. */
  function Checkpoints(folder: string, listing: seq<string>): (r: seq<string>)
    ensures |r| == |Matching(listing)|
  {
    var names := Matching(listing);
    seq(|names|, i requires 0 <= i < |names| => PathJoin(folder, names[i]))
  }

  /** The checkpoints `clean_models` deletes: `sorted(checkpoints)[:-number_left]`. */
  function ToDelete(folder: string, listing: seq<string>, numberLeft: int): seq<string> {
    Take(SortStrings(Checkpoints(folder, listing)), -numberLeft)
  }

  /** The ones it keeps. */
  function Kept(folder: string, listing: seq<string>, numberLeft: int): seq<string> {
    Drop(SortStrings(Checkpoints(folder, listing)), -numberLeft)
  }

  /** The paths `clean_models` passes to `os.remove` as written: each
      checkpoint path is joined to the folder a second time. */
  function Rejoined(folder: string, paths: seq<string>): (r: seq<string>)
    ensures |r| == |paths|
  {
    seq(|paths|, i requires 0 <= i < |paths| => PathJoin(folder, paths[i]))
  }

  /** Removes the entries the paths name, in order; the first path that
      names no entry raises FileNotFoundError. */
  function RemoveAll(folder: string, files: Folder, paths: seq<string>): (r: (Folder, Result<(), string>))
    decreases |paths|
  {
    if |paths| == 0 then (files, Success(()))
    else match FileAt(folder, files, paths[0])
      case None => (files, Failure("FileNotFoundError"))
      case Some(name) => RemoveAll(folder, files - {name}, paths[1..])
  }

  // ---------------------------------------------------------------------
  // The trainer

  class Trainer {
    var experimentName: string
    const hasValLoader: bool
    var epoch: int
    var bestEpoch: int
    var trainLoss: seq<real>
    var valLoss: seq<real>
    /** The contents of the experiment folder: the folder named
        `experimentName` until a load reads another name from `config.json`. */
    var files: Folder

    function Settings(): Setup
      reads this
    {
      Setup(experimentName, hasValLoader)
    }

    function Snapshot(): State
      reads this
    {
      State(epoch, bestEpoch, trainLoss, valLoss, files)
    }

    /** `Trainer.__init__` over a folder holding `folder` (empty when the
        folder had to be created): not trained, no best epoch, no history. */
    constructor (experimentName: string, hasValLoader: bool, folder: Folder)
      ensures Settings() == Setup(experimentName, hasValLoader)
      ensures Snapshot() == Fresh(folder)
    {
      this.experimentName := experimentName;
      this.hasValLoader := hasValLoader;
      epoch := -1;
      bestEpoch := -1;
      trainLoss := [];
      valLoss := [];
      files := folder;
    }

    method TrainOneEpoch(loss: real) returns (r: real)
      modifies this
      ensures Snapshot() == Trained(old(Snapshot()), loss) && r == loss
      ensures experimentName == old(experimentName)
    {
      epoch := epoch + 1;
      trainLoss := trainLoss + [loss];
      r := trainLoss[|trainLoss| - 1];
    }

    method Validate(testLoader: bool, loss: real) returns (r: Result<real, string>)
      modifies this
      ensures experimentName == old(experimentName)
      ensures (Snapshot(), r) == Validated(Settings(), old(Snapshot()), testLoader, loss)
    {
      if !testLoader && !hasValLoader {
        return Failure("AssertionError");
      }
      if !testLoader {
        valLoss := valLoss + [loss];
      }
      r := Success(loss);
    }

    method SaveCheckpoint(stage: string, bounds: (real, real)) returns (r: Result<(), string>)
      modifies this
      ensures experimentName == old(experimentName)
      ensures (Snapshot(), r) == Save(Settings(), old(Snapshot()), stage, bounds)
    {
      if stage != "intermediate" && stage != "after" {
        return Failure("AssertionError");
      }
      var name := "checkpoint";
      if stage == "intermediate" {
        name := name + ZeroPadded(epoch, 4);
      }
      name := name + ".pt";
      assert name == if stage == "intermediate" then CheckpointName(epoch) else LastName;
      files := files[name := Checkpoint(trainLoss, valLoss)];
      ghost var written := files;
      if stage == "after" {
        if !hasValLoader {
          return Failure("AssertionError");
        }
        files := files[ConfigName := Partial];
        var bestLoss := Index(valLoss, bestEpoch);
        if bestLoss.None? {
          return Failure("IndexError");
        }
        var lastLoss := Index(trainLoss, -1);
        if lastLoss.None? {
          return Failure("IndexError");
        }
        files := files[ConfigName := Config(experimentName, epoch, bestEpoch, bestLoss.value, lastLoss.value, bounds)];
        assert files == written[ConfigName := Config(experimentName, epoch, bestEpoch, bestLoss.value, lastLoss.value, bounds)];
      }
      r := Success(());
    }

    method Train(epochs: int, earlyStopping: int, trainLossAt: int -> real, valLossAt: int -> real,
                 bounds: (real, real)) returns (r: Result<(), string>)
      modifies this
      ensures experimentName == old(experimentName)
      ensures (Snapshot(), r) == TrainRun(Settings(), old(Snapshot()), epochs, earlyStopping, trainLossAt, valLossAt, bounds)
    {
      ghost var spec := Loop(Settings(), Snapshot(), 0, epochs, earlyStopping, trainLossAt, valLossAt, bounds);
      var e := 0;
      while e < epochs
        invariant experimentName == old(experimentName)
        invariant spec == Loop(Settings(), Snapshot(), e, epochs, earlyStopping, trainLossAt, valLossAt, bounds)
        decreases epochs - e
      {
        ghost var step := Step(Settings(), Snapshot(), earlyStopping, trainLossAt, valLossAt, bounds);
        var _ := TrainOneEpoch(trainLossAt(epoch + 1));
        if hasValLoader {
          var lErr := Validate(false, valLossAt(epoch));
          var l := lErr.value;
          if earlyStopping != 0 && bestEpoch + earlyStopping <= epoch {
            var out := SaveCheckpoint("after", bounds);
            if out.Failure? {
              return out;
            }
            assert step == (Snapshot(), Some(Stopped));
            break;
          }
          var bestLoss := Index(valLoss, bestEpoch);
          if bestLoss.None? {
            return Failure("IndexError");
          }
          if bestLoss.value > l || bestEpoch == -1 {
            bestEpoch := epoch;
            var _ := SaveCheckpoint("intermediate", bounds);
          }
        }
        assert step == (Snapshot(), None);
        e := e + 1;
      }
      r := SaveCheckpoint("after", bounds);
    }

    /** `load_checkpoint(last=...)` on the trainer's own folder; a
        `config.json` also renames the experiment. */
    method LoadCheckpoint(listing: seq<string>, last: bool) returns (r: Result<(), string>)
      requires Lists(listing, files)
      modifies this
      ensures (Snapshot(), experimentName, r) == Load(old(Snapshot()), old(experimentName), listing, last)
    {
      var chosen := Chosen(listing, last);
      if chosen.Failure? {
        return Failure(chosen.error);
      }
      var name := chosen.value;
      if name !in files {
        return Failure("FileNotFoundError");
      }
      var checkpoint := files[name];
      if !checkpoint.Checkpoint? {
        return Failure("UnpicklingError");
      }
      trainLoss := checkpoint.trainLoss;
      valLoss := checkpoint.valLoss;
      if ConfigName in files {
        var config := files[ConfigName];
        if !config.Config? {
          return Failure("JSONDecodeError");
        }
        experimentName := config.experimentName;
        epoch := config.epoch;
        bestEpoch := config.bestEpoch;
      }
      r := Success(());
    }

    /** `clean_models(number_left)` as written. */
    method CleanModelsAsWritten(listing: seq<string>, numberLeft: int) returns (r: Result<(), string>)
      modifies this
      ensures (files, r) == RemoveAll(experimentName, old(files), Rejoined(experimentName, ToDelete(experimentName, listing, numberLeft)))
      ensures Snapshot() == old(Snapshot()).(files := files)
      ensures experimentName == old(experimentName)
    {
      var toDelete := ToDelete(experimentName, listing, numberLeft);
      r := RemovePaths(Rejoined(experimentName, toDelete));
    }

    /** `clean_models(number_left)`, each checkpoint path removed as
        listed. */
    method CleanModels(listing: seq<string>, numberLeft: int) returns (r: Result<(), string>)
      modifies this
      ensures (files, r) == RemoveAll(experimentName, old(files), ToDelete(experimentName, listing, numberLeft))
      ensures Snapshot() == old(Snapshot()).(files := files)
      ensures experimentName == old(experimentName)
    {
      r := RemovePaths(ToDelete(experimentName, listing, numberLeft));
    }

    /** Calls `os.remove` on each path in turn. */
    method RemovePaths(paths: seq<string>) returns (r: Result<(), string>)
      modifies this
      ensures (files, r) == RemoveAll(experimentName, old(files), paths)
      ensures Snapshot() == old(Snapshot()).(files := files)
      ensures experimentName == old(experimentName)
    {
      for i := 0 to |paths|
        invariant RemoveAll(experimentName, old(files), paths) == RemoveAll(experimentName, files, paths[i..])
        invariant Snapshot() == old(Snapshot()).(files := files)
        invariant experimentName == old(experimentName)
      {
        var name := FileAt(experimentName, files, paths[i]);
        if name.None? {
          return Failure("FileNotFoundError");
        }
        assert paths[i..][1..] == paths[i + 1..];
        files := files - {name.value};
      }
      r := Success(());
    }
  }

}
