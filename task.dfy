/** The training task's entry point
    (platform/vertex-ai/anomaly-detection/trainer/task.py): where
    `read_cloud_data` reads the training data from, which files it reads
    and how it combines them; the experiment name; which checkpoint it
    exports; and where the model and its config are uploaded.

    Cloud Storage is an external service: listing a bucket is a function
    from a bucket and a prefix to blob names, and reading a CSV file a
    function from its URL to its rows (or the empty-file error). A CSV row
    is the sequence of its cells. Training itself is the `Trainer` model. */
module Task {
  import opened Common
  import Trainer
  import TrainerProperties

  // ---------------------------------------------------------------------
  // gs://bucket/folder paths

  /** The bucket (third `'/'`-separated field) and the folder (the fields
      after it, rejoined) of a `gs://` path; an IndexError when there are
      fewer than three fields. */
  function Location(path: string): (r: Result<(string, string), string>)
    ensures r.Success? <==> |Split(path, '/')| >= 3
    ensures r.Failure? ==> r.error == "IndexError"
    ensures r.Success? ==> '/' !in r.value.0
  {
    var splits := Split(path, '/');
    if |splits| < 3 then Failure("IndexError")
    else Success((splits[2], Join(splits[3..], '/')))
  }

  /** Splitting text that starts with a separator-free field. */
  lemma SplitFirst(p: string, c: char, rest: string)
    requires c !in p
    ensures Split(p + [c] + rest, c) == [p] + Split(rest, c)
  {
    FindAfterFree(p, c, rest);
    assert (p + [c] + rest)[..|p|] == p;
    assert (p + [c] + rest)[|p| + 1..] == rest;
  }

  /** Two separator-free fields, then the rest. */
  lemma SplitTwoFields(host: string, bucket: string, folder: string)
    requires '/' !in host && '/' !in bucket
    ensures Split(host + ['/'] + (bucket + ['/'] + folder), '/') == [host, bucket] + Split(folder, '/')
  {
    SplitFirst(bucket, '/', folder);
    SplitFirst(host, '/', bucket + ['/'] + folder);
  }

  /** After two separator-free fields, the third field is the bucket and
      the rest the folder. */
  lemma LocationOfFields(scheme: string, host: string, bucket: string, folder: string)
    requires '/' !in scheme && '/' !in host && '/' !in bucket
    ensures Location(scheme + ['/'] + (host + ['/'] + (bucket + ['/'] + folder))) == Success((bucket, folder))
  {
    var rest := host + ['/'] + (bucket + ['/'] + folder);
    var path := scheme + ['/'] + rest;
    var s := Split(folder, '/');
    var splits := Split(path, '/');
    assert splits == [scheme] + ([host, bucket] + s) by {
      SplitFirst(scheme, '/', rest);
      SplitTwoFields(host, bucket, folder);
    }
    ThirdAndRest(scheme, host, bucket, s);
    assert Join(s, '/') == folder by { JoinSplit(folder, '/'); }
    assert Location(path) == Success((splits[2], Join(splits[3..], '/')));
  }

  lemma ThirdAndRest<T>(a: T, b: T, c: T, s: seq<T>)
    ensures ([a] + ([b, c] + s))[2] == c && ([a] + ([b, c] + s))[3..] == s
  {
    assert [a] + ([b, c] + s) == [a, b, c] + s;
  }

  /** `gs://<bucket>/<folder>` gives back the bucket and the folder. */
  lemma LocationRoundTrip(bucket: string, folder: string)
    requires '/' !in bucket
    ensures Location("gs://" + bucket + "/" + folder) == Success((bucket, folder))
  {
    var scheme := "gs:";
    assert '/' !in scheme;
    LocationOfFields(scheme, [], bucket, folder);
    assert "gs://" + bucket + "/" + folder == scheme + ['/'] + ([] + ['/'] + (bucket + ['/'] + folder));
  }

  /** The folder is what follows the bucket in the path. */
  lemma LocationFolderIsSuffix(path: string)
    requires Location(path).Success?
    ensures EndsWith(path, Location(path).value.1)
  {
    var splits := Split(path, '/');
    JoinSplit(path, '/');
    if |splits| > 3 {
      JoinPrefixSuffix(splits, 3, '/');
    }
  }

  // ---------------------------------------------------------------------
  // read_cloud_data

  /** A CSV row: its cells. */
  type Record = seq<string>

  /** What `pd.read_csv` gives for a file: its rows, or EmptyDataError. */
  datatype Csv = Rows(rows: seq<Record>) | EmptyData

  /** `pattern` names one file: a `.csv` without a wildcard. */
  predicate IsSingleFile(pattern: string) {
    EndsWith(pattern, ".csv") && '*' !in pattern
  }

  /** The bucket and prefix listed for a pattern: the location of the text
      before the first `'*'`. Without a `'*'`, `find` gives -1 and the slice
      drops the last character. */
  function PatternLocation(pattern: string): (r: Result<(string, string), string>)
    ensures '*' in pattern ==> r == Location(pattern[..Find(pattern, '*')])
    ensures '*' !in pattern ==> r == Location(pattern[..if |pattern| > 0 then |pattern| - 1 else 0])
  {
    Location(Take(pattern, Find(pattern, '*')))
  }

  /** A pattern `gs://<bucket>/<prefix>*...` lists the blobs of the bucket
      under the prefix. */
  lemma WildcardPattern(bucket: string, prefix: string, rest: string)
    requires '/' !in bucket && '*' !in bucket && '*' !in prefix
    ensures var pattern := "gs://" + bucket + "/" + prefix + "*" + rest;
      && !IsSingleFile(pattern)
      && PatternLocation(pattern) == Success((bucket, prefix))
  {
    var head := "gs://" + bucket + "/" + prefix;
    var pattern := head + "*" + rest;
    assert pattern == head + ['*'] + rest;
    assert '*' !in head by {
      assert head == "gs://" + bucket + "/" + prefix;
      forall i | 0 <= i < |head| ensures head[i] != '*' {
        if i >= 6 + |bucket| {
          assert head[i] == prefix[i - 6 - |bucket|];
        } else if 5 <= i < 5 + |bucket| {
          assert head[i] == bucket[i - 5];
        }
      }
    }
    FindAfterFree(head, '*', rest);
    assert pattern[|head|] == '*';
    assert pattern[..|head|] == head;
    LocationRoundTrip(bucket, prefix);
  }

  /** `"gs://b/data/part*"` lists bucket `"b"` under `"data/part"`. */
  lemma WildcardExample()
    ensures PatternLocation("gs://b/data/part*") == Success(("b", "data/part"))
  {
    ExamplePattern();
    WildcardPattern("b", "data/part", "");
  }

  lemma ExamplePattern()
    ensures '/' !in "b" && '*' !in "b" && '*' !in "data/part"
    ensures "gs://" + "b" + "/" + "data/part" + "*" + "" == "gs://b/data/part*"
  {
    assert "data/part" == ['d', 'a', 't', 'a', '/', 'p', 'a', 'r', 't'];
  }

  /** A pattern without a wildcard that is not a `.csv` file loses its last
      character: `gs://<bucket>/<prefix>` followed by any one character
      lists the bucket under `prefix` alone. */
  lemma UnstarredPatternDropsLastCharacter(bucket: string, prefix: string, c: char)
    requires '/' !in bucket && '*' !in bucket && '*' !in prefix && c != '*'
    ensures var pattern := "gs://" + bucket + "/" + prefix + [c];
      !EndsWith(pattern, ".csv") ==> PatternLocation(pattern) == Success((bucket, prefix))
  {
    var pattern := "gs://" + bucket + "/" + prefix + [c];
    var head := "gs://" + bucket + "/" + prefix;
    assert '*' !in pattern by {
      forall i | 0 <= i < |pattern| ensures pattern[i] != '*' {
        if i >= 6 + |bucket| && i < |head| {
          assert pattern[i] == prefix[i - 6 - |bucket|];
        } else if 5 <= i < 5 + |bucket| {
          assert pattern[i] == bucket[i - 5];
        }
      }
    }
    assert pattern[..|pattern| - 1] == head;
    LocationRoundTrip(bucket, prefix);
  }

  /** The URL `read_cloud_data` reads a blob from. */
  function BlobUrl(bucket: string, name: string): string {
    "gs://" + bucket + "/" + name
  }

  /** Whether a listed blob contributes rows: a `.csv` name whose file is
      not empty. */
  predicate Contributes(bucket: string, name: string, read: string -> Csv) {
    EndsWith(name, ".csv") && read(BlobUrl(bucket, name)).Rows?
  }

  /** The frames the loop over the blobs collects, in listing order. */
  function CsvFrames(bucket: string, names: seq<string>, read: string -> Csv): (fs: seq<seq<Record>>)
    ensures |fs| <= |names|
  {
    if |names| == 0 then []
    else
      var fs := CsvFrames(bucket, names[..|names| - 1], read);
      var name := names[|names| - 1];
      if Contributes(bucket, name, read) then fs + [read(BlobUrl(bucket, name)).rows] else fs
  }

  /** `pd.concat(frames, ignore_index=True)` */
  function Concat(fs: seq<seq<Record>>): (rows: seq<Record>)
    ensures |fs| == 0 ==> rows == []
  {
    if |fs| == 0 then [] else Concat(fs[..|fs| - 1]) + fs[|fs| - 1]
  }

  /** Each row once. */
  ghost predicate Distinct(rows: seq<Record>) {
    forall i, j :: 0 <= i < j < |rows| ==> rows[i] != rows[j]
  }

  /** `drop_duplicates()`: each row's first occurrence, in order. */
  function DropDuplicates(rows: seq<Record>): (r: seq<Record>)
    ensures forall x :: x in r <==> x in rows
    ensures Distinct(r)
  {
    if |rows| == 0 then []
    else
      var r := DropDuplicates(rows[..|rows| - 1]);
      var x := rows[|rows| - 1];
      assert rows == rows[..|rows| - 1] + [x];
      if x in r then r else r + [x]
  }

  /** Rows without repeats are left as they are; in particular dropping
      duplicates twice drops nothing more. */
  lemma {:induction false} DropDuplicatesKeepsDistinct(rows: seq<Record>)
    requires Distinct(rows)
    ensures DropDuplicates(rows) == rows
  {
    if |rows| > 0 {
      var init := rows[..|rows| - 1];
      DropDuplicatesKeepsDistinct(init);
      assert rows[|rows| - 1] !in init;
      assert rows == init + [rows[|rows| - 1]];
    }
  }

  /** `x` is a row of some contributing blob among `names`. */
  ghost predicate InSomeBlob(bucket: string, names: seq<string>, read: string -> Csv, x: Record) {
    exists i :: 0 <= i < |names| && Contributes(bucket, names[i], read) && x in read(BlobUrl(bucket, names[i])).rows
  }

  lemma InSomeBlobSnoc(bucket: string, names: seq<string>, read: string -> Csv, x: Record)
    requires |names| > 0
    ensures var init, name := names[..|names| - 1], names[|names| - 1];
      InSomeBlob(bucket, names, read, x) <==>
        InSomeBlob(bucket, init, read, x)
        || (Contributes(bucket, name, read) && x in read(BlobUrl(bucket, name)).rows)
  {
    var init := names[..|names| - 1];
    if InSomeBlob(bucket, names, read, x) {
      var i :| 0 <= i < |names| && Contributes(bucket, names[i], read) && x in read(BlobUrl(bucket, names[i])).rows;
      if i < |names| - 1 { assert names[i] == init[i]; }
    }
    if InSomeBlob(bucket, init, read, x) {
      var i :| 0 <= i < |init| && Contributes(bucket, init[i], read) && x in read(BlobUrl(bucket, init[i])).rows;
      assert names[i] == init[i];
    }
  }

  lemma ConcatSnoc(fs: seq<seq<Record>>, rows: seq<Record>, x: Record)
    ensures x in Concat(fs + [rows]) <==> x in Concat(fs) || x in rows
  {
    assert (fs + [rows])[..|fs|] == fs;
  }

  /** A row of the collected frames is a row of a contributing blob. */
  lemma {:induction false} CsvFramesRows(bucket: string, names: seq<string>, read: string -> Csv, x: Record)
    ensures x in Concat(CsvFrames(bucket, names, read)) <==>
      exists i :: 0 <= i < |names| && Contributes(bucket, names[i], read) && x in read(BlobUrl(bucket, names[i])).rows
  {
    if |names| > 0 {
      var init := names[..|names| - 1];
      var name := names[|names| - 1];
      CsvFramesRows(bucket, init, read, x);
      InSomeBlobSnoc(bucket, names, read, x);
      if Contributes(bucket, name, read) {
        ConcatSnoc(CsvFrames(bucket, init, read), read(BlobUrl(bucket, name)).rows, x);
      }
    }
  }

  /** Some frame is collected exactly when some blob contributes. */
  lemma {:induction false} CsvFramesNonEmpty(bucket: string, names: seq<string>, read: string -> Csv)
    ensures |CsvFrames(bucket, names, read)| > 0 <==> exists i :: 0 <= i < |names| && Contributes(bucket, names[i], read)
  {
    if |names| > 0 {
      var init := names[..|names| - 1];
      CsvFramesNonEmpty(bucket, init, read);
      if exists i :: 0 <= i < |init| && Contributes(bucket, init[i], read) {
        var i :| 0 <= i < |init| && Contributes(bucket, init[i], read);
        assert names[i] == init[i];
      }
      if exists i :: 0 <= i < |names| && Contributes(bucket, names[i], read) {
        var i :| 0 <= i < |names| && Contributes(bucket, names[i], read);
        if i < |names| - 1 { assert names[i] == init[i]; }
      }
    }
  }

  /** The data read from the listed blobs: the AssertionError when none
      contributes, else the collected rows without duplicates. */
  function FromBlobs(bucket: string, names: seq<string>, read: string -> Csv): Result<seq<Record>, string> {
    var fs := CsvFrames(bucket, names, read);
    if |fs| == 0 then Failure("AssertionError") else Success(DropDuplicates(Concat(fs)))
  }

  /** What reading a bucket gives: data exactly when some `.csv` blob is
      non-empty, and then every row of every such blob, once; other blobs
      and empty files add nothing. */
  lemma FromBlobsRows(bucket: string, names: seq<string>, read: string -> Csv)
    ensures var r := FromBlobs(bucket, names, read);
      && (r.Success? <==> exists i :: 0 <= i < |names| && Contributes(bucket, names[i], read))
      && (r.Failure? ==> r.error == "AssertionError")
      && (r.Success? ==> Distinct(r.value))
      && (r.Success? ==> forall x :: x in r.value <==>
            exists i :: 0 <= i < |names| && Contributes(bucket, names[i], read) && x in read(BlobUrl(bucket, names[i])).rows)
  {
    CsvFramesNonEmpty(bucket, names, read);
    forall x ensures x in Concat(CsvFrames(bucket, names, read)) <==>
      exists i :: 0 <= i < |names| && Contributes(bucket, names[i], read) && x in read(BlobUrl(bucket, names[i])).rows
    {
      CsvFramesRows(bucket, names, read, x);
    }
  }

  /** `read_cloud_data(pattern, gsclient)`: one file read directly (an
      empty one raises), or the `.csv` blobs listed under the pattern's
      bucket and prefix, empty ones skipped. */
  method ReadCloudData(pattern: string, listBlobs: (string, string) -> seq<string>, read: string -> Csv)
    returns (r: Result<seq<Record>, string>)
    ensures IsSingleFile(pattern) ==>
      r == (if read(pattern).EmptyData? then Failure("EmptyDataError") else Success(DropDuplicates(read(pattern).rows)))
    ensures !IsSingleFile(pattern) && PatternLocation(pattern).Failure? ==> r == Failure("IndexError")
    ensures !IsSingleFile(pattern) && PatternLocation(pattern).Success? ==>
      var (bucket, prefix) := PatternLocation(pattern).value;
      r == FromBlobs(bucket, listBlobs(bucket, prefix), read)
  {
    if IsSingleFile(pattern) {
      var res := read(pattern);
      if res.EmptyData? {
        return Failure("EmptyDataError");
      }
      return Success(DropDuplicates(res.rows));
    }
    var location := PatternLocation(pattern);
    if location.Failure? {
      return Failure(location.error);
    }
    var (bucket, prefix) := location.value;
    var blobs := listBlobs(bucket, prefix);
    var dfs: seq<seq<Record>> := [];
    for i := 0 to |blobs|
      invariant dfs == CsvFrames(bucket, blobs[..i], read)
    {
      assert blobs[..i + 1][..i] == blobs[..i];
      var name := blobs[i];
      if !EndsWith(name, ".csv") {
        continue;
      }
      var df := read(BlobUrl(bucket, name));
      if df.EmptyData? {
        continue;
      }
      dfs := dfs + [df.rows];
    }
    assert blobs[..|blobs|] == blobs;
    if |dfs| == 0 {
      return Failure("AssertionError");
    }
    return Success(DropDuplicates(Concat(dfs)));
  }

  // ---------------------------------------------------------------------
  // The main block

  /** `experiment_name + now.strftime("_%Y%m%d")` */
  function ExperimentName(name: string, year: nat, month: nat, day: nat): (r: string)
    ensures StartsWith(r, name)
  {
    name + "_" + ZeroPadded(year, 4) + ZeroPadded(month, 2) + ZeroPadded(day, 2)
  }

  /** The experiment folder is relative whenever the given name is (the
      default `linear01` is): `clean_models` as written then fails in it. */
  lemma ExperimentNameIsRelative(name: string, year: nat, month: nat, day: nat)
    requires |name| == 0 || name[0] != '/'
    ensures var r := ExperimentName(name, year, month, day);
      r != "" && r[0] != '/'
  {
    var r := ExperimentName(name, year, month, day);
    if |name| == 0 {
      assert r[0] == '_';
    } else {
      assert r[0] == name[0];
    }
  }

  /** `model_file`: the greatest of the experiment's checkpoint paths; an
      IndexError when there is none. */
  function ModelFile(experimentName: string, listing: seq<string>): (r: Result<string, string>)
    ensures r.Failure? ==> r.error == "IndexError"
  {
    var sorted := SortStrings(Trainer.Checkpoints(experimentName, listing));
    if |sorted| == 0 then Failure("IndexError") else Success(sorted[|sorted| - 1])
  }

  /** Joining '/'-free names to one folder keeps their order. */
  lemma JoinKeepsOrder(folder: string, a: string, b: string)
    requires '/' !in a && '/' !in b && LessEq(a, b)
    ensures LessEq(Trainer.PathJoin(folder, a), Trainer.PathJoin(folder, b))
  {
    TrainerProperties.JoinIsPrefix(folder, a);
    TrainerProperties.JoinIsPrefix(folder, b);
    if a != b { LessPrefix(Trainer.PathJoin(folder, ""), a, b); }
  }

  lemma LessEqAntisymmetric(a: string, b: string)
    requires LessEq(a, b) && LessEq(b, a)
    ensures a == b
  {
    if a != b { LessAsymmetric(a, b); }
  }

  /** The checkpoint paths are the matching names joined to the folder. */
  lemma CheckpointPaths(folder: string, listing: seq<string>)
    ensures forall n :: n in listing && Trainer.MatchesCheckpoint(n) ==> Trainer.PathJoin(folder, n) in Trainer.Checkpoints(folder, listing)
    ensures forall p :: p in Trainer.Checkpoints(folder, listing) ==>
      exists n :: n in listing && Trainer.MatchesCheckpoint(n) && p == Trainer.PathJoin(folder, n)
  {
    var names := Trainer.Matching(listing);
    var all := Trainer.Checkpoints(folder, listing);
    forall n | n in listing && Trainer.MatchesCheckpoint(n) ensures Trainer.PathJoin(folder, n) in all {
      var k :| 0 <= k < |names| && names[k] == n;
      assert all[k] == Trainer.PathJoin(folder, n);
    }
    forall p | p in all ensures exists n :: n in listing && Trainer.MatchesCheckpoint(n) && p == Trainer.PathJoin(folder, n) {
      var j :| 0 <= j < |all| && all[j] == p;
      assert names[j] in names;
    }
  }

  /** Sorting the joined paths picks the same file as sorting the names:
      the exported model file is the checkpoint `load_checkpoint(last=False)`
      would load, joined to the experiment folder. */
  lemma ModelFileIsNewestCheckpoint(experimentName: string, listing: seq<string>)
    requires forall i :: 0 <= i < |listing| ==> '/' !in listing[i]
    ensures ModelFile(experimentName, listing) ==
      match Trainer.NewestCheckpoint(listing)
      case Success(name) => Success(Trainer.PathJoin(experimentName, name))
      case Failure(e) => Failure(e)
  {
    if |Trainer.Matching(listing)| > 0 {
      NewestModelFile(experimentName, listing);
    }
  }

  /** With some checkpoint in the folder, the last sorted path is the
      newest name joined to the folder. */
  lemma NewestModelFile(experimentName: string, listing: seq<string>)
    requires forall i :: 0 <= i < |listing| ==> '/' !in listing[i]
    requires |Trainer.Matching(listing)| > 0
    ensures Trainer.NewestCheckpoint(listing).Success?
    ensures ModelFile(experimentName, listing)
         == Success(Trainer.PathJoin(experimentName, Trainer.NewestCheckpoint(listing).value))
  {
    var all := Trainer.Checkpoints(experimentName, listing);
    var v := Trainer.NewestCheckpoint(listing).value;
    var pv := Trainer.PathJoin(experimentName, v);
    var last := SortStrings(all)[|all| - 1];
    assert ModelFile(experimentName, listing) == Success(last);
    var n := LastCheckpointName(experimentName, listing);
    assert LessEq(pv, last) by {
      assert pv in all by {
        CheckpointPaths(experimentName, listing);
      }
      Trainer.SortedLastIsGreatest(all);
    }
    assert LessEq(last, pv) by {
      JoinKeepsOrder(experimentName, n, v);
    }
    LessEqAntisymmetric(pv, last);
  }

  /** The last sorted checkpoint path is some checkpoint name of the
      listing joined to the folder. */
  lemma LastCheckpointName(folder: string, listing: seq<string>) returns (n: string)
    requires |Trainer.Matching(listing)| > 0
    ensures n in listing && Trainer.MatchesCheckpoint(n)
    ensures var all := Trainer.Checkpoints(folder, listing);
      SortStrings(all)[|all| - 1] == Trainer.PathJoin(folder, n)
  {
    var all := Trainer.Checkpoints(folder, listing);
    assert SortStrings(all)[|all| - 1] in all by {
      Trainer.SortedLastIsGreatest(all);
    }
    CheckpointPaths(folder, listing);
    n :| n in listing && Trainer.MatchesCheckpoint(n) && SortStrings(all)[|all| - 1] == Trainer.PathJoin(folder, n);
  }

  /** A file uploaded to the model bucket. */
  datatype Upload = Upload(bucket: string, objectName: string, localFile: string)

  /** The two uploads of the main block: the model file as
      `pytorch_model.bin` and the experiment's `config.json`, under the
      folder of `AIP_MODEL_DIR` (an AttributeError when it is unset). */
  function Uploads(modelDir: Option<string>, modelFile: string, experimentName: string): (r: Result<seq<Upload>, string>)
    ensures modelDir.None? ==> r == Failure("AttributeError")
    ensures modelDir.Some? ==> (r.Success? <==> Location(modelDir.value).Success?)
    ensures r.Success? ==>
      |r.value| == 2 && r.value[0].localFile == modelFile && r.value[1].localFile == experimentName + "/config.json"
  {
    match modelDir
    case None => Failure("AttributeError")
    case Some(dir) =>
      match Location(dir)
      case Failure(e) => Failure(e)
      case Success((bucket, folder)) =>
        Success([Upload(bucket, folder + "pytorch_model.bin", modelFile),
                 Upload(bucket, folder + "config.json", experimentName + "/config.json")])
  }

  /** The uploaded objects lie at `AIP_MODEL_DIR` followed by their file
      names: `gs://<bucket>/<object>` is the model directory's text with the
      file name appended (so a directory without a trailing '/' glues the
      name onto its last field). */
  lemma UploadsUnderModelDir(bucket: string, folder: string, modelFile: string, experimentName: string)
    requires '/' !in bucket
    ensures var dir := "gs://" + bucket + "/" + folder;
      var r := Uploads(Some(dir), modelFile, experimentName);
      && r.Success?
      && r.value[0].bucket == bucket && r.value[1].bucket == bucket
      && "gs://" + bucket + "/" + r.value[0].objectName == dir + "pytorch_model.bin"
      && "gs://" + bucket + "/" + r.value[1].objectName == dir + "config.json"
  {
    LocationRoundTrip(bucket, folder);
  }

  /** After `train` on a fresh experiment folder without checkpoints, for at
      most 10000 epochs, the exported model is the best epoch's checkpoint
      (or there is none to export when no epoch was ever the best). */
  lemma ExportsBestEpoch(setup: Trainer.Setup, files: Trainer.Folder, epochs: int, es: int,
                         tl: int -> real, vl: int -> real, bounds: (real, real), listing: seq<string>)
    requires setup.hasValLoader && epochs <= 10000
    requires forall n :: n in files ==> !Trainer.MatchesCheckpoint(n)
    requires Trainer.Lists(listing, Trainer.TrainRun(setup, Trainer.Fresh(files), epochs, es, tl, vl, bounds).0.files)
    ensures var t := Trainer.TrainRun(setup, Trainer.Fresh(files), epochs, es, tl, vl, bounds).0;
      ModelFile(setup.experimentName, listing) ==
        if t.bestEpoch >= 0 then Success(Trainer.PathJoin(setup.experimentName, Trainer.CheckpointName(t.bestEpoch)))
        else Failure("IndexError")
  {
    TrainerProperties.NewestCheckpointIsBest(setup, files, epochs, es, tl, vl, bounds, listing);
    ModelFileIsNewestCheckpoint(setup.experimentName, listing);
  }
}
