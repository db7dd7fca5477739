/** The command bodies of stoic.py over the abstract filesystem, the working
    directory and the registry. Each command returns how it ended and what
    it printed or ran, in order. Prompt answers, the Docker client's image
    list and whether the database can be opened are parameters. */
module Stoic {
  import opened Common
  import opened FileSystem
  import opened Registry
  import Utils

  const NoModelsMessage := "There currently are no models"
  const ConflictMessage := "container name already exists"
  const ExecutablesDone := "Container executables finished"
  const PushDone := "ECR push..."
  const TrainDone := "local train complete"
  const ServeDone := "Local server"
  const PredictDone := "local prediction complete"
  const TableSetupMessage := "model table setup"

  /** The models root under the working directory. */
  function ModelsRoot(cwd: string): string
  {
    Join(cwd, "models")
  }

  /** The test `b != 'local_test'`. */
  predicate NotLocalTest(name: string)
  {
    name != "local_test"
  }

  /** `[b for b in names if b != 'local_test']`. */
  function RemoveLocalTest(names: seq<string>): (r: seq<string>)
    ensures "local_test" !in r
    ensures forall i :: 0 <= i < |r| ==> r[i] in names
    ensures forall i :: 0 <= i < |names| && names[i] != "local_test" ==> names[i] in r
  {
    Filter(NotLocalTest, names)
  }

  /** The model `build` and `push` pick, found by scanning the container's
      listing from the front: the first entry other than local_test that is
      a directory. */
  function ScanForModel(fs: FileSystem, containerDir: string, names: seq<string>): Option<string>
    decreases |names|
  {
    if names == [] then None
    else if names[0] != "local_test" && Join(containerDir, names[0]) in fs.entries then Some(names[0])
    else ScanForModel(fs, containerDir, names[1..])
  }

  /** The scan finds nothing iff every entry is local_test or not a
      directory; what it finds is such an entry, and every entry listed
      before it is local_test or not a directory. */
  lemma {:induction false} ScanForModelFirst(fs: FileSystem, containerDir: string, names: seq<string>)
    ensures ScanForModel(fs, containerDir, names).None? <==>
      forall i :: 0 <= i < |names| ==> names[i] == "local_test" || Join(containerDir, names[i]) !in fs.entries
    ensures ScanForModel(fs, containerDir, names).Some? ==>
      exists i :: 0 <= i < |names| && names[i] == ScanForModel(fs, containerDir, names).value
        && names[i] != "local_test" && Join(containerDir, names[i]) in fs.entries
        && forall j :: 0 <= j < i ==> names[j] == "local_test" || Join(containerDir, names[j]) !in fs.entries
    decreases |names|
  {
    if names != [] && !(names[0] != "local_test" && Join(containerDir, names[0]) in fs.entries) {
      var rest := names[1..];
      ScanForModelFirst(fs, containerDir, rest);
      forall i | 0 < i < |names| ensures names[i] == rest[i - 1] { }
      var r := ScanForModel(fs, containerDir, names);
      if r.Some? {
        var i :| 0 <= i < |rest| && rest[i] == r.value && rest[i] != "local_test" && Join(containerDir, rest[i]) in fs.entries
          && forall j :: 0 <= j < i ==> rest[j] == "local_test" || Join(containerDir, rest[j]) !in fs.entries;
        assert names[i + 1] == r.value;
      }
    }
  }

  /** The head of the two comprehensions is what the scan finds. */
  lemma {:induction false} FilteredHead(fs: FileSystem, containerDir: string, names: seq<string>)
    ensures var kept := Filter(Both(Utils.SubdirectoryOf(fs, containerDir), NotLocalTest), names);
      var scan := ScanForModel(fs, containerDir, names);
      (kept == [] <==> scan.None?) && (kept != [] ==> kept[0] == scan.value)
    decreases |names|
  {
    if names != [] {
      FilteredHead(fs, containerDir, names[1..]);
    }
  }

  /** `[b for b in dirWalk(containerDir) if b != 'local_test'][0]`, with the
      StopIteration or IndexError it raises. */
  function FirstModel(fs: FileSystem, containerDir: string): (r: Result<string>)
    ensures containerDir !in fs.entries ==> r == Err(StopIteration)
    ensures containerDir in fs.entries ==> var scan := ScanForModel(fs, containerDir, fs.entries[containerDir]);
      && (r.Ok? <==> scan.Some?)
      && (r.Ok? ==> r.value == scan.value)
      && (r.Err? ==> r.failure == IndexOutOfRange)
    ensures r.Ok? ==> containerDir in fs.entries && Join(containerDir, r.value) in fs.entries
    ensures r.Ok? ==> r.value != "local_test" && r.value in fs.entries[containerDir]
  {
    match Utils.DirWalk(fs, containerDir)
    case Err(f) => Err(f)
    case Ok(subdirs) =>
      var models := RemoveLocalTest(subdirs);
      FilterTwice(Utils.SubdirectoryOf(fs, containerDir), NotLocalTest, fs.entries[containerDir]);
      FilteredHead(fs, containerDir, fs.entries[containerDir]);
      if models == [] then Err(IndexOutOfRange) else Ok(models[0])
  }

  /** The three files build makes executable, relative to the container. */
  function Executables(model: string): seq<string>
  {
    ["build_and_push.sh", model + "/train", model + "/serve"]
  }

  /** The three files trainlocal makes executable, relative to local_test. */
  function LocalScripts(): seq<string>
  {
    ["predict.sh", "serve_local.sh", "train_local.sh"]
  }

  /** The effect of a chmod loop: new modes, the scripts it ran, and the
      exception that stopped it, if any. */
  datatype LoopResult = LoopResult(modes: map<string, bv32>, ran: seq<Event>, failure: Option<Failure>)

  /** `for _file in files: os.chmod(_file, os.stat(_file).st_mode | stat.S_IEXEC)`
      inside `dir`, running `./script args` after each chmod when `run` names
      one; the first missing file stops the loop. */
  function ChmodEach(modes: map<string, bv32>, dir: string, files: seq<string>, run: Option<(string, string)>): (r: LoopResult)
    ensures r.failure.Some? ==> r.failure.value.OsError? && r.failure.value.path !in modes
    decreases |files|
  {
    if files == [] then LoopResult(modes, [], None)
    else
      var p := Join(dir, files[0]);
      if p !in modes then LoopResult(modes, [], Some(OsError(p)))
      else
        var m := modes[p := WithExecBit(modes[p])];
        var ev := if run.Some? then [Script(Join(dir, run.value.0), run.value.1, IsExecutable(m, Join(dir, run.value.0)))] else [];
        var rest := ChmodEach(m, dir, files[1..], run);
        LoopResult(rest.modes, ev + rest.ran, rest.failure)
  }

  /** The paths a chmod loop inside `dir` touches. */
  function Targets(dir: string, files: seq<string>): (paths: seq<string>)
    decreases |files|
  {
    if files == [] then [] else [Join(dir, files[0])] + Targets(dir, files[1..])
  }

  /** The chmod loop body shared by build and trainlocal, in the working directory. */
  method ChmodLoop(host: Host, files: seq<string>, run: Option<(string, string)>) returns (ran: seq<Event>, failure: Option<Failure>)
    modifies host`fs
    ensures var r := ChmodEach(old(host.fs.modes), host.cwd, files, run);
      host.fs == old(host.fs).(modes := r.modes) && ran == r.ran && failure == r.failure
  {
    ran, failure := [], None;
    var i := 0;
    while i < |files|
      invariant 0 <= i <= |files|
      invariant host.fs.entries == old(host.fs.entries)
      invariant var rest := ChmodEach(host.fs.modes, host.cwd, files[i..], run);
        ChmodEach(old(host.fs.modes), host.cwd, files, run) == LoopResult(rest.modes, ran + rest.ran, rest.failure)
    {
      assert files[i..][1..] == files[i + 1..];
      var path := Join(host.cwd, files[i]);
      var chmod := MakeExecutable(host.fs.modes, path);
      if chmod.Err? {
        failure := Some(chmod.failure);
        return;
      }
      host.fs := host.fs.(modes := chmod.value);
      if run.Some? {
        var script := Join(host.cwd, run.value.0);
        ran := ran + [Script(script, run.value.1, IsExecutable(host.fs.modes, script))];
      }
      i := i + 1;
    }
    assert files[i..] == [];
  }

  /** A chmod loop runs to the end exactly when every file exists. */
  lemma {:induction false} ChmodEachSucceeds(modes: map<string, bv32>, dir: string, files: seq<string>, run: Option<(string, string)>)
    ensures ChmodEach(modes, dir, files, run).failure.None? <==> forall k :: 0 <= k < |files| ==> Join(dir, files[k]) in modes
    ensures forall k :: 0 <= k < |files| && Join(dir, files[k]) !in modes ==> ChmodEach(modes, dir, files, run).failure.Some?
    ensures ChmodEach(modes, dir, files, run).modes.Keys == modes.Keys
    decreases |files|
  {
    if files != [] {
      var p := Join(dir, files[0]);
      if p in modes {
        var m := MakeExecutable(modes, p).value;
        ChmodEachSucceeds(m, dir, files[1..], run);
        forall k | 1 <= k < |files| ensures files[k] == files[1..][k - 1] { }
        assert forall q :: q in modes <==> q in m;
      }
    }
  }

  /** One chmod of a loop whose first file exists. */
  lemma ChmodEachStep(modes: map<string, bv32>, dir: string, files: seq<string>, run: Option<(string, string)>)
    requires files != [] && Join(dir, files[0]) in modes
    ensures ChmodEach(modes, dir, files, run).modes
         == ChmodEach(modes[Join(dir, files[0]) := WithExecBit(modes[Join(dir, files[0])])], dir, files[1..], run).modes
  {
  }

  /** A completed chmod loop sets the execute bit on exactly its targets and
      leaves every other bit and every other file as it was. */
  lemma {:induction false} ChmodEachExact(modes: map<string, bv32>, dir: string, files: seq<string>, run: Option<(string, string)>, q: string)
    requires forall k :: 0 <= k < |files| ==> Join(dir, files[k]) in modes
    requires q in modes
    ensures var r := ChmodEach(modes, dir, files, run).modes;
      q in r && r[q] == if q in Targets(dir, files) then WithExecBit(modes[q]) else modes[q]
    decreases |files|
  {
    if files != [] {
      var p := Join(dir, files[0]);
      var m := modes[p := WithExecBit(modes[p])];
      ChmodEachStep(modes, dir, files, run);
      forall k | 0 <= k < |files[1..]| ensures Join(dir, files[1..][k]) in m {
        assert Join(dir, files[k + 1]) in modes;
      }
      ChmodEachExact(m, dir, files[1..], run, q);
      assert q in Targets(dir, files) <==> q == p || q in Targets(dir, files[1..]);
      if q == p {
        WithExecBitFacts(modes[q]);
      }
    }
  }

  /** Running a completed chmod loop a second time changes no mode. */
  lemma ChmodEachIdempotent(modes: map<string, bv32>, dir: string, files: seq<string>, run: Option<(string, string)>)
    requires forall k :: 0 <= k < |files| ==> Join(dir, files[k]) in modes
    ensures var once := ChmodEach(modes, dir, files, run).modes;
      ChmodEach(once, dir, files, run).modes == once
  {
    var once := ChmodEach(modes, dir, files, run).modes;
    ChmodEachSucceeds(modes, dir, files, run);
    var twice := ChmodEach(once, dir, files, run).modes;
    ChmodEachSucceeds(once, dir, files, run);
    forall q | q in modes ensures twice[q] == once[q] {
      ChmodEachExact(modes, dir, files, run, q);
      ChmodEachExact(once, dir, files, run, q);
    }
  }

  /** A chmod loop whose first missing file is files[k] stops there with that
      file's stat error and keeps the chmods and runs of files[..k]: nothing
      it already changed is undone. */
  lemma {:induction false} ChmodEachStopsAt(modes: map<string, bv32>, dir: string, files: seq<string>, run: Option<(string, string)>, k: nat)
    requires k < |files| && Join(dir, files[k]) !in modes
    requires forall j :: 0 <= j < k ==> Join(dir, files[j]) in modes
    ensures var r := ChmodEach(modes, dir, files, run);
      var done := ChmodEach(modes, dir, files[..k], run);
      && r.failure == Some(OsError(Join(dir, files[k])))
      && r.modes == done.modes
      && r.ran == done.ran
    decreases k
  {
    if k == 0 {
      assert files[..k] == [];
    } else {
      var p := Join(dir, files[0]);
      var m := modes[p := WithExecBit(modes[p])];
      assert p in modes;
      assert files[1..][k - 1] == files[k];
      forall j | 0 <= j < k - 1 ensures Join(dir, files[1..][j]) in m {
        assert Join(dir, files[j + 1]) in modes;
      }
      ChmodEachStopsAt(m, dir, files[1..], run, k - 1);
      assert files[..k][0] == files[0];
      assert files[..k][1..] == files[1..][..k - 1];
    }
  }

  /** build sets the execute bit on exactly build_and_push.sh, <model>/train
      and <model>/serve of the container, keeps every other mode, and a second
      build changes nothing more. */
  lemma BuildChmodExact(modes: map<string, bv32>, dir: string, model: string, q: string)
    requires Join(dir, "build_and_push.sh") in modes
    requires Join(dir, model + "/train") in modes && Join(dir, model + "/serve") in modes
    requires q in modes
    ensures var r := ChmodEach(modes, dir, Executables(model), None);
      && r.failure.None?
      && q in r.modes
      && r.modes[q] == (if q == Join(dir, "build_and_push.sh") || q == Join(dir, model + "/train") || q == Join(dir, model + "/serve")
                        then WithExecBit(modes[q]) else modes[q])
      && ChmodEach(r.modes, dir, Executables(model), None).modes == r.modes
  {
    var files := Executables(model);
    assert forall k :: 0 <= k < |files| ==> Join(dir, files[k]) in modes;
    ChmodEachSucceeds(modes, dir, files, None);
    ChmodEachExact(modes, dir, files, None, q);
    ChmodEachIdempotent(modes, dir, files, None);
    assert files[1..][1..][1..] == [];
    assert Targets(dir, files[1..][1..]) == [Join(dir, model + "/serve")];
    assert Targets(dir, files[1..]) == [Join(dir, model + "/train"), Join(dir, model + "/serve")];
    assert Targets(dir, files) == [Join(dir, "build_and_push.sh"), Join(dir, model + "/train"), Join(dir, model + "/serve")];
  }

  /** One chmod of a loop that runs a script after each chmod, when the
      first file exists: the script runs once, then the rest of the loop. */
  lemma ChmodEachRanStep(modes: map<string, bv32>, dir: string, files: seq<string>, script: string, args: string)
    requires files != [] && Join(dir, files[0]) in modes
    ensures var p := Join(dir, files[0]);
      var m := modes[p := WithExecBit(modes[p])];
      ChmodEach(modes, dir, files, Some((script, args))).ran
        == [Script(Join(dir, script), args, IsExecutable(m, Join(dir, script)))] + ChmodEach(m, dir, files[1..], Some((script, args))).ran
  {
  }

  /** A three-file chmod loop that runs the third file after each chmod: the
      first two runs see the script's mode from before the loop, the third
      sees it executable. */
  lemma RunsAfterEachChmod(modes: map<string, bv32>, dir: string, a: string, b: string, c: string, args: string)
    requires Join(dir, a) in modes && Join(dir, b) in modes && Join(dir, c) in modes
    requires Join(dir, a) != Join(dir, c) && Join(dir, b) != Join(dir, c)
    ensures var script := Join(dir, c);
      var before := IsExecutable(modes, script);
      ChmodEach(modes, dir, [a, b, c], Some((c, args))).ran
        == [Script(script, args, before), Script(script, args, before), Script(script, args, true)]
  {
    var script := Join(dir, c);
    var run := Some((c, args));
    var p0, p1 := Join(dir, a), Join(dir, b);
    var files := [a, b, c];
    var m0 := modes[p0 := WithExecBit(modes[p0])];
    var m1 := m0[p1 := WithExecBit(m0[p1])];
    var m2 := m1[script := WithExecBit(m1[script])];
    assert IsExecutable(m0, script) == IsExecutable(modes, script);
    assert IsExecutable(m1, script) == IsExecutable(modes, script);
    WithExecBitFacts(m1[script]);
    assert IsExecutable(m2, script);
    var t1 := files[1..];
    var t2 := t1[1..];
    assert t1 == [b, c] && t2 == [c] && t2[1..] == [];
    ChmodEachRanStep(modes, dir, files, c, args);
    ChmodEachRanStep(m0, dir, t1, c, args);
    ChmodEachRanStep(m1, dir, t2, c, args);
    assert ChmodEach(m2, dir, t2[1..], run).ran == [];
    var e := Script(script, args, IsExecutable(modes, script));
    ThreeElements(e, e, Script(script, args, true));
  }

  /** trainlocal runs train_local.sh after each of its three chmods; the
      first two runs see train_local.sh with its mode before the command. */
  lemma TrainLocalRunsThrice(modes: map<string, bv32>, dir: string, model: string)
    requires forall k :: 0 <= k < |LocalScripts()| ==> Join(dir, LocalScripts()[k]) in modes
    ensures var script := Join(dir, "train_local.sh");
      var before := IsExecutable(modes, script);
      ChmodEach(modes, dir, LocalScripts(), Some(("train_local.sh", model))).ran
        == [Script(script, model, before), Script(script, model, before), Script(script, model, true)]
  {
    var script := Join(dir, "train_local.sh");
    var p0, p1 := Join(dir, "predict.sh"), Join(dir, "serve_local.sh");
    assert LocalScripts() == ["predict.sh", "serve_local.sh", "train_local.sh"];
    assert p0 in modes && p1 in modes && script in modes by {
      assert LocalScripts()[0] == "predict.sh" && LocalScripts()[1] == "serve_local.sh" && LocalScripts()[2] == "train_local.sh";
    }
    assert p0 != script by { assert p0[|dir| + 1] != script[|dir| + 1]; }
    assert p1 != script by { assert p1[|dir| + 1] != script[|dir| + 1]; }
    RunsAfterEachChmod(modes, dir, "predict.sh", "serve_local.sh", "train_local.sh", model);
  }

  /** Three singletons in a row, then nothing, are a three-element sequence. */
  lemma ThreeElements<T>(a: T, b: T, c: T)
    ensures [a] + ([b] + ([c] + [])) == [a, b, c]
  {
    assert [c] + [] == [c];
    assert [b] + [c] == [b, c];
  }

  /** `checkmodels`: the subdirectories of models/, each mapped to its own
      subdirectories other than local_test. The first dirWalk is outside
      the try, so a missing models/ crashes the command. */
  method CheckModels(host: Host) returns (exit: Exit, printed: seq<Event>)
    ensures var top := Utils.DirWalk(host.fs, ModelsRoot(host.cwd));
      && (exit == if top.Err? then Crashed(StopIteration) else Completed)
      && (top.Err? ==> printed == [])
      && (top.Ok? && top.value == [] ==> printed == [Echo(NoModelsMessage)])
      && (top.Ok? && top.value != [] ==> |printed| == 1 && printed[0].ShowInventory?)
    ensures |printed| == 1 && printed[0].ShowInventory? ==>
      var top := Utils.DirWalk(host.fs, ModelsRoot(host.cwd)).value;
      var m := printed[0].inventory;
      && (forall c :: c in m <==> c in top)
      && (forall c :: c in m ==> m[c] == RemoveLocalTest(Utils.DirWalk(host.fs, Join(ModelsRoot(host.cwd), c)).value))
  {
    var target := ModelsRoot(host.cwd);
    var top := Utils.DirWalk(host.fs, target);
    if top.Err? {
      return Crashed(StopIteration), [];
    }
    var containers := top.value;
    exit := Completed;
    if |containers| == 0 {
      return exit, [Echo(NoModelsMessage)];
    }
    var models: map<string, seq<string>> := map[];
    var i := 0;
    while i < |containers|
      invariant 0 <= i <= |containers|
      invariant forall c :: c in models <==> c in containers[..i]
      invariant forall c :: c in models ==>
        (Utils.DirWalk(host.fs, Join(target, c)).Ok? &&
         models[c] == RemoveLocalTest(Utils.DirWalk(host.fs, Join(target, c)).value))
    {
      var c := containers[i];
      var listing := Utils.DirWalk(host.fs, Join(target, c));
      assert listing.Ok?;
      models := models[c := RemoveLocalTest(listing.value)];
      assert containers[..i + 1] == containers[..i] + [c];
      i := i + 1;
    }
    assert containers[..i] == containers;
    printed := [ShowInventory(models)];
  }

  /** The tar pipeline `container` runs to unpack the template as `name`. */
  function UnpackCommand(target: string, name: string): string
  {
    "tar -xvf " + target + "/container_template.tar.gz --directory " + target
      + " && mv " + target + "/container_template " + target + "/" + name
      + " && rm " + target + "/container_template.tar.gz"
  }

  /** The rename `container` runs to give the template's algorithm its model name. */
  function RenameCommand(target: string, name: string, model: string): string
  {
    "mv " + target + "/" + name + "/algorithm " + target + "/" + name + "/" + model
  }

  /** `container NAME MODEL`: refuse a name already under models/; otherwise
      copy the template archive and run the unpack and rename pipelines.
      `scaffolded` is the filesystem those external programs leave behind. */
  method Container(host: Host, name: string, model: string, scaffolded: FileSystem) returns (exit: Exit, printed: seq<Event>)
    modifies host`fs
    ensures var top := Utils.DirWalk(old(host.fs), ModelsRoot(host.cwd));
      var source := Join(host.cwd, "container_build/container_template.tar.gz");
      && (exit == if top.Err? then Crashed(StopIteration) else Completed)
      && (top.Err? ==> printed == [] && host.fs == old(host.fs))
      && (top.Ok? && name in top.value ==> printed == [Echo(ConflictMessage)] && host.fs == old(host.fs))
      && (top.Ok? && name !in top.value && source !in old(host.fs.modes) ==>
            printed == [ShowError(OsError(source))] && host.fs == old(host.fs))
      && (top.Ok? && name !in top.value && source in old(host.fs.modes) ==>
            printed == [Shell(UnpackCommand(ModelsRoot(host.cwd), name), host.cwd),
                        Shell(RenameCommand(ModelsRoot(host.cwd), name, model), host.cwd)]
            && host.fs == scaffolded)
  {
    var target := ModelsRoot(host.cwd);
    var current := Utils.DirWalk(host.fs, target);
    if current.Err? {
      return Crashed(StopIteration), [];
    }
    exit := Completed;
    if name in current.value {
      printed := [Echo(ConflictMessage)];
    } else {
      var source := Join(host.cwd, "container_build/container_template.tar.gz");
      if source !in host.fs.modes {
        printed := [ShowError(OsError(source))];
      } else {
        printed := [Shell(UnpackCommand(target, name), host.cwd), Shell(RenameCommand(target, name, model), host.cwd)];
        host.fs := scaffolded;
      }
    }
  }

  /** What build prints after choosing its container. */
  function BuildReport(fs: FileSystem, containerDir: string): (tail: seq<Event>)
  {
    match FirstModel(fs, containerDir)
    case Err(f) => [ShowError(f)]
    case Ok(model) =>
      var failure := ChmodEach(fs.modes, containerDir, Executables(model), None).failure;
      [ShowError(if failure.Some? then failure.value else Raised(ExecutablesDone))]
  }

  /** build's report is one line: StopIteration for a missing container,
      IndexError when it holds no model, and the finished message exactly when
      all three executables of the first model exist. */
  lemma BuildReportCases(fs: FileSystem, containerDir: string)
    ensures |BuildReport(fs, containerDir)| == 1
    ensures containerDir !in fs.entries ==> BuildReport(fs, containerDir) == [ShowError(StopIteration)]
    ensures containerDir in fs.entries && ScanForModel(fs, containerDir, fs.entries[containerDir]).None? ==>
      BuildReport(fs, containerDir) == [ShowError(IndexOutOfRange)]
    ensures BuildReport(fs, containerDir) == [ShowError(Raised(ExecutablesDone))] <==>
      && FirstModel(fs, containerDir).Ok?
      && forall k :: 0 <= k < 3 ==> Join(containerDir, Executables(FirstModel(fs, containerDir).value)[k]) in fs.modes
  {
    var first := FirstModel(fs, containerDir);
    if first.Ok? {
      var files := Executables(first.value);
      ChmodEachSucceeds(fs.modes, containerDir, files, None);
      assert |files| == 3;
      assert BuildReport(fs, containerDir) == [ShowError(Raised(ExecutablesDone))]
         <==> ChmodEach(fs.modes, containerDir, files, None).failure.None?;
    }
  }

  /** When executable k of the first model is the first one missing, build
      reports its stat error. */
  lemma BuildReportFirstMissing(fs: FileSystem, containerDir: string, k: nat)
    requires FirstModel(fs, containerDir).Ok?
    requires k < 3
    requires Join(containerDir, Executables(FirstModel(fs, containerDir).value)[k]) !in fs.modes
    requires forall j :: 0 <= j < k ==> Join(containerDir, Executables(FirstModel(fs, containerDir).value)[j]) in fs.modes
    ensures BuildReport(fs, containerDir)
         == [ShowError(OsError(Join(containerDir, Executables(FirstModel(fs, containerDir).value)[k])))]
  {
    ChmodEachStopsAt(fs.modes, containerDir, Executables(FirstModel(fs, containerDir).value), None, k);
  }

  /** `build`: choose a container (`dockerModel`, the prompt's answer), then
      inside it OR the execute bit into build_and_push.sh, <model>/train and
      <model>/serve for its first model, and raise. */
  method Build(host: Host, dockerModel: string) returns (exit: Exit, printed: seq<Event>)
    modifies host
    ensures host.cwd == old(host.cwd)
    ensures host.fs.entries == old(host.fs.entries)
    ensures Echo("done") !in printed
    ensures var top := Utils.DirWalk(old(host.fs), ModelsRoot(host.cwd));
      var dir := Join(ModelsRoot(host.cwd), dockerModel);
      var first := FirstModel(old(host.fs), dir);
      && (exit == if top.Err? then Crashed(StopIteration) else Completed)
      && (top.Err? ==> printed == [])
      && (top.Ok? && top.value == [] ==> printed == [Echo(NoModelsMessage)])
      && (top.Ok? && top.value != [] ==>
            printed == [Echo("Create executables for " + dockerModel + ".")] + BuildReport(old(host.fs), dir))
      && (host.fs.modes == if top.Ok? && top.value != [] && first.Ok?
                           then ChmodEach(old(host.fs.modes), dir, Executables(first.value), None).modes
                           else old(host.fs.modes))
  {
    var target := ModelsRoot(host.cwd);
    var dirs := Utils.DirWalk(host.fs, target);
    if dirs.Err? {
      return Crashed(StopIteration), [];
    }
    exit := Completed;
    if |dirs.value| == 0 {
      return exit, [Echo(NoModelsMessage)];
    }
    printed := [Echo("Create executables for " + dockerModel + ".")];
    var dir := Join(target, dockerModel);
    var first := FirstModel(host.fs, dir);
    if first.Err? {
      return exit, printed + [ShowError(first.failure)];
    }
    var saved := Utils.EnterDirectory(host, dir);
    assert saved.Ok?;
    var _, failure := ChmodLoop(host, Executables(first.value), None);
    Utils.LeaveDirectory(host, saved.value);
    printed := printed + [ShowError(if failure.Some? then failure.value else Raised(ExecutablesDone))];
  }

  /** `push --yes`: choose a container, register (container, first model) in
      the registry, then run build_and_push.sh inside the container, and raise. */
  method Push(host: Host, db: ModelRegistry, yes: bool, dockerModel: string, reachable: bool) returns (exit: Exit, printed: seq<Event>)
    requires db.Valid()
    modifies host`cwd, db
    ensures db.Valid()
    ensures host.cwd == old(host.cwd)
    ensures var top := Utils.DirWalk(host.fs, ModelsRoot(host.cwd));
      var dir := Join(ModelsRoot(host.cwd), dockerModel);
      var first := FirstModel(host.fs, dir);
      var inserting := yes && top.Ok? && top.value != [] && first.Ok?;
      var inserted := inserting && reachable && old(db.tableExists);
      && (exit == if !yes then Aborted else if top.Err? then Crashed(StopIteration) else Completed)
      && (!yes || top.Err? ==> printed == [])
      && (yes && top.Ok? && top.value == [] ==> printed == [Echo(NoModelsMessage)])
      && (yes && top.Ok? && top.value != [] && first.Err? ==> printed == [ShowError(first.failure)])
      && (inserting && !inserted ==>
            printed == [ShowError(if !reachable then ConnectFailed else NoSuchTable)])
      && (inserted ==>
            var script := Join(dir, "build_and_push.sh");
            printed == [Registered((dockerModel, first.value)),
                        Script(script, first.value, IsExecutable(host.fs.modes, script)),
                        ShowError(Raised(PushDone))])
      && db.tableExists == old(db.tableExists)
      && db.rows == if inserted then InsertOrIgnore(old(db.rows), (dockerModel, first.value)) else old(db.rows)
  {
    if Utils.AbortIfFalse(yes) == Utils.Abort {
      return Aborted, [];
    }
    var target := ModelsRoot(host.cwd);
    var dirs := Utils.DirWalk(host.fs, target);
    if dirs.Err? {
      return Crashed(StopIteration), [];
    }
    exit := Completed;
    if |dirs.value| == 0 {
      return exit, [Echo(NoModelsMessage)];
    }
    var dir := Join(target, dockerModel);
    var first := FirstModel(host.fs, dir);
    if first.Err? {
      return exit, [ShowError(first.failure)];
    }
    printed := RegisterAndPush(host, db, dir, dockerModel, first.value, reachable);
  }

  /** The tail of `push` once a model is chosen: `createModel` (which raises
      on a missing database or table), then build_and_push.sh inside the
      container, then the closing raise. */
  method RegisterAndPush(host: Host, db: ModelRegistry, dir: string, dockerModel: string, model: string, reachable: bool)
    returns (printed: seq<Event>)
    requires db.Valid() && dir in host.fs.entries
    modifies host`cwd, db
    ensures db.Valid()
    ensures host.cwd == old(host.cwd)
    ensures db.tableExists == old(db.tableExists)
    ensures !(reachable && old(db.tableExists)) ==>
      printed == [ShowError(if !reachable then ConnectFailed else NoSuchTable)] && db.rows == old(db.rows)
    ensures reachable && old(db.tableExists) ==>
      var script := Join(dir, "build_and_push.sh");
      && printed == [Registered((dockerModel, model)),
                     Script(script, model, IsExecutable(host.fs.modes, script)),
                     ShowError(Raised(PushDone))]
      && db.rows == InsertOrIgnore(old(db.rows), (dockerModel, model))
  {
    var raised := db.CreateModel((dockerModel, model), reachable);
    if raised.Some? {
      return [ShowError(raised.value)];
    }
    printed := [Registered((dockerModel, model))];
    var saved := Utils.EnterDirectory(host, dir);
    assert saved.Ok?;
    var script := Join(host.cwd, "build_and_push.sh");
    printed := printed + [Script(script, model, IsExecutable(host.fs.modes, script))];
    Utils.LeaveDirectory(host, saved.value);
    printed := printed + [ShowError(Raised(PushDone))];
  }

  /** The local_test directory of a container. */
  function LocalTestDir(cwd: string, container: string): string
  {
    Join(Join(ModelsRoot(cwd), container), "local_test")
  }

  /** `trainlocal`: split the chosen "container:model" (outside the try, so a
      bad choice crashes), then inside local_test chmod the three local
      scripts, running train_local.sh after each chmod, and raise. */
  method TrainLocal(host: Host, image: string) returns (exit: Exit, printed: seq<Event>)
    modifies host`fs, host`cwd
    ensures host.cwd == old(host.cwd)
    ensures host.fs.entries == old(host.fs.entries)
    ensures var choice := Utils.SplitChoice(image);
      && (exit == if choice.Err? then Crashed(UnpackError) else Completed)
      && (choice.Err? ==> printed == [] && host.fs == old(host.fs))
      && (choice.Ok? ==>
            var dir := LocalTestDir(host.cwd, choice.value.0);
            && (dir !in old(host.fs.entries) ==> printed == [ShowError(OsError(dir))] && host.fs == old(host.fs))
            && (dir in old(host.fs.entries) ==>
                  var r := ChmodEach(old(host.fs.modes), dir, LocalScripts(), Some(("train_local.sh", choice.value.1)));
                  host.fs.modes == r.modes
                  && printed == r.ran + [ShowError(if r.failure.Some? then r.failure.value else Raised(TrainDone))]))
  {
    var choice := Utils.SplitChoice(image);
    if choice.Err? {
      return Crashed(UnpackError), [];
    }
    var (container, model) := choice.value;
    exit := Completed;
    var dir := LocalTestDir(host.cwd, container);
    var saved := Utils.EnterDirectory(host, dir);
    if saved.Err? {
      return exit, [ShowError(saved.failure)];
    }
    var ran, failure := ChmodLoop(host, LocalScripts(), Some(("train_local.sh", model)));
    Utils.LeaveDirectory(host, saved.value);
    printed := ran + [ShowError(if failure.Some? then failure.value else Raised(TrainDone))];
  }

  /** `servelocal`: run serve_local.sh with the chosen model inside local_test, and raise. */
  method ServeLocal(host: Host, image: string) returns (exit: Exit, printed: seq<Event>)
    modifies host`cwd
    ensures host.cwd == old(host.cwd)
    ensures var choice := Utils.SplitChoice(image);
      && (exit == if choice.Err? then Crashed(UnpackError) else Completed)
      && (choice.Err? ==> printed == [])
      && (choice.Ok? ==>
            var dir := LocalTestDir(host.cwd, choice.value.0);
            var script := Join(dir, "serve_local.sh");
            printed == if dir !in host.fs.entries then [ShowError(OsError(dir))]
                       else [Script(script, choice.value.1 + " > outlog.log", IsExecutable(host.fs.modes, script)),
                             ShowError(Raised(ServeDone))])
  {
    var choice := Utils.SplitChoice(image);
    if choice.Err? {
      return Crashed(UnpackError), [];
    }
    var (container, model) := choice.value;
    exit := Completed;
    var saved := Utils.EnterDirectory(host, LocalTestDir(host.cwd, container));
    if saved.Err? {
      return exit, [ShowError(saved.failure)];
    }
    var script := Join(host.cwd, "serve_local.sh");
    printed := [Script(script, model + " > outlog.log", IsExecutable(host.fs.modes, script))];
    Utils.LeaveDirectory(host, saved.value);
    printed := printed + [ShowError(Raised(ServeDone))];
  }

  /** `predictlocal PAYLOAD CONTENT_TYPE`: run predict.sh inside local_test, and raise. */
  method PredictLocal(host: Host, image: string, payload: string, contentType: string) returns (exit: Exit, printed: seq<Event>)
    modifies host`cwd
    ensures host.cwd == old(host.cwd)
    ensures var choice := Utils.SplitChoice(image);
      && (exit == if choice.Err? then Crashed(UnpackError) else Completed)
      && (choice.Err? ==> printed == [])
      && (choice.Ok? ==>
            var dir := LocalTestDir(host.cwd, choice.value.0);
            var script := Join(dir, "predict.sh");
            printed == if dir !in host.fs.entries then [ShowError(OsError(dir))]
                       else [Script(script, payload + " " + contentType, IsExecutable(host.fs.modes, script)),
                             ShowError(Raised(PredictDone))])
  {
    var choice := Utils.SplitChoice(image);
    if choice.Err? {
      return Crashed(UnpackError), [];
    }
    var container := choice.value.0;
    exit := Completed;
    var saved := Utils.EnterDirectory(host, LocalTestDir(host.cwd, container));
    if saved.Err? {
      return exit, [ShowError(saved.failure)];
    }
    var script := Join(host.cwd, "predict.sh");
    printed := [Script(script, payload + " " + contentType, IsExecutable(host.fs.modes, script))];
    Utils.LeaveDirectory(host, saved.value);
    printed := printed + [ShowError(Raised(PredictDone))];
  }

  /** `listdocker`: print the registry image names. */
  method ListDocker(reprs: seq<string>) returns (printed: seq<Event>)
    ensures |printed| == 1 && printed[0].ShowImages?
    ensures forall k :: 0 <= k < |printed[0].names| ==> Utils.IsRegistryImage(printed[0].names[k])
    ensures printed[0].names == Filter(Utils.IsRegistryImage, Utils.ExtractAll(reprs))
  {
    var images := Utils.ListDocker(reprs);
    printed := [ShowImages(images)];
  }

  /** `removemodel NAME --yes`: delete models/NAME and everything under it
      (all of models/ when NAME is empty). The registry is not touched, so a
      record for NAME stays behind. */
  method RemoveModel(host: Host, name: string, yes: bool) returns (exit: Exit, printed: seq<Event>)
    modifies host`fs
    ensures var path := Join(ModelsRoot(host.cwd), name);
      var (parent, victim) := RemovalTarget(host.cwd, name);
      && (exit == if yes then Completed else Aborted)
      && (!yes ==> printed == [] && host.fs == old(host.fs))
      && (yes && Join(parent, victim) !in old(host.fs.entries) ==> printed == [ShowError(OsError(path))] && host.fs == old(host.fs))
      && (yes && Join(parent, victim) in old(host.fs.entries) ==>
            printed == [Echo(name + " sucessfully removed.")]
            && host.fs == RemoveTree(old(host.fs), parent, victim)
            && Join(parent, victim) !in host.fs.entries)
  {
    if Utils.AbortIfFalse(yes) == Utils.Abort {
      return Aborted, [];
    }
    exit := Completed;
    var target := ModelsRoot(host.cwd);
    var path := Join(target, name);
    var (parent, victim) := RemovalTarget(host.cwd, name);
    if Join(parent, victim) !in host.fs.entries {
      printed := [ShowError(OsError(path))];
    } else {
      host.fs := RemoveTree(host.fs, parent, victim);
      printed := [Echo(name + " sucessfully removed.")];
    }
  }

  /** The directory `shutil.rmtree(<cwd>/models/<name>)` removes, as a parent
      directory and a name in it: an empty name leaves the path
      `<cwd>/models/`, which is the models directory itself. */
  function RemovalTarget(cwd: string, name: string): (t: (string, string))
    ensures name == "" ==> Join(t.0, t.1) == ModelsRoot(cwd)
    ensures name != "" ==> Join(t.0, t.1) == Join(ModelsRoot(cwd), name)
  {
    if name == "" then (cwd, "models") else (ModelsRoot(cwd), name)
  }

  /** `initdb`: make sure models/ exists, then create the registry table. */
  method InitDb(host: Host, db: ModelRegistry, reachable: bool) returns (exit: Exit, printed: seq<Event>)
    requires db.Valid()
    modifies host`fs, db
    ensures db.Valid()
    ensures exit == Completed
    ensures host.fs == MakeDirectory(old(host.fs), host.cwd, "models")
    ensures db.rows == old(db.rows) && db.tableExists == (old(db.tableExists) || reachable)
    ensures printed == [Echo(TableSetupMessage)] +
      (if reachable then [] else [ShowError(ConnectFailed), Echo(NoConnectionMessage)])
  {
    host.fs := MakeDirectory(host.fs, host.cwd, "models");
    var diagnostics := db.ModelTable(reachable);
    exit, printed := Completed, [Echo(TableSetupMessage)] + diagnostics;
  }
}
