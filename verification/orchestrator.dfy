/**
  `CreateProject` (internal/project/project.go): generate the project with
  `flutter create`, install the packages its types call for with
  `flutter pub add`, write the templates its types call for, and return to
  the starting directory. Every step that touches the outside world is an
  action whose success an oracle decides; the run is the trace of actions
  attempted, and it stops at the first failure.
 */
module Orchestrator {
  import opened Wrappers
  import opened Errors
  import opened Entities
  import opened Text
  import opened Placeholder
  import opened Tags
  import opened Catalog
  import opened Templates

  /**
    An effect on the outside world: a command, a change of directory, the
    closing return to the starting directory, or a file written (with its
    parent directories). The return is an action of its own: it is a later
    step than the first change into the same directory, and the directory
    may be gone by then.
   */
  datatype Action =
    | Run(args: seq<string>)
    | ChangeDir(dir: string)
    | ReturnDir(dir: string)
    | WriteFile(path: string, content: string)

  function CreateCommand(projectName: string): Action {
    Run(["flutter", "create", projectName])
  }

  function InstallCommand(p: Package): Action {
    Run(["flutter", "pub", "add", p.name])
  }

  /** `processTemplate`: the template's content with every placeholder replaced, written at its stored path. */
  function WriteCommand(t: Template, projectName: string): Action {
    WriteFile(t.path, Materialise(t.content, projectName))
  }

  /** The generated project's directory. */
  function ProjectPath(pwd: string, projectName: string): string {
    pwd + "/" + projectName
  }

  /** Every action of the trace succeeded. */
  predicate AllOk(trace: seq<Action>, ok: Action -> bool) {
    forall i :: 0 <= i < |trace| ==> ok(trace[i])
  }

  /** Every action but the last succeeded: nothing runs after a failure. */
  predicate StopsAtFailure(trace: seq<Action>, ok: Action -> bool) {
    forall i :: 0 <= i < |trace| - 1 ==> ok(trace[i])
  }

  /** A trace that stops at its first failed action and, when it ends without error, had no failed action. */
  predicate WellFormed(r: (seq<Action>, Option<Error>), ok: Action -> bool) {
    StopsAtFailure(r.0, ok) && (r.1.None? ==> AllOk(r.0, ok))
  }

  /** No file is written. */
  predicate NoWrites(trace: seq<Action>) {
    forall i :: 0 <= i < |trace| ==> !trace[i].WriteFile?
  }

  /** Runs `first`, and `second` only if `first` ended without error. */
  function Then(first: (seq<Action>, Option<Error>), second: (seq<Action>, Option<Error>)): (seq<Action>, Option<Error>) {
    if first.1.Some? then first else (first.0 + second.0, second.1)
  }

  /** Sequencing keeps a run well formed: nothing runs after a failure. */
  lemma ThenWellFormed(first: (seq<Action>, Option<Error>), second: (seq<Action>, Option<Error>), ok: Action -> bool)
    requires WellFormed(first, ok) && WellFormed(second, ok)
    ensures WellFormed(Then(first, second), ok)
  {
    if first.1.None? {
      var t := first.0 + second.0;
      assert forall i :: |first.0| <= i < |t| ==> t[i] == second.0[i - |first.0|];
    }
  }

  /** The listed name `n` is a ".json" template record whose types call for it. */
  predicate Wanted(n: string, files: map<string, StoredFile>, types: seq<string>) {
    HasSuffix(n, JsonSuffix) && n in files && files[n].Record? && TemplateWanted(files[n].template.types, types)
  }

  /** `a` is what materialising the listed file `n` writes. */
  predicate WritesTemplate(a: Action, n: string, files: map<string, StoredFile>, types: seq<string>, projectName: string) {
    Wanted(n, files, types) && a == WriteCommand(files[n].template, projectName)
  }

  /** The install loop: one `flutter pub add` per package, in order, up to the first failure. */
  function InstallAll(pkgs: seq<Package>, ok: Action -> bool): (seq<Action>, Option<Error>)
    decreases |pkgs|
  {
    if pkgs == [] then ([], None)
    else
      var a := InstallCommand(pkgs[0]);
      if !ok(a) then ([a], Some(InstallFailed(pkgs[0].name)))
      else Then(([a], None), InstallAll(pkgs[1..], ok))
  }

  /**
    The installs follow the package list one command per package, stop at
    the first failure, and report the package whose install failed.
   */
  lemma {:induction false} InstallAllShape(pkgs: seq<Package>, ok: Action -> bool)
    ensures var r := InstallAll(pkgs, ok);
            |r.0| <= |pkgs|
            && (forall i :: 0 <= i < |r.0| ==> r.0[i] == InstallCommand(pkgs[i]))
            && WellFormed(r, ok) && NoWrites(r.0)
            && (r.1.None? ==> |r.0| == |pkgs|)
            && (r.1.Some? ==> r.0 != [] && !ok(r.0[|r.0| - 1]) && r.1 == Some(InstallFailed(pkgs[|r.0| - 1].name)))
    decreases |pkgs|
  {
    if pkgs != [] && ok(InstallCommand(pkgs[0])) {
      InstallAllShape(pkgs[1..], ok);
      var a := InstallCommand(pkgs[0]);
      var rest := InstallAll(pkgs[1..], ok).0;
      assert forall i :: 1 <= i < |[a] + rest| ==> ([a] + rest)[i] == rest[i - 1];
    }
  }

  /**
    The template loop over the directory listing: names not ending in
    ".json" are skipped, an undecodable file is an error, a template whose
    types do not call for it is skipped, and every other one is written.
   */
  function MaterialiseAll(names: seq<string>, files: map<string, StoredFile>, types: seq<string>, projectName: string, ok: Action -> bool)
    : (seq<Action>, Option<Error>)
    decreases |names|
  {
    if names == [] then ([], None)
    else
      var n := names[0];
      if !HasSuffix(n, JsonSuffix) then MaterialiseAll(names[1..], files, types, projectName, ok)
      else if n !in files || files[n].Garbled? then ([], Some(TemplateUnreadable(n)))
      else if !TemplateWanted(files[n].template.types, types) then MaterialiseAll(names[1..], files, types, projectName, ok)
      else
        var w := WriteCommand(files[n].template, projectName);
        if !ok(w) then ([w], Some(WriteFailed(w.path)))
        else Then(([w], None), MaterialiseAll(names[1..], files, types, projectName, ok))
  }

  /**
    The template loop stops at its first failure: a failed write is its last
    action, and an undecodable template ends it after successful writes only.
   */
  lemma {:induction false} MaterialiseWellFormed(names: seq<string>, files: map<string, StoredFile>, types: seq<string>, projectName: string, ok: Action -> bool)
    ensures var r := MaterialiseAll(names, files, types, projectName, ok);
            WellFormed(r, ok)
            && (r.1.Some? ==>
                  (r.0 != [] && !ok(r.0[|r.0| - 1]) && r.0[|r.0| - 1].WriteFile? && r.1 == Some(WriteFailed(r.0[|r.0| - 1].path)))
                  || (AllOk(r.0, ok) && exists n :: n in names && r.1 == Some(TemplateUnreadable(n))))
    decreases |names|
  {
    if names != [] {
      var n := names[0];
      MaterialiseWellFormed(names[1..], files, types, projectName, ok);
      assert forall m :: m in names[1..] ==> m in names;
      if HasSuffix(n, JsonSuffix) && n in files && files[n].Record? && TemplateWanted(files[n].template.types, types) {
        var w := WriteCommand(files[n].template, projectName);
        if ok(w) {
          var rest := MaterialiseAll(names[1..], files, types, projectName, ok).0;
          assert forall i :: 1 <= i < |[w] + rest| ==> ([w] + rest)[i] == rest[i - 1];
        }
      }
    }
  }

  /** Every file the template loop writes is a listed ".json" template whose types call for it. */
  lemma {:induction false} MaterialiseWritesWanted(names: seq<string>, files: map<string, StoredFile>, types: seq<string>, projectName: string, ok: Action -> bool)
    ensures forall a :: a in MaterialiseAll(names, files, types, projectName, ok).0 ==>
              exists n :: n in names && WritesTemplate(a, n, files, types, projectName)
    decreases |names|
  {
    if names != [] {
      var n := names[0];
      var rest := MaterialiseAll(names[1..], files, types, projectName, ok).0;
      MaterialiseWritesWanted(names[1..], files, types, projectName, ok);
      forall a | a in rest ensures exists m :: m in names && WritesTemplate(a, m, files, types, projectName) {
        var m :| m in names[1..] && WritesTemplate(a, m, files, types, projectName);
        assert m in names;
      }
      if Wanted(n, files, types) {
        assert WritesTemplate(WriteCommand(files[n].template, projectName), n, files, types, projectName);
      }
    }
  }

  /** A template loop that ends without error decoded every ".json" name and wrote every wanted template. */
  lemma {:induction false} MaterialiseComplete(names: seq<string>, files: map<string, StoredFile>, types: seq<string>, projectName: string, ok: Action -> bool)
    ensures var r := MaterialiseAll(names, files, types, projectName, ok);
            r.1.None? ==>
              (forall n :: (n in names && HasSuffix(n, JsonSuffix)) ==> n in files && files[n].Record?)
              && (forall n :: (n in names && Wanted(n, files, types)) ==> WriteCommand(files[n].template, projectName) in r.0)
    decreases |names|
  {
    if names != [] {
      MaterialiseComplete(names[1..], files, types, projectName, ok);
      assert names == [names[0]] + names[1..];
    }
  }

  /** The three steps before any package: enter the starting directory, generate, enter the project. */
  function Launch(pwd: string, projectName: string, ok: Action -> bool): (seq<Action>, Option<Error>)
  {
    var enter := ChangeDir(pwd);
    var create := CreateCommand(projectName);
    var enterProject := ChangeDir(ProjectPath(pwd, projectName));
    if !ok(enter) then ([enter], Some(ChangeDirFailed(pwd)))
    else if !ok(create) then ([enter, create], Some(GenerationFailed(projectName)))
    else if !ok(enterProject) then ([enter, create, enterProject], Some(ChangeDirFailed(ProjectPath(pwd, projectName))))
    else ([enter, create, enterProject], None)
  }

  /** The last step: return to the starting directory. */
  function Leave(pwd: string, ok: Action -> bool): (seq<Action>, Option<Error>)
  {
    ([ReturnDir(pwd)], if ok(ReturnDir(pwd)) then None else Some(ChangeDirFailed(pwd)))
  }

  /** Templates are written only if the directory can be listed; then the run returns home. */
  function TemplatePhase(pwd: string, projectName: string, types: seq<string>,
                         present: bool, files: map<string, StoredFile>, order: seq<string>,
                         ok: Action -> bool): (seq<Action>, Option<Error>)
  {
    if !present then ([], Some(TemplateDirUnreadable))
    else Then(MaterialiseAll(order, files, types, projectName, ok), Leave(pwd, ok))
  }

  /** Packages are installed only if the catalog could be read. */
  function PackagePhase(pwd: string, projectName: string, types: seq<string>,
                        packages: Result<seq<Package>, Error>,
                        present: bool, files: map<string, StoredFile>, order: seq<string>,
                        ok: Action -> bool): (seq<Action>, Option<Error>)
  {
    if packages.Err? then ([], Some(packages.error))
    else Then(InstallAll(FilterPackages(packages.value, types), ok),
              TemplatePhase(pwd, projectName, types, present, files, order, ok))
  }

  /**
    The whole run: the trace of actions attempted and the error it ended
    with. `packages` is what `GetPackages` returned; `present`, `files` and
    `order` describe the templates directory and its listing.
   */
  function CreateProjectRun(pwd: string, projectName: string, types: seq<string>,
                            packages: Result<seq<Package>, Error>,
                            present: bool, files: map<string, StoredFile>, order: seq<string>,
                            ok: Action -> bool): (seq<Action>, Option<Error>)
  {
    if pwd == [] then ([], Some(NoWorkingDirectory))
    else Then(Launch(pwd, projectName, ok), PackagePhase(pwd, projectName, types, packages, present, files, order, ok))
  }

  /** Sequencing keeps the actions of both parts, in order, and writes only what they write. */
  lemma ThenTrace(first: (seq<Action>, Option<Error>), second: (seq<Action>, Option<Error>))
    ensures var t := Then(first, second).0;
            |t| >= |first.0| && t[..|first.0|] == first.0
            && (first.1.None? ==> t == first.0 + second.0)
            && (first.1.Some? ==> t == first.0)
            && (forall a :: a in t ==> a in first.0 || a in second.0)
  {
    if first.1.None? {
      assert (first.0 + second.0)[..|first.0|] == first.0;
    }
  }

  lemma LaunchShape(pwd: string, projectName: string, ok: Action -> bool)
    ensures var r := Launch(pwd, projectName, ok);
            WellFormed(r, ok) && NoWrites(r.0) && 1 <= |r.0| <= 3
            && r.0 == [ChangeDir(pwd), CreateCommand(projectName), ChangeDir(ProjectPath(pwd, projectName))][..|r.0|]
            && (r.1.None? <==> |r.0| == 3 && ok(r.0[2]))
            && (ok(ChangeDir(pwd)) && !ok(CreateCommand(projectName)) ==> r == ([ChangeDir(pwd), CreateCommand(projectName)], Some(GenerationFailed(projectName))))
  {
  }

  lemma LeaveShape(pwd: string, ok: Action -> bool)
    ensures var r := Leave(pwd, ok); WellFormed(r, ok) && NoWrites(r.0) && r.0 == [ReturnDir(pwd)]
  {
  }

  /** The template phase stops at its first failure, and when it succeeds it ends back in the starting directory. */
  lemma TemplatePhaseWellFormed(pwd: string, projectName: string, types: seq<string>,
                                present: bool, files: map<string, StoredFile>, order: seq<string>, ok: Action -> bool)
    ensures var r := TemplatePhase(pwd, projectName, types, present, files, order, ok);
            WellFormed(r, ok) && (r.1.None? ==> r.0 != [] && r.0[|r.0| - 1] == ReturnDir(pwd))
  {
    if present {
      MaterialiseWellFormed(order, files, types, projectName, ok);
      LeaveShape(pwd, ok);
      ThenWellFormed(MaterialiseAll(order, files, types, projectName, ok), Leave(pwd, ok), ok);
    }
  }

  /**
    A run never continues past a failed action, and a run that ends without
    error had every action succeed and ends back in the starting directory.
   */
  lemma RunStopsAtFailure(pwd: string, projectName: string, types: seq<string>, packages: Result<seq<Package>, Error>,
                          present: bool, files: map<string, StoredFile>, order: seq<string>, ok: Action -> bool)
    ensures var r := CreateProjectRun(pwd, projectName, types, packages, present, files, order, ok);
            WellFormed(r, ok) && (r.1.None? ==> r.0 != [] && r.0[|r.0| - 1] == ReturnDir(pwd))
  {
    if pwd != [] {
      LaunchShape(pwd, projectName, ok);
      if packages.Ok? {
        var pkgs := FilterPackages(packages.value, types);
        InstallAllShape(pkgs, ok);
        TemplatePhaseWellFormed(pwd, projectName, types, present, files, order, ok);
        var tp := TemplatePhase(pwd, projectName, types, present, files, order, ok);
        ThenWellFormed(InstallAll(pkgs, ok), tp, ok);
        ThenTrace(InstallAll(pkgs, ok), tp);
      }
      var pp := PackagePhase(pwd, projectName, types, packages, present, files, order, ok);
      ThenWellFormed(Launch(pwd, projectName, ok), pp, ok);
      ThenTrace(Launch(pwd, projectName, ok), pp);
    }
  }

  /**
    The generator runs right after entering the starting directory, before
    anything else; if it fails, nothing more is attempted.
   */
  lemma GenerateFirst(pwd: string, projectName: string, types: seq<string>, packages: Result<seq<Package>, Error>,
                      present: bool, files: map<string, StoredFile>, order: seq<string>, ok: Action -> bool)
    requires pwd != [] && ok(ChangeDir(pwd))
    ensures var r := CreateProjectRun(pwd, projectName, types, packages, present, files, order, ok);
            |r.0| >= 2 && r.0[..2] == [ChangeDir(pwd), CreateCommand(projectName)]
            && (!ok(CreateCommand(projectName)) ==> r == ([ChangeDir(pwd), CreateCommand(projectName)], Some(GenerationFailed(projectName))))
  {
    LaunchShape(pwd, projectName, ok);
    var pp := PackagePhase(pwd, projectName, types, packages, present, files, order, ok);
    ThenTrace(Launch(pwd, projectName, ok), pp);
    var t := CreateProjectRun(pwd, projectName, types, packages, present, files, order, ok).0;
    assert t[..2] == t[..|Launch(pwd, projectName, ok).0|][..2];
  }

  /**
    After a successful launch, the installs follow in the order of the
    filtered catalog, one per package, up to the first failure; when an
    install fails, it is the last action and no file is written.
   */
  lemma InstallsFollowFilter(pwd: string, projectName: string, types: seq<string>, pkgs: seq<Package>,
                             present: bool, files: map<string, StoredFile>, order: seq<string>, ok: Action -> bool)
    requires pwd != [] && ok(ChangeDir(pwd)) && ok(CreateCommand(projectName)) && ok(ChangeDir(ProjectPath(pwd, projectName)))
    ensures var r := CreateProjectRun(pwd, projectName, types, Ok(pkgs), present, files, order, ok);
            var filtered := FilterPackages(pkgs, types);
            var n := |InstallAll(filtered, ok).0|;
            |r.0| >= 3 + n
            && n <= |filtered|
            && (forall i :: 3 <= i < 3 + n && i - 3 < |filtered| ==> r.0[i] == InstallCommand(filtered[i - 3]))
            && (r.1.Some? && r.1.value.InstallFailed? ==> |r.0| == 3 + n && NoWrites(r.0) && !ok(r.0[|r.0| - 1]))
  {
    var filtered := FilterPackages(pkgs, types);
    LaunchShape(pwd, projectName, ok);
    InstallAllShape(filtered, ok);
    var ins := InstallAll(filtered, ok);
    var tp := TemplatePhase(pwd, projectName, types, present, files, order, ok);
    ThenTrace(ins, tp);
    var pp := PackagePhase(pwd, projectName, types, Ok(pkgs), present, files, order, ok);
    ThenTrace(Launch(pwd, projectName, ok), pp);
    var launch := Launch(pwd, projectName, ok).0;
    var t := CreateProjectRun(pwd, projectName, types, Ok(pkgs), present, files, order, ok).0;
    assert t == launch + pp.0;
    assert forall i :: 3 <= i < 3 + |ins.0| ==> t[i] == ins.0[i - 3];
    if ins.1.None? && present {
      var ms := MaterialiseAll(order, files, types, projectName, ok);
      ThenTrace(ms, Leave(pwd, ok));
      MaterialiseWritesWanted(order, files, types, projectName, ok);
      MaterialiseWellFormed(order, files, types, projectName, ok);
      if ms.1.Some? {
        assert ms.1.value.WriteFailed? || ms.1.value.TemplateUnreadable?;
      }
    }
  }

  /**
    Every file written is a listed ".json" template whose types call for it,
    written at its stored path with the placeholder replaced by the project
    name; a run that ends without error writes every such template.
   */
  lemma WritesAreMaterialisedTemplates(pwd: string, projectName: string, types: seq<string>, packages: Result<seq<Package>, Error>,
                                       present: bool, files: map<string, StoredFile>, order: seq<string>, ok: Action -> bool)
    ensures var r := CreateProjectRun(pwd, projectName, types, packages, present, files, order, ok);
            (forall a :: a in r.0 && a.WriteFile? ==> exists n :: n in order && WritesTemplate(a, n, files, types, projectName))
            && (r.1.None? ==> forall n :: (n in order && Wanted(n, files, types)) ==> WriteCommand(files[n].template, projectName) in r.0)
  {
    if pwd != [] {
      LaunchShape(pwd, projectName, ok);
      var pp := PackagePhase(pwd, projectName, types, packages, present, files, order, ok);
      ThenTrace(Launch(pwd, projectName, ok), pp);
      if packages.Ok? {
        var pkgs := FilterPackages(packages.value, types);
        InstallAllShape(pkgs, ok);
        var tp := TemplatePhase(pwd, projectName, types, present, files, order, ok);
        ThenTrace(InstallAll(pkgs, ok), tp);
        if present {
          var ms := MaterialiseAll(order, files, types, projectName, ok);
          ThenTrace(ms, Leave(pwd, ok));
          MaterialiseWritesWanted(order, files, types, projectName, ok);
          MaterialiseComplete(order, files, types, projectName, ok);
        }
      }
    }
  }

  /**
    The return to the starting directory can fail after everything else
    succeeded: the run then reports that it could not go back.
   */
  lemma ReturnCanFail(pwd: string, projectName: string, types: seq<string>, ok: Action -> bool)
    requires pwd != [] && ok(ChangeDir(pwd)) && ok(CreateCommand(projectName))
    requires ok(ChangeDir(ProjectPath(pwd, projectName))) && !ok(ReturnDir(pwd))
    ensures CreateProjectRun(pwd, projectName, types, Ok([]), true, map[], [], ok)
            == ([ChangeDir(pwd), CreateCommand(projectName), ChangeDir(ProjectPath(pwd, projectName)), ReturnDir(pwd)],
                Some(ChangeDirFailed(pwd)))
  {
    assert FilterPackages([], types) == [];
    assert InstallAll([], ok) == ([], None);
    var leave := Leave(pwd, ok);
    assert leave == ([ReturnDir(pwd)], Some(ChangeDirFailed(pwd)));
    assert MaterialiseAll([], map[], types, projectName, ok) == ([], None);
    var none: seq<Action> := [];
    assert none + leave.0 == leave.0;
    assert TemplatePhase(pwd, projectName, types, true, map[], [], ok) == leave;
    assert Launch(pwd, projectName, ok)
           == ([ChangeDir(pwd), CreateCommand(projectName), ChangeDir(ProjectPath(pwd, projectName))], None);
    assert PackagePhase(pwd, projectName, types, Ok([]), true, map[], [], ok) == leave;
    var launch := Launch(pwd, projectName, ok);
    assert Then(launch, leave) == (launch.0 + [ReturnDir(pwd)], Some(ChangeDirFailed(pwd)));
    assert launch.0 + [ReturnDir(pwd)]
           == [ChangeDir(pwd), CreateCommand(projectName), ChangeDir(ProjectPath(pwd, projectName)), ReturnDir(pwd)];
    assert CreateProjectRun(pwd, projectName, types, Ok([]), true, map[], [], ok) == Then(launch, leave);
  }

  /**
    `CreateProject`, step by step with early returns. The templates are read
    from `store`, whose listing is `order`; the packages from `catalog`.
   */
  method CreateProject(pwd: string, projectName: string, types: seq<string>,
                       catalog: CatalogStore, store: TemplateStore, order: seq<string>,
                       ok: Action -> bool)
    returns (trace: seq<Action>, err: Option<Error>)
    requires store.present ==> store.IsListing(order)
    ensures (trace, err) == CreateProjectRun(pwd, projectName, types, catalog.PackageList(),
                                             store.present, store.files, order, ok)
  {
    if pwd == [] {
      return [], Some(NoWorkingDirectory);
    }
    if !ok(ChangeDir(pwd)) {
      return [ChangeDir(pwd)], Some(ChangeDirFailed(pwd));
    }
    if !ok(CreateCommand(projectName)) {
      return [ChangeDir(pwd), CreateCommand(projectName)], Some(GenerationFailed(projectName));
    }
    var projectPath := ProjectPath(pwd, projectName);
    var launch := [ChangeDir(pwd), CreateCommand(projectName), ChangeDir(projectPath)];
    if !ok(ChangeDir(projectPath)) {
      return launch, Some(ChangeDirFailed(projectPath));
    }
    var allPackages := catalog.GetPackages();
    assert Launch(pwd, projectName, ok) == (launch, None);
    if allPackages.Err? {
      assert launch + [] == launch;
      return launch, Some(allPackages.error);
    }
    var filtered := SelectPackages(allPackages.value, types);

    var installs, installErr := InstallLoop(filtered, ok);
    assert PackagePhase(pwd, projectName, types, allPackages, store.present, store.files, order, ok)
        == Then((installs, installErr), TemplatePhase(pwd, projectName, types, store.present, store.files, order, ok));
    if installErr.Some? {
      return launch + installs, installErr;
    }
    if !store.present {
      assert installs + [] == installs;
      return launch + installs, Some(TemplateDirUnreadable);
    }
    var writes, writeErr := TemplateLoop(order, store.files, types, projectName, ok);
    if writeErr.Some? {
      assert launch + (installs + writes) == launch + installs + writes;
      return launch + installs + writes, writeErr;
    }
    assert launch + (installs + (writes + [ReturnDir(pwd)])) == launch + installs + writes + [ReturnDir(pwd)];
    trace := launch + installs + writes + [ReturnDir(pwd)];
    if !ok(ReturnDir(pwd)) {
      return trace, Some(ChangeDirFailed(pwd));
    }
    return trace, None;
  }

  /** The install loop of `CreateProject`. */
  method InstallLoop(filtered: seq<Package>, ok: Action -> bool) returns (installs: seq<Action>, err: Option<Error>)
    ensures (installs, err) == InstallAll(filtered, ok)
  {
    installs := [];
    assert filtered[0..] == filtered;
    assert InstallAll(filtered, ok).0 == installs + InstallAll(filtered, ok).0;
    for i := 0 to |filtered|
      invariant InstallAll(filtered, ok).0 == installs + InstallAll(filtered[i..], ok).0
      invariant InstallAll(filtered, ok).1 == InstallAll(filtered[i..], ok).1
    {
      assert filtered[i..][1..] == filtered[i + 1..];
      var install := InstallCommand(filtered[i]);
      installs := installs + [install];
      if !ok(install) {
        return installs, Some(InstallFailed(filtered[i].name));
      }
    }
    assert filtered[|filtered|..] == [];
    assert installs + [] == installs;
    return installs, None;
  }

  /** The template loop of `CreateProject`, over the listing of the templates directory. */
  method TemplateLoop(order: seq<string>, files: map<string, StoredFile>, types: seq<string>, projectName: string, ok: Action -> bool)
    returns (writes: seq<Action>, err: Option<Error>)
    ensures (writes, err) == MaterialiseAll(order, files, types, projectName, ok)
  {
    writes := [];
    assert order[0..] == order;
    assert MaterialiseAll(order, files, types, projectName, ok).0 == writes + MaterialiseAll(order, files, types, projectName, ok).0;
    for i := 0 to |order|
      invariant MaterialiseAll(order, files, types, projectName, ok).0 == writes + MaterialiseAll(order[i..], files, types, projectName, ok).0
      invariant MaterialiseAll(order, files, types, projectName, ok).1 == MaterialiseAll(order[i..], files, types, projectName, ok).1
    {
      assert order[i..][1..] == order[i + 1..];
      var n := order[i];
      if HasSuffix(n, JsonSuffix) {
        if n !in files || files[n].Garbled? {
          assert writes + [] == writes;
          return writes, Some(TemplateUnreadable(n));
        }
        var t := files[n].template;
        var process := ShouldProcess(t.types, types);
        if process {
          var write := WriteCommand(t, projectName);
          writes := writes + [write];
          if !ok(write) {
            return writes, Some(WriteFailed(t.path));
          }
        }
      }
    }
    assert order[|order|..] == [];
    assert writes + [] == writes;
    return writes, None;
  }
}
