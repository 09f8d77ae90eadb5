/**
  The command line (cmd/flutter_assist/main.go): an if-chain over the flags
  picks exactly one mode; the template, package and project modes first ask
  for project types and stop when none is chosen.
 */
module Cli {
  import opened Wrappers
  import opened Errors
  import opened Entities
  import opened Text
  import opened Named
  import opened Catalog
  import opened Templates
  import opened Orchestrator
  import opened Selector

  /** The parsed command line: the `-t` path, the boolean flags, and the positional arguments. */
  datatype Flags = Flags(template: string, templateFor: bool, package: bool,
                         templateDelete: bool, templateForDelete: bool, packageDelete: bool,
                         args: seq<string>)

  datatype Mode =
    | TemplateDelete | TemplateForDelete | PackageDelete | TemplateForAdd
    | TemplateCreate | PackageAdd | ProjectCreate | Usage

  /** How a run ends; the messages themselves are not modelled. */
  datatype Outcome =
    | Done
    | NothingToDelete
    | MissingName
    | NoTypesSelected
    | Failed(error: Error)
    | ShowUsage

  /** What the user and the machine supply during a run. */
  datatype Session = Session(
    menuAnswer: string,         // the line typed at a delete menu
    typesAnswer: string,        // the line typed at the type menu
    projectNameAnswer: string,  // the word typed at the template command's project-name prompt
    target: CaptureTarget,      // what is found at the `-t` path
    pwd: string,                // the PWD environment variable
    ok: Action -> bool)         // which outside actions of project creation succeed

  /** The flag if-chain. */
  function Dispatch(f: Flags): Mode {
    if f.templateDelete then TemplateDelete
    else if f.templateForDelete then TemplateForDelete
    else if f.packageDelete then PackageDelete
    else if f.templateFor then TemplateForAdd
    else if f.template != "" then TemplateCreate
    else if f.package then PackageAdd
    else if |f.args| > 0 then ProjectCreate
    else Usage
  }

  /** The place of each mode in the chain. */
  function Rank(m: Mode): nat {
    match m
    case TemplateDelete => 0
    case TemplateForDelete => 1
    case PackageDelete => 2
    case TemplateForAdd => 3
    case TemplateCreate => 4
    case PackageAdd => 5
    case ProjectCreate => 6
    case Usage => 7
  }

  /** The command line asks for mode `m`; usage text is always a fallback. */
  predicate Requested(f: Flags, m: Mode) {
    match m
    case TemplateDelete => f.templateDelete
    case TemplateForDelete => f.templateForDelete
    case PackageDelete => f.packageDelete
    case TemplateForAdd => f.templateFor
    case TemplateCreate => f.template != ""
    case PackageAdd => f.package
    case ProjectCreate => |f.args| > 0
    case Usage => true
  }

  /** Exactly one mode runs: the requested one that comes first in the chain. */
  lemma DispatchPicksFirstRequested(f: Flags)
    ensures Requested(f, Dispatch(f))
    ensures forall m :: Requested(f, m) ==> Rank(Dispatch(f)) <= Rank(m)
    ensures forall m :: Rank(m) == Rank(Dispatch(f)) ==> m == Dispatch(f)
  {
  }

  /** The type menu is shown when a template path, the package flag or a positional argument is given. */
  predicate NeedsTypes(f: Flags) {
    f.template != "" || f.package || |f.args| > 0
  }

  /** Past the first four modes, the type menu is shown exactly for the template, package and project modes. */
  lemma TypesAskedForThreeModes(f: Flags)
    requires Rank(Dispatch(f)) >= 4
    ensures NeedsTypes(f) <==> Dispatch(f) in {TemplateCreate, PackageAdd, ProjectCreate}
  {
  }

  /** How a mode reports an error: none is success, one ends the run as a failure. */
  function Reported(err: Option<Error>): Outcome {
    if err.Some? then Failed(err.value) else Done
  }

  /**
    The effect of the template-delete mode on the templates directory, from
    `before` to `after`: an empty listing is nothing to delete; otherwise
    exactly the chosen template files are removed.
   */
  ghost predicate TemplatesDeleted(present: bool, order: seq<string>, answer: string,
                                   before: map<string, StoredFile>, after: map<string, StoredFile>, outcome: Outcome)
  {
    (!present ==> outcome == Failed(TemplateDirUnreadable) && after == before)
    && (present && JsonNames(order) == [] ==> outcome == NothingToDelete && after == before)
    && (present && JsonNames(order) != [] ==>
          outcome == Done && after == before - ChosenBy(Fields(answer), JsonNames(order)))
  }

  /**
    A single-choice delete by name: every entry named like some chosen
    entry is deleted, or every entry named "" when nothing valid was typed.
   */
  ghost predicate DeletedOneChosen<T(!new)>(items: seq<T>, nameOf: T -> string, answer: string, after: seq<T>) {
    (ChosenBy(Fields(answer), items) == {} ==> after == Without(items, nameOf, {""}))
    && (ChosenBy(Fields(answer), items) != {} ==>
          exists x :: x in ChosenBy(Fields(answer), items) && after == Without(items, nameOf, {nameOf(x)}))
  }

  /** The effect of the "template for" delete mode on template_for.json. */
  ghost predicate TemplateForDeleted(before: TemplateForFile, after: TemplateForFile, answer: string, outcome: Outcome) {
    var types := ReadTemplateFor(before);
    (types.Err? ==> outcome == Failed(types.error) && after == before)
    && (types == Ok([]) ==> outcome == NothingToDelete && after == before)
    && (types.Ok? && types.value != [] ==>
          outcome == Done && ReadTemplateFor(after).Ok?
          && DeletedOneChosen(types.value, TypeName, answer, ReadTemplateFor(after).value))
  }

  /** The effect of the package delete mode on packages.json. */
  ghost predicate PackagesDeleted(before: PackagesFile, after: PackagesFile, answer: string, outcome: Outcome) {
    var packages := ReadPackages(before);
    (packages.Err? ==> outcome == Failed(packages.error) && after == before)
    && (packages == Ok([]) ==> outcome == NothingToDelete && after == before)
    && (packages.Ok? && packages.value != [] ==>
          outcome == Done && after.PackageArray?
          && DeletedOneChosen(packages.value, PackageName, answer, after.entries))
  }

  /**
    The effect of the "template for" add mode: without a name nothing
    happens; otherwise it succeeds exactly when the name is new, and then
    the entry is appended.
   */
  ghost predicate TemplateForAdded(before: TemplateForFile, after: TemplateForFile, args: seq<string>, outcome: Outcome) {
    var types := ReadTemplateFor(before);
    (args == [] ==> outcome == MissingName)
    && (args != [] ==>
          (outcome == Done <==> types.Ok? && !HasName(types.value, TypeName, args[0]))
          && (outcome == Done ==> types.Ok? && ReadTemplateFor(after) == Ok(types.value + [TemplateType(args[0], DescriptionFor(args[0]))])))
    && (outcome != Done ==> after == before)
  }

  /**
    The effect of the package add mode: without a name nothing happens;
    otherwise it succeeds exactly when the name is new, and then the package
    is appended with the chosen types.
   */
  ghost predicate PackageAdded(before: PackagesFile, after: PackagesFile, args: seq<string>, types: seq<string>, outcome: Outcome) {
    var packages := ReadPackages(before);
    (args == [] ==> outcome == MissingName)
    && (args != [] ==>
          (outcome == Done <==> packages.Ok? && !HasName(packages.value, PackageName, args[0]))
          && (outcome == Done ==> packages.Ok? && ReadPackages(after) == Ok(packages.value + [Package(args[0], types)])))
    && (outcome != Done ==> after == before)
  }

  /** The template-delete mode: a menu of the stored templates; the chosen files are removed. */
  method DeleteTemplatesMode(store: TemplateStore, order: seq<string>, answer: string) returns (outcome: Outcome)
    requires store.Valid()
    requires store.present ==> store.IsListing(order)
    modifies store
    ensures store.present == old(store.present) && store.Valid()
    ensures TemplatesDeleted(store.present, order, answer, old(store.files), store.files, outcome)
  {
    var templates := store.GetTemplates(order);
    if templates.Err? {
      return Failed(templates.error);
    }
    if |templates.value| == 0 {
      return NothingToDelete;
    }
    var selected := ParseSelection(templates.value, answer);
    ChosenAreItems(Fields(answer), templates.value);
    ghost var all := selected;
    var toDelete: seq<string> := [];
    while selected != {}
      invariant selected <= all
      invariant forall t :: t in toDelete <==> t in all && t !in selected
      invariant forall i, j :: 0 <= i < j < |toDelete| ==> toDelete[i] != toDelete[j]
      decreases |selected|
    {
      var t :| t in selected;
      toDelete := toDelete + [t];
      selected := selected - {t};
    }
    RemoveDistinctPresent(store.files, toDelete);
    assert (set n | n in toDelete) == all;
    var err := store.DeleteTemplates(toDelete);
    return Done;
  }

  /**
    The "template for" delete mode: a menu of the entries; every entry named
    like one chosen entry is deleted, or every entry named "" when nothing
    valid was typed.
   */
  method DeleteTemplateForMode(catalog: CatalogStore, answer: string) returns (outcome: Outcome)
    modifies catalog
    ensures catalog.packages == old(catalog.packages)
    ensures TemplateForDeleted(old(catalog.templateFor), catalog.templateFor, answer, outcome)
  {
    var templateFors := catalog.GetTemplateFors();
    if templateFors.Err? {
      return Failed(templateFors.error);
    }
    if |templateFors.value| == 0 {
      return NothingToDelete;
    }
    var selected := SelectFromTemplateTypes(templateFors.value, answer);
    var err := catalog.DeleteTemplateFor(selected);
    if err.Some? {
      // the catalog was just read, so it cannot be unreadable now
      assert false;
    }
    return Done;
  }

  /**
    The package delete mode: a menu of the packages; every package named
    like one chosen package is deleted, or every package named "" when
    nothing valid was typed.
   */
  method DeletePackageMode(catalog: CatalogStore, answer: string) returns (outcome: Outcome)
    modifies catalog
    ensures catalog.templateFor == old(catalog.templateFor)
    ensures PackagesDeleted(old(catalog.packages), catalog.packages, answer, outcome)
  {
    var packages := catalog.GetPackages();
    if packages.Err? {
      return Failed(packages.error);
    }
    if |packages.value| == 0 {
      return NothingToDelete;
    }
    var selected := SelectFromPackages(packages.value, answer);
    var err := catalog.DeletePackage(selected);
    if err.Some? {
      // the catalog was just read, so it cannot be unreadable now
      assert false;
    }
    return Done;
  }

  /** The "template for" add mode: the first positional argument is the new entry's name. */
  method AddTemplateForMode(catalog: CatalogStore, args: seq<string>) returns (outcome: Outcome)
    modifies catalog
    ensures catalog.packages == old(catalog.packages)
    ensures TemplateForAdded(old(catalog.templateFor), catalog.templateFor, args, outcome)
  {
    if |args| == 0 {
      return MissingName;
    }
    var err := catalog.AddTemplateFor(args[0]);
    if err.Some? {
      return Failed(err.value);
    }
    return Done;
  }

  /**
    The package add mode: adds the package under the chosen types, then
    re-reads the catalog and looks the name up. The look-up always finds
    it, so the "package could not be added" report never happens.
   */
  method AddPackageMode(catalog: CatalogStore, args: seq<string>, selectedTypes: seq<string>) returns (outcome: Outcome)
    modifies catalog
    ensures catalog.templateFor == old(catalog.templateFor)
    ensures PackageAdded(old(catalog.packages), catalog.packages, args, selectedTypes, outcome)
  {
    if |args| == 0 {
      return MissingName;
    }
    var packageName := args[0];
    var err := catalog.AddPackage(packageName, selectedTypes);
    if err.Some? {
      return Failed(err.value);
    }
    var packages := catalog.GetPackages();
    var found := FindName(packages.value, PackageName, packageName);
    if !found {
      assert false;
    }
    return Done;
  }

  /** Whether the type menu yields at least one type. */
  function TypesChosen(types: Result<seq<TemplateType>, Error>, answer: string): bool {
    types.Ok? && ChosenBy(Fields(answer), types.value) != {}
  }

  /**
    One run of the tool: the mode `Dispatch` picks is the one that runs, and
    it changes only the file it works on. `actions` are the outside actions
    of project creation, in order.
   */
  method Run(f: Flags, catalog: CatalogStore, store: TemplateStore, order: seq<string>, session: Session)
    returns (outcome: Outcome, actions: seq<Action>)
    requires store.Valid()
    requires store.present ==> store.IsListing(order)
    modifies catalog, store
    ensures store.Valid()
    ensures Dispatch(f) != ProjectCreate ==> actions == []
    ensures Dispatch(f) == TemplateDelete ==>
              unchanged(catalog) && store.present == old(store.present)
              && TemplatesDeleted(store.present, order, session.menuAnswer, old(store.files), store.files, outcome)
    ensures Dispatch(f) == TemplateForDelete ==>
              unchanged(store) && catalog.packages == old(catalog.packages)
              && TemplateForDeleted(old(catalog.templateFor), catalog.templateFor, session.menuAnswer, outcome)
    ensures Dispatch(f) == PackageDelete ==>
              unchanged(store) && catalog.templateFor == old(catalog.templateFor)
              && PackagesDeleted(old(catalog.packages), catalog.packages, session.menuAnswer, outcome)
    ensures Dispatch(f) == TemplateForAdd ==>
              unchanged(store) && catalog.packages == old(catalog.packages)
              && TemplateForAdded(old(catalog.templateFor), catalog.templateFor, f.args, outcome)
    ensures NeedsTypes(f) && Rank(Dispatch(f)) >= 4 && !TypesChosen(old(catalog.TypeList()), session.typesAnswer) ==>
              outcome == NoTypesSelected && unchanged(catalog) && unchanged(store)
    ensures Dispatch(f) == TemplateCreate && TypesChosen(old(catalog.TypeList()), session.typesAnswer) ==>
              unchanged(catalog) && store.present
              && exists types :: TypeSelection(types, old(catalog.TypeList()).value, session.typesAnswer)
                   && store.files == CreatedTemplate(old(store.files), f.template, session.target, types, session.projectNameAnswer).0
                   && outcome == Reported(CreatedTemplate(old(store.files), f.template, session.target, types, session.projectNameAnswer).1)
    ensures Dispatch(f) == PackageAdd && TypesChosen(old(catalog.TypeList()), session.typesAnswer) ==>
              unchanged(store) && catalog.templateFor == old(catalog.templateFor)
              && exists types :: TypeSelection(types, old(catalog.TypeList()).value, session.typesAnswer)
                   && PackageAdded(old(catalog.packages), catalog.packages, f.args, types, outcome)
    ensures Dispatch(f) == ProjectCreate && TypesChosen(old(catalog.TypeList()), session.typesAnswer) ==>
              unchanged(catalog) && unchanged(store)
              && exists types :: TypeSelection(types, catalog.TypeList().value, session.typesAnswer)
                   && actions == CreateProjectRun(session.pwd, f.args[0], types, catalog.PackageList(),
                                                  store.present, store.files, order, session.ok).0
                   && outcome == Reported(CreateProjectRun(session.pwd, f.args[0], types, catalog.PackageList(),
                                                           store.present, store.files, order, session.ok).1)
    ensures Dispatch(f) == Usage ==> outcome == ShowUsage && unchanged(catalog) && unchanged(store)
  {
    actions := [];
    if f.templateDelete {
      outcome := DeleteTemplatesMode(store, order, session.menuAnswer);
      return;
    }
    if f.templateForDelete {
      outcome := DeleteTemplateForMode(catalog, session.menuAnswer);
      return;
    }
    if f.packageDelete {
      outcome := DeletePackageMode(catalog, session.menuAnswer);
      return;
    }
    if f.templateFor {
      outcome := AddTemplateForMode(catalog, f.args);
      return;
    }

    var selectedTypes: seq<string> := [];
    if NeedsTypes(f) {
      var types := catalog.GetTemplateTypes();
      selectedTypes := SelectTypes(types, session.typesAnswer);
      if types.Ok? {
        TypeSelectionEmpty(selectedTypes, types.value, session.typesAnswer);
      }
      if |selectedTypes| == 0 {
        return NoTypesSelected, [];
      }
    }

    if f.template != "" {
      var err := store.CreateTemplate(f.template, session.target, selectedTypes, session.projectNameAnswer);
      return Reported(err), [];
    }
    if f.package {
      outcome := AddPackageMode(catalog, f.args, selectedTypes);
      return;
    }
    if |f.args| > 0 {
      var err;
      actions, err := CreateProject(session.pwd, f.args[0], selectedTypes, catalog, store, order, session.ok);
      return Reported(err), actions;
    }
    return ShowUsage, [];
  }
}
