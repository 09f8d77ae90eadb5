/**
  The two catalogs kept next to the executable, template_util/packages.json
  and template_util/template_for.json, and the package list a `Project`
  keeps in its own directory (internal/project/project.go).

  A catalog file is modelled by what its JSON holds rather than by its bytes.
  Every operation reads the whole list, rebuilds it and writes it back.
 */
module Catalog {
  import opened Wrappers
  import opened Errors
  import opened Entities
  import opened Named
  import Tags

  const PackagesJson: string := "packages.json"
  const TemplateForJson: string := "template_for.json"

  /** packages.json: absent, a JSON array of packages (`null` being the empty one), or unreadable. */
  datatype PackagesFile = NoPackagesFile | PackageArray(entries: seq<Package>) | UnreadablePackages

  /**
    template_for.json: absent, the object form `{"types": [...]}`, a bare
    array `[...]` (`null` being the empty one), or unreadable.
   */
  datatype TemplateForFile =
    | NoTemplateForFile
    | ObjectForm(types: seq<TemplateType>)
    | ArrayForm(entries: seq<TemplateType>)
    | UnreadableTemplateFor

  /**
    How both readers of template_for.json decode it: a missing file is the
    empty list, the object form gives its list, `null` decodes to the empty
    list, and a non-empty bare array cannot be decoded into the object.
   */
  function ReadTemplateFor(f: TemplateForFile): (r: Result<seq<TemplateType>, Error>)
    ensures r.Ok? <==> !f.UnreadableTemplateFor? && !(f.ArrayForm? && f.entries != [])
    ensures f.ObjectForm? ==> r == Ok(f.types)
    ensures f.NoTemplateForFile? || f == ArrayForm([]) ==> r == Ok([])
  {
    match f
    case NoTemplateForFile => Ok([])
    case ObjectForm(types) => Ok(types)
    case ArrayForm(entries) => if entries == [] then Ok([]) else Err(CatalogUnreadable(TemplateForJson))
    case UnreadableTemplateFor => Err(CatalogUnreadable(TemplateForJson))
  }

  /** How `GetPackages` decodes packages.json: a missing file is the empty catalog. */
  function ReadPackages(f: PackagesFile): Result<seq<Package>, Error> {
    match f
    case NoPackagesFile => Ok([])
    case PackageArray(entries) => Ok(entries)
    case UnreadablePackages => Err(CatalogUnreadable(PackagesJson))
  }

  /** The description `AddTemplateFor` gives a new entry. */
  function DescriptionFor(name: string): string {
    "Template for " + name
  }

  /** The store behind the package and "template for" commands. */
  class CatalogStore {
    var packages: PackagesFile
    var templateFor: TemplateForFile

    constructor (packages: PackagesFile, templateFor: TemplateForFile)
      ensures this.packages == packages && this.templateFor == templateFor
    {
      this.packages := packages;
      this.templateFor := templateFor;
    }

    /** The package catalog as `GetPackages` reads it. */
    function PackageList(): Result<seq<Package>, Error>
      reads this
    {
      ReadPackages(packages)
    }

    /** The readable package catalog holds no two packages with the same name. */
    predicate PackagesUnique()
      reads this
    {
      PackageList().Ok? ==> UniqueNames(PackageList().value, PackageName)
    }

    /** `GetPackages`: a missing file is the empty catalog. */
    method GetPackages() returns (r: Result<seq<Package>, Error>)
      ensures packages.NoPackagesFile? ==> r == Ok([])
      ensures packages.PackageArray? ==> r == Ok(packages.entries)
      ensures packages.UnreadablePackages? ==> r == Err(CatalogUnreadable(PackagesJson))
    {
      match packages
      case NoPackagesFile =>
        r := Ok([]);
      case PackageArray(entries) =>
        r := Ok(entries);
      case UnreadablePackages =>
        r := Err(CatalogUnreadable(PackagesJson));
    }

    /**
      `AddPackage`: rejects a name already in the catalog; otherwise appends
      the package at the end.
     */
    method AddPackage(packageName: string, types: seq<string>) returns (err: Option<Error>)
      modifies this
      ensures templateFor == old(templateFor)
      ensures old(PackageList()).Err? ==> err == Some(old(PackageList()).error) && packages == old(packages)
      ensures old(PackageList()).Ok? && HasName(old(PackageList()).value, PackageName, packageName) ==>
                err == Some(DuplicateEntry(packageName)) && packages == old(packages)
      ensures old(PackageList()).Ok? && !HasName(old(PackageList()).value, PackageName, packageName) ==>
                err == None && packages == PackageArray(old(PackageList()).value + [Package(packageName, types)])
      ensures err == None <==> old(PackageList()).Ok? && !HasName(old(PackageList()).value, PackageName, packageName)
      ensures err == None ==> HasName(PackageList().value, PackageName, packageName)
      ensures old(PackagesUnique()) ==> PackagesUnique()
    {
      var current := GetPackages();
      if current.Err? {
        return Some(current.error);
      }
      var existing := FindName(current.value, PackageName, packageName);
      if existing {
        return Some(DuplicateEntry(packageName));
      }
      var added := Package(packageName, types);
      if UniqueNames(current.value, PackageName) {
        AppendKeepsUnique(current.value, PackageName, added);
      }
      assert (current.value + [added])[|current.value|] == added;
      packages := PackageArray(current.value + [added]);
      return None;
    }

    /**
      `DeletePackages`: keeps exactly the packages whose name is not among
      `names`, in catalog order.
     */
    method DeletePackages(names: seq<string>) returns (err: Option<Error>)
      modifies this
      ensures templateFor == old(templateFor)
      ensures old(PackageList()).Err? ==> err == Some(old(PackageList()).error) && packages == old(packages)
      ensures old(PackageList()).Ok? ==>
                err == None && packages == PackageArray(Without(old(PackageList()).value, PackageName, set n | n in names))
      ensures old(PackagesUnique()) ==> PackagesUnique()
    {
      var current := GetPackages();
      if current.Err? {
        return Some(current.error);
      }
      var kept := DropNames(current.value, PackageName, names);
      if UniqueNames(current.value, PackageName) {
        WithoutKeepsUnique(current.value, PackageName, set n | n in names);
      }
      packages := PackageArray(kept);
      return None;
    }

    /** `DeletePackage`: removes every package with exactly this name. */
    method DeletePackage(name: string) returns (err: Option<Error>)
      modifies this
      ensures templateFor == old(templateFor)
      ensures old(PackageList()).Err? ==> err == Some(old(PackageList()).error) && packages == old(packages)
      ensures old(PackageList()).Ok? ==>
                err == None && packages == PackageArray(Without(old(PackageList()).value, PackageName, {name}))
      ensures old(PackagesUnique()) ==> PackagesUnique()
    {
      var current := GetPackages();
      if current.Err? {
        return Some(current.error);
      }
      var kept := DropName(current.value, PackageName, name);
      if UniqueNames(current.value, PackageName) {
        WithoutKeepsUnique(current.value, PackageName, {name});
      }
      packages := PackageArray(kept);
      return None;
    }

    /** The "template for" list as `GetTemplateFors` and `GetTemplateTypes` read it. */
    function TypeList(): Result<seq<TemplateType>, Error>
      reads this
    {
      ReadTemplateFor(templateFor)
    }

    /** The readable "template for" list holds no two entries with the same name. */
    predicate TypesUnique()
      reads this
    {
      TypeList().Ok? ==> UniqueNames(TypeList().value, TypeName)
    }

    /** `GetTemplateFors`: decodes the object form; a missing file is the empty list. */
    method GetTemplateFors() returns (r: Result<seq<TemplateType>, Error>)
      ensures r == ReadTemplateFor(templateFor)
    {
      match templateFor
      case NoTemplateForFile =>
        r := Ok([]);
      case ObjectForm(types) =>
        r := Ok(types);
      case ArrayForm(entries) =>
        r := if entries == [] then Ok([]) else Err(CatalogUnreadable(TemplateForJson));
      case UnreadableTemplateFor =>
        r := Err(CatalogUnreadable(TemplateForJson));
    }

    /**
      `GetTemplateTypes`: reads the same file with the same decoding as
      `GetTemplateFors`. The program has the two functions as separate
      copies of one body (internal/project/project.go:289-317 and 720-748),
      and the model keeps both.
     */
    method GetTemplateTypes() returns (r: Result<seq<TemplateType>, Error>)
      ensures r == ReadTemplateFor(templateFor)
    {
      r := GetTemplateFors();
    }

    /**
      `AddTemplateFor`: rejects an existing name; otherwise appends the entry
      with the description "Template for <name>" and writes the object form.
     */
    method AddTemplateFor(name: string) returns (err: Option<Error>)
      modifies this
      ensures packages == old(packages)
      ensures old(TypeList()).Err? ==> err == Some(old(TypeList()).error) && templateFor == old(templateFor)
      ensures old(TypeList()).Ok? && HasName(old(TypeList()).value, TypeName, name) ==>
                err == Some(DuplicateEntry(name)) && templateFor == old(templateFor)
      ensures old(TypeList()).Ok? && !HasName(old(TypeList()).value, TypeName, name) ==>
                err == None && templateFor == ObjectForm(old(TypeList()).value + [TemplateType(name, DescriptionFor(name))])
      ensures err == None ==> TypeList() == Ok(old(TypeList()).value + [TemplateType(name, DescriptionFor(name))])
      ensures old(TypesUnique()) ==> TypesUnique()
    {
      var current := GetTemplateFors();
      if current.Err? {
        return Some(current.error);
      }
      var existing := FindName(current.value, TypeName, name);
      if existing {
        return Some(DuplicateEntry(name));
      }
      var added := TemplateType(name, DescriptionFor(name));
      if UniqueNames(current.value, TypeName) {
        AppendKeepsUnique(current.value, TypeName, added);
      }
      templateFor := ObjectForm(current.value + [added]);
      return None;
    }

    /** `DeleteTemplateFor`: removes every entry with this name and writes the object form. */
    method DeleteTemplateFor(name: string) returns (err: Option<Error>)
      modifies this
      ensures packages == old(packages)
      ensures old(TypeList()).Err? ==> err == Some(old(TypeList()).error) && templateFor == old(templateFor)
      ensures old(TypeList()).Ok? ==>
                err == None && templateFor == ObjectForm(Without(old(TypeList()).value, TypeName, {name}))
      ensures err == None ==> TypeList() == Ok(Without(old(TypeList()).value, TypeName, {name}))
      ensures old(TypesUnique()) ==> TypesUnique()
    {
      var current := GetTemplateFors();
      if current.Err? {
        return Some(current.error);
      }
      var kept := DropName(current.value, TypeName, name);
      if UniqueNames(current.value, TypeName) {
        WithoutKeepsUnique(current.value, TypeName, {name});
      }
      templateFor := ObjectForm(kept);
      return None;
    }

    /**
      `AddType` as written: the duplicate check and append of `AddTemplateFor`,
      with the caller's description, but the list is written as a bare array.
     */
    method AddType(typeName: string, description: string) returns (err: Option<Error>)
      modifies this
      ensures packages == old(packages)
      ensures old(TypeList()).Err? ==> err == Some(old(TypeList()).error) && templateFor == old(templateFor)
      ensures old(TypeList()).Ok? && HasName(old(TypeList()).value, TypeName, typeName) ==>
                err == Some(DuplicateEntry(typeName)) && templateFor == old(templateFor)
      ensures old(TypeList()).Ok? && !HasName(old(TypeList()).value, TypeName, typeName) ==>
                err == None && templateFor == ArrayForm(old(TypeList()).value + [TemplateType(typeName, description)])
      ensures err == None ==> TypeList().Err?
    {
      var current := GetTemplateTypes();
      if current.Err? {
        return Some(current.error);
      }
      var existing := FindName(current.value, TypeName, typeName);
      if existing {
        return Some(DuplicateEntry(typeName));
      }
      templateFor := ArrayForm(current.value + [TemplateType(typeName, description)]);
      return None;
    }

    /**
      `DeleteType` as written: the removal of `DeleteTemplateFor`, but the
      list is written as a bare array.
     */
    method DeleteType(typeName: string) returns (err: Option<Error>)
      modifies this
      ensures packages == old(packages)
      ensures old(TypeList()).Err? ==> err == Some(old(TypeList()).error) && templateFor == old(templateFor)
      ensures old(TypeList()).Ok? ==>
                err == None && templateFor == ArrayForm(Without(old(TypeList()).value, TypeName, {typeName}))
      ensures err == None ==> (TypeList().Ok? <==> Without(old(TypeList()).value, TypeName, {typeName}) == [])
    {
      var current := GetTemplateTypes();
      if current.Err? {
        return Some(current.error);
      }
      var kept := DropName(current.value, TypeName, typeName);
      templateFor := ArrayForm(kept);
      return None;
    }

    /** `AddType` writing the object form its readers expect. */
    method AddTypeCorrected(typeName: string, description: string) returns (err: Option<Error>)
      modifies this
      ensures packages == old(packages)
      ensures old(TypeList()).Err? ==> err == Some(old(TypeList()).error) && templateFor == old(templateFor)
      ensures old(TypeList()).Ok? && HasName(old(TypeList()).value, TypeName, typeName) ==>
                err == Some(DuplicateEntry(typeName)) && templateFor == old(templateFor)
      ensures err == None <==> old(TypeList()).Ok? && !HasName(old(TypeList()).value, TypeName, typeName)
      ensures err == None ==> TypeList() == Ok(old(TypeList()).value + [TemplateType(typeName, description)])
      ensures old(TypesUnique()) ==> TypesUnique()
    {
      var current := GetTemplateTypes();
      if current.Err? {
        return Some(current.error);
      }
      var existing := FindName(current.value, TypeName, typeName);
      if existing {
        return Some(DuplicateEntry(typeName));
      }
      var added := TemplateType(typeName, description);
      if UniqueNames(current.value, TypeName) {
        AppendKeepsUnique(current.value, TypeName, added);
      }
      templateFor := ObjectForm(current.value + [added]);
      return None;
    }

    /** `DeleteType` writing the object form its readers expect. */
    method DeleteTypeCorrected(typeName: string) returns (err: Option<Error>)
      modifies this
      ensures packages == old(packages)
      ensures old(TypeList()).Err? ==> err == Some(old(TypeList()).error) && templateFor == old(templateFor)
      ensures err == None <==> old(TypeList()).Ok?
      ensures err == None ==> TypeList() == Ok(Without(old(TypeList()).value, TypeName, {typeName}))
      ensures old(TypesUnique()) ==> TypesUnique()
    {
      var current := GetTemplateTypes();
      if current.Err? {
        return Some(current.error);
      }
      var kept := DropName(current.value, TypeName, typeName);
      if UniqueNames(current.value, TypeName) {
        WithoutKeepsUnique(current.value, TypeName, {typeName});
      }
      templateFor := ObjectForm(kept);
      return None;
    }
  }

  /**
    The finding, on a concrete store: after `AddType("bloc", ...)` on a
    store without template_for.json, `GetTemplateFors` fails to decode it.
   */
  method AddTypeThenReadFails() returns (r: Result<seq<TemplateType>, Error>)
    ensures r == Err(CatalogUnreadable(TemplateForJson))
  {
    var store := new CatalogStore(NoPackagesFile, NoTemplateForFile);
    var err := store.AddType("bloc", "Bloc state management");
    assert !HasName([], TypeName, "bloc");
    r := store.GetTemplateFors();
  }

  /** The same sequence against the corrected `AddType` reads the new entry back. */
  method AddTypeCorrectedThenRead() returns (r: Result<seq<TemplateType>, Error>)
    ensures r == Ok([TemplateType("bloc", "Bloc state management")])
  {
    var store := new CatalogStore(NoPackagesFile, NoTemplateForFile);
    assert !HasName([], TypeName, "bloc");
    var err := store.AddTypeCorrected("bloc", "Bloc state management");
    assert [] + [TemplateType("bloc", "Bloc state management")] == [TemplateType("bloc", "Bloc state management")];
    r := store.GetTemplateFors();
  }

  /** Deleting one name is deleting the one-element list of names. */
  lemma SingleDeleteIsListDelete(ps: seq<Package>, name: string)
    ensures Without(ps, PackageName, {name}) == Without(ps, PackageName, set n | n in [name])
  {
    assert (set n | n in [name]) == {name};
  }

  /** The package list of a project directory, `<project path>/packages.json`. */
  class Project {
    var packages: PackagesFile

    constructor (packages: PackagesFile)
      ensures this.packages == packages
    {
      this.packages := packages;
    }

    /** The unexported `readPackages` of a project: here a missing file is an error. */
    function PackageList(): Result<seq<Package>, Error>
      reads this
    {
      match packages
      case NoPackagesFile => Err(CatalogUnreadable(PackagesJson))
      case PackageArray(entries) => Ok(entries)
      case UnreadablePackages => Err(CatalogUnreadable(PackagesJson))
    }

    /** `Project.AddPackage`: rejects a duplicate name, otherwise appends the package. */
    method AddPackage(pkg: Package) returns (err: Option<Error>)
      modifies this
      ensures packages.NoPackagesFile? ==> err.Some?
      ensures old(PackageList()).Err? ==> err == Some(old(PackageList()).error) && packages == old(packages)
      ensures old(PackageList()).Ok? && HasName(old(PackageList()).value, PackageName, pkg.name) ==>
                err == Some(DuplicateEntry(pkg.name)) && packages == old(packages)
      ensures old(PackageList()).Ok? && !HasName(old(PackageList()).value, PackageName, pkg.name) ==>
                err == None && packages == PackageArray(old(PackageList()).value + [pkg])
    {
      var current := PackageList();
      if current.Err? {
        return Some(current.error);
      }
      var existing := FindName(current.value, PackageName, pkg.name);
      if existing {
        return Some(DuplicateEntry(pkg.name));
      }
      packages := PackageArray(current.value + [pkg]);
      return None;
    }

    /** `GetPackagesByTypes`: the same filter project creation applies to the global catalog. */
    method GetPackagesByTypes(types: seq<string>) returns (r: Result<seq<Package>, Error>)
      ensures PackageList().Err? ==> r == PackageList()
      ensures PackageList().Ok? ==> r == Ok(Tags.FilterPackages(PackageList().value, types))
    {
      var current := PackageList();
      if current.Err? {
        return Err(current.error);
      }
      var filtered := Tags.SelectPackages(current.value, types);
      return Ok(filtered);
    }
  }
}
