/**
  Type tags: which catalog packages and which stored templates belong to a
  new project, given the project types the user selected
  (internal/project/project.go).
 */
module Tags {
  import opened Entities

  /** The tag that makes a package or template apply to every project type. */
  const All: string := "ALL"

  /** `contains`: a search that returns at the first equal element. */
  method Contains(slice: seq<string>, item: string) returns (found: bool)
    ensures found <==> item in slice
  {
    for i := 0 to |slice|
      invariant item !in slice[..i]
    {
      if slice[i] == item {
        return true;
      }
    }
    return false;
  }

  /** Some tag occurs in both lists. */
  predicate Shares(a: seq<string>, b: seq<string>) {
    exists t :: t in a && t in b
  }

  /** `hasAnyType`: two nested searches, returning at the first common tag. */
  method HasAnyType(pkgTypes: seq<string>, selectedTypes: seq<string>) returns (found: bool)
    ensures found <==> Shares(pkgTypes, selectedTypes)
  {
    for i := 0 to |pkgTypes|
      invariant forall k :: 0 <= k < i ==> pkgTypes[k] !in selectedTypes
    {
      for j := 0 to |selectedTypes|
        invariant pkgTypes[i] !in selectedTypes[..j]
      {
        if pkgTypes[i] == selectedTypes[j] {
          assert pkgTypes[i] in pkgTypes && pkgTypes[i] in selectedTypes;
          return true;
        }
      }
    }
    return false;
  }

  /** A package belongs to a project when it is tagged "ALL" or carries a selected type. */
  predicate PackageWanted(pkgTypes: seq<string>, selected: seq<string>) {
    All in pkgTypes || exists t :: t in selected && t in pkgTypes
  }

  /** A template belongs to a project when one of its tags is selected or is "ALL". */
  predicate TemplateWanted(templateTypes: seq<string>, selected: seq<string>) {
    exists tt :: tt in templateTypes && (tt in selected || tt == All)
  }

  /** The packages of the catalog that belong to a project, in catalog order. */
  function FilterPackages(pkgs: seq<Package>, selected: seq<string>): seq<Package> {
    if pkgs == [] then []
    else
      var init := FilterPackages(pkgs[..|pkgs| - 1], selected);
      var last := pkgs[|pkgs| - 1];
      if PackageWanted(last.types, selected) then init + [last] else init
  }

  /**
    The package filter of project creation and of `GetPackagesByTypes`: an
    "ALL" package is appended and the loop continues; otherwise the selected
    types are tried in turn and the first match appends the package and breaks.
   */
  method SelectPackages(pkgs: seq<Package>, types: seq<string>) returns (filtered: seq<Package>)
    ensures filtered == FilterPackages(pkgs, types)
  {
    filtered := [];
    for i := 0 to |pkgs|
      invariant filtered == FilterPackages(pkgs[..i], types)
    {
      assert pkgs[..i + 1][..i] == pkgs[..i];
      var pkg := pkgs[i];
      var isAll := Contains(pkg.types, All);
      if isAll {
        filtered := filtered + [pkg];
        continue;
      }
      var matched := false;
      for j := 0 to |types|
        invariant !matched && forall k :: 0 <= k < j ==> types[k] !in pkg.types
      {
        var hit := Contains(pkg.types, types[j]);
        if hit {
          filtered := filtered + [pkg];
          matched := true;
          break;
        }
      }
      assert matched <==> PackageWanted(pkg.types, types);
    }
    assert pkgs[..|pkgs|] == pkgs;
  }

  /** The `shouldProcess` loop of project creation. */
  method ShouldProcess(templateTypes: seq<string>, types: seq<string>) returns (process: bool)
    ensures process <==> TemplateWanted(templateTypes, types)
  {
    process := false;
    for i := 0 to |templateTypes|
      invariant forall k :: 0 <= k < i ==> templateTypes[k] !in types && templateTypes[k] != All
    {
      var selected := Contains(types, templateTypes[i]);
      if selected || templateTypes[i] == All {
        process := true;
        break;
      }
    }
  }

  /** `hasAnyType` decides the inner loop of the package filter. */
  lemma HasAnyTypeIsInnerLoop(pkgTypes: seq<string>, selected: seq<string>)
    ensures PackageWanted(pkgTypes, selected) <==> All in pkgTypes || Shares(pkgTypes, selected)
  {
  }

  /** The template test and the package test agree on every tag list. */
  lemma TemplateTestIsPackageTest(tags: seq<string>, selected: seq<string>)
    ensures TemplateWanted(tags, selected) <==> PackageWanted(tags, selected)
  {
  }

  /** A template with no tags is never processed. */
  lemma UntaggedTemplateSkipped(selected: seq<string>)
    ensures !TemplateWanted([], selected)
  {
  }

  /** A package is kept exactly when it is in the catalog and belongs to the project. */
  lemma {:induction false} FilterMembership(pkgs: seq<Package>, selected: seq<string>, p: Package)
    ensures p in FilterPackages(pkgs, selected) <==> p in pkgs && PackageWanted(p.types, selected)
    decreases |pkgs|
  {
    if pkgs != [] {
      var init := pkgs[..|pkgs| - 1];
      FilterMembership(init, selected, p);
      assert pkgs == init + [pkgs[|pkgs| - 1]];
    }
  }

  /** Filtering works piece by piece, so kept packages stay in catalog order. */
  lemma {:induction false} FilterConcat(a: seq<Package>, b: seq<Package>, selected: seq<string>)
    ensures FilterPackages(a + b, selected) == FilterPackages(a, selected) + FilterPackages(b, selected)
    decreases |b|
  {
    if b == [] {
      assert a + b == a;
    } else {
      var binit := b[..|b| - 1];
      FilterConcat(a, binit, selected);
      assert (a + b)[..|a + b| - 1] == a + binit;
      assert (a + b)[|a + b| - 1] == b[|b| - 1];
    }
  }

  /**
    Each kept package appears as often as in the catalog and no more: the
    `continue` and `break` prevent a package from being added twice.
   */
  lemma {:induction false} FilterMultiplicity(pkgs: seq<Package>, selected: seq<string>, p: Package)
    ensures multiset(FilterPackages(pkgs, selected))[p]
         == if PackageWanted(p.types, selected) then multiset(pkgs)[p] else 0
    decreases |pkgs|
  {
    if pkgs != [] {
      var init := pkgs[..|pkgs| - 1];
      FilterMultiplicity(init, selected, p);
      assert pkgs == init + [pkgs[|pkgs| - 1]];
    }
  }

  /** With no type selected, exactly the "ALL" packages are kept. */
  lemma {:induction false} NoSelectionKeepsAllTagged(pkgs: seq<Package>)
    ensures forall p :: p in FilterPackages(pkgs, []) <==> p in pkgs && All in p.types
  {
    forall p: Package ensures p in FilterPackages(pkgs, []) <==> p in pkgs && All in p.types {
      FilterMembership(pkgs, [], p);
    }
  }

  /** Selecting more types never drops a package. */
  lemma {:induction false} FilterMonotone(pkgs: seq<Package>, s1: seq<string>, s2: seq<string>, p: Package)
    requires forall t :: t in s1 ==> t in s2
    requires p in FilterPackages(pkgs, s1)
    ensures p in FilterPackages(pkgs, s2)
  {
    FilterMembership(pkgs, s1, p);
    FilterMembership(pkgs, s2, p);
  }

  /**
    A worked example: "http" is tagged "ALL" and "bloc" is tagged "state".
    Selecting "state" keeps both, in catalog order; selecting nothing keeps "http" only.
   */
  lemma FilterExample()
    ensures FilterPackages([Package("http", ["ALL"]), Package("bloc", ["state"])], ["state"])
         == [Package("http", ["ALL"]), Package("bloc", ["state"])]
    ensures FilterPackages([Package("http", ["ALL"]), Package("bloc", ["state"])], [])
         == [Package("http", ["ALL"])]
  {
    var http, bloc := Package("http", ["ALL"]), Package("bloc", ["state"]);
    var sel := ["state"];
    assert PackageWanted(http.types, sel) && PackageWanted(http.types, []);
    assert PackageWanted(bloc.types, sel) by { assert "state" in sel && "state" in bloc.types; }
    assert !PackageWanted(bloc.types, []) by { assert bloc.types[0] != All; }
    assert [http, bloc][..1] == [http];
    assert [http][..0] == [];
  }
}
