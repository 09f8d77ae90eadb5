/**
  The numbered menus of the command-line tool (cmd/flutter_assist/main.go):
  the user types menu numbers separated by white space; each token that is
  a number between 1 and the menu length selects that item, and anything
  else is skipped. The selection is collected in a Go map, so it is a set
  and any order read out of it is unspecified.
 */
module Selector {
  import opened Wrappers
  import opened Errors
  import opened Entities
  import opened Text

  /** The menu number a token stands for, when it is one: `strconv.Atoi` succeeds and 1 <= n <= count. */
  function Pick(tok: string, count: nat): (r: Option<nat>)
    ensures r.Some? <==> Atoi(tok).Some? && 1 <= Atoi(tok).value <= count
    ensures r.Some? ==> r.value == Atoi(tok).value
  {
    match Atoi(tok)
    case Some(n) => if 1 <= n <= count then Some(n as nat) else None
    case None => None
  }

  /** The items the tokens select. */
  function ChosenBy<T>(tokens: seq<string>, items: seq<T>): set<T> {
    if tokens == [] then {}
    else
      var earlier := ChosenBy(tokens[..|tokens| - 1], items);
      match Pick(tokens[|tokens| - 1], |items|)
      case Some(n) => earlier + {items[n - 1]}
      case None => earlier
  }

  /** An item is selected exactly when some token is its menu number. */
  lemma {:induction false} ChosenByMembership<T>(tokens: seq<string>, items: seq<T>, x: T)
    ensures x in ChosenBy(tokens, items) <==>
              exists k :: 0 <= k < |tokens| && Pick(tokens[k], |items|).Some? && items[Pick(tokens[k], |items|).value - 1] == x
    decreases |tokens|
  {
    if tokens != [] {
      var init := tokens[..|tokens| - 1];
      ChosenByMembership(init, items, x);
      assert forall k :: 0 <= k < |init| ==> init[k] == tokens[k];
    }
  }

  /** Every selected item is one of the menu's items. */
  lemma {:induction false} ChosenAreItems<T>(tokens: seq<string>, items: seq<T>)
    ensures forall x :: x in ChosenBy(tokens, items) ==> x in items
    decreases |tokens|
  {
    if tokens != [] {
      ChosenAreItems(tokens[..|tokens| - 1], items);
    }
  }

  /** Typing the menu number of an item, as the menu prints it, selects that item. */
  lemma MenuNumberSelects<T>(items: seq<T>, i: nat)
    requires i < |items|
    ensures ChosenBy([Itoa(i + 1)], items) == {items[i]}
  {
    AtoiOfItoa(i + 1);
    assert [Itoa(i + 1)][..0] == [];
  }

  /** Repeating a token selects nothing more. */
  lemma RepeatCollapses<T>(tokens: seq<string>, t: string, items: seq<T>)
    requires t in tokens
    ensures ChosenBy(tokens + [t], items) == ChosenBy(tokens, items)
  {
    assert (tokens + [t])[..|tokens|] == tokens;
    if Pick(t, |items|).Some? {
      var k :| 0 <= k < |tokens| && tokens[k] == t;
      ChosenByMembership(tokens, items, items[Pick(t, |items|).value - 1]);
    }
  }

  /** A menu of the entries' names selects the names of the entries the same tokens select. */
  lemma {:induction false} ChosenByNames<T>(tokens: seq<string>, items: seq<T>, nameOf: T -> string, names: seq<string>)
    requires |names| == |items| && forall i :: 0 <= i < |items| ==> names[i] == nameOf(items[i])
    ensures ChosenBy(tokens, names) == set x | x in ChosenBy(tokens, items) :: nameOf(x)
    decreases |tokens|
  {
    if tokens != [] {
      ChosenByNames(tokens[..|tokens| - 1], items, nameOf, names);
    }
  }

  /**
    The parsing loop every menu shares: the input is split into fields and
    each accepted number marks its item as selected.
   */
  method ParseSelection<T>(items: seq<T>, input: string) returns (selected: set<T>)
    ensures selected == ChosenBy(Fields(input), items)
  {
    var numbers := Fields(input);
    selected := {};
    for i := 0 to |numbers|
      invariant selected == ChosenBy(numbers[..i], items)
    {
      assert numbers[..i + 1][..i] == numbers[..i];
      var num := Atoi(numbers[i]);
      if num.None? || num.value < 1 || num.value > |items| {
        continue;
      }
      selected := selected + {items[num.value - 1]};
    }
    assert numbers[..|numbers|] == numbers;
  }

  /** The names of the entries, in order. */
  method CollectNames<T>(items: seq<T>, nameOf: T -> string) returns (names: seq<string>)
    ensures |names| == |items| && forall i :: 0 <= i < |items| ==> names[i] == nameOf(items[i])
  {
    names := [];
    for i := 0 to |items|
      invariant |names| == i && forall k :: 0 <= k < i ==> names[k] == nameOf(items[k])
    {
      names := names + [nameOf(items[i])];
    }
  }

  /**
    `names` lists the names of the entries of `types` that `input` selects,
    each once, in some order.
   */
  ghost predicate TypeSelection(names: seq<string>, types: seq<TemplateType>, input: string) {
    (forall t :: t in names <==> exists i :: 0 <= i < |types| && types[i].name == t
                                            && types[i] in ChosenBy(Fields(input), types))
    && forall i, j :: 0 <= i < j < |names| ==> names[i] != names[j]
  }

  /** A type selection is empty exactly when the input selects no entry. */
  lemma TypeSelectionEmpty(names: seq<string>, types: seq<TemplateType>, input: string)
    requires TypeSelection(names, types, input)
    ensures names == [] <==> ChosenBy(Fields(input), types) == {}
  {
    if names != [] {
      assert names[0] in names;
    }
    if ChosenBy(Fields(input), types) != {} {
      var x :| x in ChosenBy(Fields(input), types);
      ChosenAreItems(Fields(input), types);
      var i :| 0 <= i < |types| && types[i] == x;
      assert types[i].name in names;
    }
  }

  /**
    `selectTypes`: the names of the chosen "template for" entries, each once,
    in the unspecified order of the map; nothing when the list cannot be read.
   */
  method SelectTypes(types: Result<seq<TemplateType>, Error>, input: string) returns (result: seq<string>)
    ensures types.Err? ==> result == []
    ensures types.Ok? ==> TypeSelection(result, types.value, input)
    ensures forall i, j :: 0 <= i < j < |result| ==> result[i] != result[j]
  {
    if types.Err? {
      return [];
    }
    var chosen := ParseSelection(types.value, input);
    var selected := set t | t in chosen :: t.name;
    ghost var all := selected;
    result := [];
    while selected != {}
      invariant selected <= all
      invariant forall t :: t in result <==> t in all && t !in selected
      invariant forall i, j :: 0 <= i < j < |result| ==> result[i] != result[j]
      decreases |selected|
    {
      var t :| t in selected;
      result := result + [t];
      selected := selected - {t};
    }
    forall t | t in all
      ensures exists i :: 0 <= i < |types.value| && types.value[i].name == t && types.value[i] in chosen
    {
      var c :| c in chosen && c.name == t;
      ChosenAreItems(Fields(input), types.value);
      var i :| 0 <= i < |types.value| && types.value[i] == c;
    }
  }

  /**
    `selectFromList`: the first item read out of the selection map, which is
    some selected item, or "" when nothing valid was typed.
   */
  method SelectFromList(items: seq<string>, input: string) returns (result: string)
    ensures ChosenBy(Fields(input), items) == {} ==> result == ""
    ensures ChosenBy(Fields(input), items) != {} ==> result in ChosenBy(Fields(input), items)
    ensures result == "" || result in items
  {
    var selected := ParseSelection(items, input);
    ChosenAreItems(Fields(input), items);
    result := "";
    if selected != {} {
      var item :| item in selected;
      result := item;
    }
  }

  /** `selectFromTemplateTypes`: a menu of the entries' names. */
  method SelectFromTemplateTypes(items: seq<TemplateType>, input: string) returns (result: string)
    ensures ChosenBy(Fields(input), items) == {} ==> result == ""
    ensures ChosenBy(Fields(input), items) != {} ==> exists x :: x in ChosenBy(Fields(input), items) && x.name == result
  {
    var itemNames := CollectNames(items, TypeName);
    result := SelectFromList(itemNames, input);
    ChosenByNames(Fields(input), items, TypeName, itemNames);
    if ChosenBy(Fields(input), items) != {} {
      var x :| x in ChosenBy(Fields(input), items);
      assert TypeName(x) in ChosenBy(Fields(input), itemNames);
      var y :| y in ChosenBy(Fields(input), items) && TypeName(y) == result;
    }
  }

  /** `selectFromPackages`: a menu of the packages' names. */
  method SelectFromPackages(items: seq<Package>, input: string) returns (result: string)
    ensures ChosenBy(Fields(input), items) == {} ==> result == ""
    ensures ChosenBy(Fields(input), items) != {} ==> exists x :: x in ChosenBy(Fields(input), items) && x.name == result
  {
    var itemNames := CollectNames(items, PackageName);
    result := SelectFromList(itemNames, input);
    ChosenByNames(Fields(input), items, PackageName, itemNames);
    if ChosenBy(Fields(input), items) != {} {
      var x :| x in ChosenBy(Fields(input), items);
      assert PackageName(x) in ChosenBy(Fields(input), itemNames);
      var y :| y in ChosenBy(Fields(input), items) && PackageName(y) == result;
    }
  }

  /** Items A, B, C and the input "1 3" select A and C. */
  lemma SelectionExample()
    ensures ChosenBy(Fields("1 3"), ["A", "B", "C"]) == {"A", "C"}
  {
    assert Fields("1 3") == ["1", "3"] by {
      assert Word("1 3") == "1";
      assert "1 3"[1..] == " 3";
      assert " 3"[1..] == "3";
      assert Word("3") == "3";
      assert "3"[1..] == "";
    }
    assert Atoi("1") == Some(1) && Atoi("3") == Some(3);
    assert ["1", "3"][..1] == ["1"];
    assert ["1"][..0] == [];
  }

  /** Items A, B, C and the input "5 x" select nothing: 5 is out of range and x is no number. */
  lemma NothingSelectedExample()
    ensures ChosenBy(Fields("5 x"), ["A", "B", "C"]) == {}
  {
    assert Fields("5 x") == ["5", "x"] by {
      assert Word("5 x") == "5";
      assert "5 x"[1..] == " x";
      assert " x"[1..] == "x";
      assert Word("x") == "x";
      assert "x"[1..] == "";
    }
    assert Atoi("5") == Some(5);
    assert Atoi("x") == None;
    assert ["5", "x"][..1] == ["5"];
    assert ["5"][..0] == [];
  }
}
