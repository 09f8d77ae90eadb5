/**
  The list operations every catalog shares: entries are identified by their
  name, the duplicate check is a search loop, and a deletion rebuilds the
  list keeping every entry whose name is not being deleted, in the original
  order.
 */
module Named {

  predicate HasName<T>(entries: seq<T>, nameOf: T -> string, name: string) {
    exists i :: 0 <= i < |entries| && nameOf(entries[i]) == name
  }

  /** No two entries share a name. */
  predicate UniqueNames<T>(entries: seq<T>, nameOf: T -> string) {
    forall i, j :: 0 <= i < j < |entries| ==> nameOf(entries[i]) != nameOf(entries[j])
  }

  /** The entries whose names are not in `drop`, in their original order. */
  function Without<T(==, !new)>(entries: seq<T>, nameOf: T -> string, drop: set<string>): (r: seq<T>)
    ensures |r| <= |entries|
    ensures forall x :: x in r <==> x in entries && nameOf(x) !in drop
  {
    if entries == [] then []
    else
      var init := entries[..|entries| - 1];
      var last := entries[|entries| - 1];
      assert entries == init + [last];
      var kept := Without(init, nameOf, drop);
      if nameOf(last) in drop then kept else kept + [last]
  }

  /** The duplicate check of the add operations: a search that stops at the first match. */
  method FindName<T>(entries: seq<T>, nameOf: T -> string, name: string) returns (found: bool)
    ensures found <==> HasName(entries, nameOf, name)
  {
    for i := 0 to |entries|
      invariant forall k :: 0 <= k < i ==> nameOf(entries[k]) != name
    {
      if nameOf(entries[i]) == name {
        return true;
      }
    }
    return false;
  }

  /** The single-name deletions: keep every entry whose name differs from `name`. */
  method DropName<T(==, !new)>(entries: seq<T>, nameOf: T -> string, name: string) returns (kept: seq<T>)
    ensures kept == Without(entries, nameOf, {name})
  {
    kept := [];
    for i := 0 to |entries|
      invariant kept == Without(entries[..i], nameOf, {name})
    {
      assert entries[..i + 1][..i] == entries[..i];
      if nameOf(entries[i]) != name {
        kept := kept + [entries[i]];
      }
    }
    assert entries[..|entries|] == entries;
  }

  /**
    The many-name deletion: for each entry a search of `names`, stopping at
    the first match, decides whether it is dropped.
   */
  method DropNames<T(==, !new)>(entries: seq<T>, nameOf: T -> string, names: seq<string>) returns (kept: seq<T>)
    ensures kept == Without(entries, nameOf, set n | n in names)
  {
    kept := [];
    for i := 0 to |entries|
      invariant kept == Without(entries[..i], nameOf, set n | n in names)
    {
      var shouldDelete := false;
      for j := 0 to |names|
        invariant !shouldDelete && nameOf(entries[i]) !in names[..j]
      {
        if nameOf(entries[i]) == names[j] {
          shouldDelete := true;
          break;
        }
      }
      assert shouldDelete <==> nameOf(entries[i]) in names;
      assert entries[..i + 1][..i] == entries[..i];
      if !shouldDelete {
        kept := kept + [entries[i]];
      }
    }
    assert entries[..|entries|] == entries;
  }

  /** Dropping by one set and then by another is dropping by both at once. */
  lemma {:induction false} WithoutTwice<T(!new)>(entries: seq<T>, nameOf: T -> string, d1: set<string>, d2: set<string>)
    ensures Without(Without(entries, nameOf, d1), nameOf, d2) == Without(entries, nameOf, d1 + d2)
    decreases |entries|
  {
    if entries != [] {
      var init := entries[..|entries| - 1];
      var last := entries[|entries| - 1];
      WithoutTwice(init, nameOf, d1, d2);
      var k1 := Without(init, nameOf, d1);
      if nameOf(last) !in d1 {
        assert (k1 + [last])[..|k1 + [last]| - 1] == k1;
      }
    }
  }

  /** Deleting the same names a second time changes nothing. */
  lemma WithoutIdempotent<T(!new)>(entries: seq<T>, nameOf: T -> string, drop: set<string>)
    ensures Without(Without(entries, nameOf, drop), nameOf, drop) == Without(entries, nameOf, drop)
  {
    WithoutTwice(entries, nameOf, drop, drop);
    assert drop + drop == drop;
  }

  /** Names that no entry carries have no effect. */
  lemma {:induction false} WithoutUnknown<T(!new)>(entries: seq<T>, nameOf: T -> string, drop: set<string>)
    requires forall i :: 0 <= i < |entries| ==> nameOf(entries[i]) !in drop
    ensures Without(entries, nameOf, drop) == entries
    decreases |entries|
  {
    if entries != [] {
      var init := entries[..|entries| - 1];
      WithoutUnknown(init, nameOf, drop);
      assert entries == init + [entries[|entries| - 1]];
    }
  }

  /** Deletion works piece by piece, so the kept entries stay in their original order. */
  lemma {:induction false} WithoutConcat<T(!new)>(a: seq<T>, b: seq<T>, nameOf: T -> string, drop: set<string>)
    ensures Without(a + b, nameOf, drop) == Without(a, nameOf, drop) + Without(b, nameOf, drop)
    decreases |b|
  {
    if b == [] {
      assert a + b == a;
    } else {
      var binit := b[..|b| - 1];
      WithoutConcat(a, binit, nameOf, drop);
      assert (a + b)[..|a + b| - 1] == a + binit;
      assert (a + b)[|a + b| - 1] == b[|b| - 1];
    }
  }

  /** Appending an entry under a new name keeps the names unique. */
  lemma AppendKeepsUnique<T>(entries: seq<T>, nameOf: T -> string, x: T)
    requires UniqueNames(entries, nameOf) && !HasName(entries, nameOf, nameOf(x))
    ensures UniqueNames(entries + [x], nameOf)
  {
    var e := entries + [x];
    forall i, j | 0 <= i < j < |e| ensures nameOf(e[i]) != nameOf(e[j]) {
      if j == |entries| {
        assert e[i] == entries[i];
      } else {
        assert e[i] == entries[i] && e[j] == entries[j];
      }
    }
  }

  /** Deleting keeps the names unique. */
  lemma {:induction false} WithoutKeepsUnique<T(!new)>(entries: seq<T>, nameOf: T -> string, drop: set<string>)
    requires UniqueNames(entries, nameOf)
    ensures UniqueNames(Without(entries, nameOf, drop), nameOf)
    decreases |entries|
  {
    if entries != [] {
      var init := entries[..|entries| - 1];
      var last := entries[|entries| - 1];
      assert UniqueNames(init, nameOf) by {
        forall i, j | 0 <= i < j < |init| ensures nameOf(init[i]) != nameOf(init[j]) {
          assert init[i] == entries[i] && init[j] == entries[j];
        }
      }
      WithoutKeepsUnique(init, nameOf, drop);
      var kept := Without(init, nameOf, drop);
      if nameOf(last) !in drop {
        AppendKeepsUnique(kept, nameOf, last);
      }
    }
  }
}
