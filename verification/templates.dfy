/**
  The templates directory, template_util/templates beside the executable:
  one JSON record per captured file (internal/template/template.go), listed
  and read back when a project is created (internal/project/project.go).
 */
module Templates {
  import opened Wrappers
  import opened Errors
  import opened Entities
  import opened Text
  import opened Replace
  import opened Placeholder

  const JsonSuffix: string := ".json"

  /** A file in the templates directory: a decodable template record, or anything else. */
  datatype StoredFile = Record(template: Template) | Garbled

  /**
    What `filepath.Walk` hands its callback, in walk order: a visited path,
    whether it is a directory and, for a file, its content (`None` when it
    cannot be read); or an error reported for a path.
   */
  datatype WalkEntry = Visit(path: string, isDir: bool, content: Option<string>) | WalkError(path: string)

  /** What `os.Stat` finds at the path given to the template command. */
  datatype CaptureTarget = Missing | RegularFile(content: Option<string>) | Directory(entries: seq<WalkEntry>)

  /**
    The record `processFile` stores for a source file: the path with one
    leading slash dropped, the content with the project name captured, and
    the types as given.
   */
  function CaptureRecord(path: string, content: string, types: seq<string>, projectName: string): (t: Template)
    ensures t.types == types
    ensures t.path == path || "/" + t.path == path
    ensures path != [] && path[0] == '/' ==> "/" + t.path == path
  {
    Template(TrimPrefix(path, "/"), Capture(content, projectName), types)
  }

  /**
    A stored record materialised under the name it was captured with gives
    back the original content, when that held no placeholder. Contents are
    text here; bytes that are not valid UTF-8 are outside the model.
   */
  lemma RecordRoundTrip(path: string, content: string, types: seq<string>, projectName: string)
    requires projectName != [] && !Occurs(content, Token)
    ensures Materialise(CaptureRecord(path, content, types, projectName).content, projectName) == content
  {
    RoundTrip(content, projectName);
  }

  /** The file name a captured source is stored under: its base name plus ".json". */
  function OutputName(path: string): (r: string)
    ensures HasSuffix(r, JsonSuffix) && |r| > |JsonSuffix|
    ensures r[..|r| - |JsonSuffix|] == Base(path)
  {
    var b := Base(path);
    var r := b + JsonSuffix;
    assert r[|r| - |JsonSuffix|..] == JsonSuffix;
    r
  }

  /** Sources with the same base name are stored under the same name. */
  lemma OutputNameByBase(p: string, q: string)
    ensures OutputName(p) == OutputName(q) <==> Base(p) == Base(q)
  {
    if OutputName(p) == OutputName(q) {
      var r := OutputName(p);
      assert Base(p) == r[..|r| - |JsonSuffix|] == Base(q);
    }
  }

  /** A strictly increasing list of names, the order `os.ReadDir` returns them in. */
  predicate Sorted(names: seq<string>) {
    forall i, j :: 0 <= i < j < |names| ==> LexLess(names[i], names[j])
  }

  /** The names ending in ".json", in the order given. */
  function JsonNames(names: seq<string>): (r: seq<string>)
    ensures forall n :: n in r <==> n in names && HasSuffix(n, JsonSuffix)
  {
    if names == [] then []
    else
      var init := names[..|names| - 1];
      var last := names[|names| - 1];
      assert names == init + [last];
      if HasSuffix(last, JsonSuffix) then JsonNames(init) + [last] else JsonNames(init)
  }

  /** Keeping the ".json" names of a sorted listing leaves it sorted. */
  lemma {:induction false} JsonNamesSorted(names: seq<string>)
    requires Sorted(names)
    ensures Sorted(JsonNames(names))
    decreases |names|
  {
    if names != [] {
      var init := names[..|names| - 1];
      var last := names[|names| - 1];
      assert Sorted(init) by {
        forall i, j | 0 <= i < j < |init| ensures LexLess(init[i], init[j]) {
          assert init[i] == names[i] && init[j] == names[j];
        }
      }
      JsonNamesSorted(init);
      if HasSuffix(last, JsonSuffix) {
        var r := JsonNames(init);
        forall i | 0 <= i < |r| ensures LexLess(r[i], last) {
          assert r[i] in init;
          var k :| 0 <= k < |init| && init[k] == r[i];
          assert names[k] == init[k];
        }
      }
    }
  }

  /**
    The directory walk of `processDirectory`: every non-directory entry is
    captured; the first walk error or unreadable file stops the walk and is
    the result. Returns the directory contents and the error, if any.
   */
  function Walk(files: map<string, StoredFile>, entries: seq<WalkEntry>, types: seq<string>, projectName: string)
    : (map<string, StoredFile>, Option<Error>)
    decreases |entries|
  {
    if entries == [] then (files, None)
    else
      match entries[0]
      case WalkError(p) => (files, Some(WalkFailed(p)))
      case Visit(p, isDir, content) =>
        if isDir then Walk(files, entries[1..], types, projectName)
        else if content.None? then (files, Some(SourceUnreadable(p)))
        else
          var stored := Record(CaptureRecord(p, content.value, types, projectName));
          Walk(files[OutputName(p) := stored], entries[1..], types, projectName)
  }

  /** The entry is a file whose capture succeeds. */
  predicate Captured(e: WalkEntry) {
    e.Visit? && !e.isDir && e.content.Some?
  }

  /** The entry stops the walk. */
  predicate Fails(e: WalkEntry) {
    e.WalkError? || (!e.isDir && e.content.None?)
  }

  /**
    Walking one list and then another is walking their concatenation, except
    that an error in the first stops everything.
   */
  lemma {:induction false} WalkConcat(files: map<string, StoredFile>, a: seq<WalkEntry>, b: seq<WalkEntry>, types: seq<string>, name: string)
    ensures var (fa, ea) := Walk(files, a, types, name);
            Walk(files, a + b, types, name) == if ea.Some? then (fa, ea) else Walk(fa, b, types, name)
    decreases |a|
  {
    if a == [] {
      assert a + b == b;
    } else {
      assert (a + b)[0] == a[0] && (a + b)[1..] == a[1..] + b;
      match a[0]
      case WalkError(p) =>
      case Visit(p, isDir, content) =>
        if isDir {
          WalkConcat(files, a[1..], b, types, name);
        } else if content.Some? {
          var stored := Record(CaptureRecord(p, content.value, types, name));
          WalkConcat(files[OutputName(p) := stored], a[1..], b, types, name);
        }
    }
  }

  /** The error a failing entry stops the walk with. */
  function FailureOf(e: WalkEntry): Error {
    if e.WalkError? then WalkFailed(e.path) else SourceUnreadable(e.path)
  }

  /** The state after a single entry that does not fail. */
  function Step(files: map<string, StoredFile>, e: WalkEntry, types: seq<string>, name: string): map<string, StoredFile> {
    if Captured(e) then files[OutputName(e.path) := Record(CaptureRecord(e.path, e.content.value, types, name))] else files
  }

  /** The walk ends without error exactly when no entry fails. */
  lemma {:induction false} WalkSucceeds(files: map<string, StoredFile>, entries: seq<WalkEntry>, types: seq<string>, name: string)
    ensures Walk(files, entries, types, name).1.None? <==> forall i :: 0 <= i < |entries| ==> !Fails(entries[i])
    decreases |entries|
  {
    if entries != [] && !Fails(entries[0]) {
      WalkSucceeds(Step(files, entries[0], types, name), entries[1..], types, name);
      assert forall i :: 1 <= i < |entries| ==> entries[i] == entries[1..][i - 1];
    }
  }

  /** A failing walk reports the first entry that fails. */
  lemma {:induction false} WalkReportsFirstFailure(files: map<string, StoredFile>, entries: seq<WalkEntry>, types: seq<string>, name: string, k: nat)
    requires k < |entries| && Fails(entries[k])
    requires forall i :: 0 <= i < k ==> !Fails(entries[i])
    ensures Walk(files, entries, types, name).1 == Some(FailureOf(entries[k]))
    decreases k
  {
    if k > 0 {
      assert !Fails(entries[0]);
      assert forall i :: 0 <= i < k - 1 ==> entries[1..][i] == entries[i + 1];
      WalkReportsFirstFailure(Step(files, entries[0], types, name), entries[1..], types, name, k - 1);
    }
  }

  /** Only the output names of captured files are written; directories and errors write nothing. */
  lemma {:induction false} WalkWritesOnlyCaptured(files: map<string, StoredFile>, entries: seq<WalkEntry>, types: seq<string>, name: string, key: string)
    requires key in Walk(files, entries, types, name).0
    requires key !in files || Walk(files, entries, types, name).0[key] != files[key]
    ensures exists i :: 0 <= i < |entries| && Captured(entries[i]) && OutputName(entries[i].path) == key
    decreases |entries|
  {
    var e := entries[0];
    if Captured(e) {
      if OutputName(e.path) != key {
        var next := files[OutputName(e.path) := Record(CaptureRecord(e.path, e.content.value, types, name))];
        WalkWritesOnlyCaptured(next, entries[1..], types, name, key);
        var i :| 0 <= i < |entries[1..]| && Captured(entries[1..][i]) && OutputName(entries[1..][i].path) == key;
        assert entries[i + 1] == entries[1..][i];
      } else {
        assert Captured(entries[0]);
      }
    } else {
      WalkWritesOnlyCaptured(files, entries[1..], types, name, key);
      var i :| 0 <= i < |entries[1..]| && Captured(entries[1..][i]) && OutputName(entries[1..][i].path) == key;
      assert entries[i + 1] == entries[1..][i];
    }
  }

  /** Entries that do not write `key` leave it as it was. */
  lemma {:induction false} WalkFrame(files: map<string, StoredFile>, entries: seq<WalkEntry>, types: seq<string>, name: string, key: string)
    requires forall i :: 0 <= i < |entries| && Captured(entries[i]) ==> OutputName(entries[i].path) != key
    requires key in files
    ensures var r := Walk(files, entries, types, name).0; key in r && r[key] == files[key]
    decreases |entries|
  {
    if entries != [] {
      var e := entries[0];
      assert forall i :: 1 <= i < |entries| ==> entries[i] == entries[1..][i - 1];
      if Captured(e) {
        var next := files[OutputName(e.path) := Record(CaptureRecord(e.path, e.content.value, types, name))];
        WalkFrame(next, entries[1..], types, name, key);
      } else if !Fails(e) {
        WalkFrame(files, entries[1..], types, name, key);
      }
    }
  }

  /**
    Two sources with the same base name share an output file, and the one
    visited later wins.
   */
  lemma LaterCaptureWins(files: map<string, StoredFile>, a: seq<WalkEntry>, p: string, c: string, b: seq<WalkEntry>, types: seq<string>, name: string)
    requires Walk(files, a, types, name).1.None?
    requires forall i :: 0 <= i < |b| && Captured(b[i]) ==> Base(b[i].path) != Base(p)
    ensures var r := Walk(files, a + [Visit(p, false, Some(c))] + b, types, name).0;
            OutputName(p) in r && r[OutputName(p)] == Record(CaptureRecord(p, c, types, name))
  {
    var e := Visit(p, false, Some(c));
    WalkConcat(files, a, [e] + b, types, name);
    assert a + [e] + b == a + ([e] + b);
    var fa := Walk(files, a, types, name).0;
    var next := fa[OutputName(p) := Record(CaptureRecord(p, c, types, name))];
    assert ([e] + b)[0] == e && ([e] + b)[1..] == b;
    forall i | 0 <= i < |b| && Captured(b[i]) ensures OutputName(b[i].path) != OutputName(p) {
      OutputNameByBase(b[i].path, p);
    }
    WalkFrame(next, b, types, name, OutputName(p));
  }

  /** `DeleteTemplates`: removes the named files one by one; the first that is not there stops it. */
  function RemoveAll(files: map<string, StoredFile>, names: seq<string>): (map<string, StoredFile>, Option<Error>)
    decreases |names|
  {
    if names == [] then (files, None)
    else if names[0] !in files then (files, Some(RemoveFailed(names[0])))
    else RemoveAll(files - {names[0]}, names[1..])
  }

  /** Removal only removes: every file left was there before, with the same content. */
  lemma {:induction false} RemoveAllOnlyRemoves(files: map<string, StoredFile>, names: seq<string>)
    ensures forall n :: n in RemoveAll(files, names).0 ==> n in files && RemoveAll(files, names).0[n] == files[n]
    decreases |names|
  {
    if names != [] && names[0] in files {
      RemoveAllOnlyRemoves(files - {names[0]}, names[1..]);
    }
  }

  /** Removing distinct names that are all present removes exactly those files. */
  lemma {:induction false} RemoveDistinctPresent(files: map<string, StoredFile>, names: seq<string>)
    requires forall i, j :: 0 <= i < j < |names| ==> names[i] != names[j]
    requires forall n :: n in names ==> n in files
    ensures RemoveAll(files, names) == (files - (set n | n in names), None)
    decreases |names|
  {
    if names == [] {
      assert (set n | n in names) == {};
      assert files - {} == files;
    } else {
      var rest := names[1..];
      assert forall n :: n in rest ==> n != names[0] by {
        forall n | n in rest ensures n != names[0] {
          var k :| 0 <= k < |rest| && rest[k] == n;
          assert names[k + 1] == n;
        }
      }
      assert forall i, j :: 0 <= i < j < |rest| ==> rest[i] != rest[j] by {
        forall i, j | 0 <= i < j < |rest| ensures rest[i] != rest[j] {
          assert rest[i] == names[i + 1] && rest[j] == names[j + 1];
        }
      }
      RemoveDistinctPresent(files - {names[0]}, rest);
      assert (set n | n in names) == {names[0]} + set n | n in rest;
      assert files - {names[0]} - (set n | n in rest) == files - set n | n in names;
    }
  }

  /** A name listed twice cannot be removed the second time. */
  lemma RemoveTwiceFails(files: map<string, StoredFile>, n: string)
    requires n in files
    ensures RemoveAll(files, [n, n]) == (files - {n}, Some(RemoveFailed(n)))
  {
    assert [n, n][1..] == [n];
    assert [n][1..] == [];
  }

  /**
    What `CreateTemplate` leaves in the directory and reports: a missing
    target is an error, a regular file is captured alone, and a directory
    is walked.
   */
  function CreatedTemplate(files: map<string, StoredFile>, templatePath: string, target: CaptureTarget,
                    types: seq<string>, projectName: string): (map<string, StoredFile>, Option<Error>)
  {
    match target
    case Missing => (files, Some(SourceUnreadable(templatePath)))
    case RegularFile(content) => Walk(files, [Visit(templatePath, false, content)], types, projectName)
    case Directory(entries) => Walk(files, entries, types, projectName)
  }

  /** The templates directory. */
  class TemplateStore {
    /** Whether template_util/templates exists. */
    var present: bool
    /** Its files by name. */
    var files: map<string, StoredFile>

    /** A directory that does not exist holds no files. */
    ghost predicate Valid()
      reads this
    {
      !present ==> files == map[]
    }

    /** `order` is the directory listing as `os.ReadDir` returns it: every name once, sorted. */
    ghost predicate IsListing(order: seq<string>)
      reads this
    {
      (forall n :: n in order <==> n in files) && Sorted(order)
    }

    constructor (present: bool, files: map<string, StoredFile>)
      requires !present ==> files == map[]
      ensures Valid() && this.present == present && this.files == files
    {
      this.present := present;
      this.files := files;
    }

    /**
      `processFile`: reads the source, captures the project name, and stores
      the record under the source's base name plus ".json", replacing any
      file of that name.
     */
    method CaptureFile(path: string, content: Option<string>, types: seq<string>, projectName: string)
      returns (err: Option<Error>)
      requires present && Valid()
      modifies this
      ensures present && Valid()
      ensures content.None? ==> err == Some(SourceUnreadable(path)) && files == old(files)
      ensures content.Some? ==>
                err == None && files == old(files)[OutputName(path) := Record(CaptureRecord(path, content.value, types, projectName))]
    {
      if content.None? {
        return Some(SourceUnreadable(path));
      }
      var record := CaptureRecord(path, content.value, types, projectName);
      var fileName := OutputName(path);
      files := files[fileName := Record(record)];
      return None;
    }

    /**
      `processDirectory`: the walk callback returns the first error, which
      ends the walk; directories are skipped and every other entry is
      captured.
     */
    method CaptureDirectory(entries: seq<WalkEntry>, types: seq<string>, projectName: string)
      returns (err: Option<Error>)
      requires present && Valid()
      modifies this
      ensures present && Valid()
      ensures (files, err) == Walk(old(files), entries, types, projectName)
    {
      for i := 0 to |entries|
        invariant present && Valid()
        invariant Walk(old(files), entries, types, projectName) == Walk(files, entries[i..], types, projectName)
      {
        assert entries[i..][1..] == entries[i + 1..];
        match entries[i]
        case WalkError(p) =>
          return Some(WalkFailed(p));
        case Visit(p, isDir, content) =>
          if !isDir {
            err := CaptureFile(p, content, types, projectName);
            if err.Some? {
              return err;
            }
          }
      }
      return None;
    }

    /**
      `CreateTemplate`: creates the templates directory, then captures the
      target as a single file or as a directory tree. A missing target is an
      error, reported after the directory was created.
     */
    method CreateTemplate(templatePath: string, target: CaptureTarget, types: seq<string>, projectName: string)
      returns (err: Option<Error>)
      requires Valid()
      modifies this
      ensures present && Valid()
      ensures (files, err) == CreatedTemplate(old(files), templatePath, target, types, projectName)
    {
      present := true;
      match target
      case Missing =>
        return Some(SourceUnreadable(templatePath));
      case RegularFile(content) =>
        assert [Visit(templatePath, false, content)][1..] == [];
        err := CaptureFile(templatePath, content, types, projectName);
        assert (files, err) == Walk(old(files), [Visit(templatePath, false, content)], types, projectName);
      case Directory(entries) =>
        err := CaptureDirectory(entries, types, projectName);
    }

    /**
      `UpdateTemplate`: writes the record `{templateName, content, types}` to
      `<templateName>.json`; this fails when the templates directory does not
      exist, since it is not created here.
     */
    method UpdateTemplate(templateName: string, content: string, types: seq<string>) returns (err: Option<Error>)
      requires Valid()
      modifies this
      ensures present == old(present) && Valid()
      ensures !present ==> err == Some(WriteFailed(templateName + JsonSuffix)) && files == old(files)
      ensures present ==> err == None && files == old(files)[templateName + JsonSuffix := Record(Template(templateName, content, types))]
    {
      if !present {
        return Some(WriteFailed(templateName + JsonSuffix));
      }
      files := files[templateName + JsonSuffix := Record(Template(templateName, content, types))];
      return None;
    }

    /** `DeleteTemplates`: removes the named files in turn, stopping at the first that is not there. */
    method DeleteTemplates(names: seq<string>) returns (err: Option<Error>)
      requires Valid()
      modifies this
      ensures present == old(present) && Valid()
      ensures (files, err) == RemoveAll(old(files), names)
    {
      RemoveAllOnlyRemoves(files, names);
      assert names[0..] == names;
      for i := 0 to |names|
        invariant present == old(present)
        invariant RemoveAll(old(files), names) == RemoveAll(files, names[i..])
      {
        assert names[i..][1..] == names[i + 1..];
        if names[i] !in files {
          return Some(RemoveFailed(names[i]));
        }
        files := files - {names[i]};
      }
      return None;
    }

    /** `GetTemplates`: the names in the directory listing that end in ".json", in listing order. */
    method GetTemplates(order: seq<string>) returns (r: Result<seq<string>, Error>)
      requires present ==> IsListing(order)
      ensures !present ==> r == Err(TemplateDirUnreadable)
      ensures present ==> r == Ok(JsonNames(order))
      ensures r.Ok? ==> Sorted(r.value) && forall n :: n in r.value <==> n in files && HasSuffix(n, JsonSuffix)
    {
      if !present {
        return Err(TemplateDirUnreadable);
      }
      var templates := [];
      for i := 0 to |order|
        invariant templates == JsonNames(order[..i])
      {
        assert order[..i + 1][..i] == order[..i];
        if HasSuffix(order[i], JsonSuffix) {
          templates := templates + [order[i]];
        }
      }
      assert order[..|order|] == order;
      JsonNamesSorted(order);
      return Ok(templates);
    }
  }

  /**
    A captured file is stored under a name that `GetTemplates` lists, so
    project creation considers it.
   */
  lemma CapturedAreListed(files: map<string, StoredFile>, order: seq<string>, path: string)
    requires OutputName(path) in files
    requires forall n :: n in order <==> n in files
    ensures OutputName(path) in JsonNames(order)
  {
  }
}
