# Flutter Assist, modelled in Dafny

Flutter Assist is a command-line helper for Flutter projects. Next to its
executable it keeps three pieces of state:

- a package catalog, `template_util/packages.json`;
- a list of project types, `template_util/template_for.json`;
- a directory of captured templates, `template_util/templates/`, one JSON
  record per source file.

`flutter_assist <name>` asks which project types the new project has. It
then runs `flutter create <name>` and `flutter pub add` for every package
tagged `ALL` or with a chosen type. Last, it writes every stored template
whose tags call for it, with the placeholder `{FLUTTER_ASSIST}` replaced by
the project name. `-t <path>` captures a file or a directory tree as
templates. It replaces the old project name by the placeholder. `-p`, `-tf`,
`-tdelete`, `-tfdelete` and `-pdelete` add to and delete from the catalogs
through numbered menus.

The model has one module per concern:

| module | file | models |
|---|---|---|
| `Text` | text.dfy | the Go library calls the tool relies on: `strings.TrimPrefix`, `filepath.Base`, `strings.Fields`, `strconv.Atoi`, `%d`, name order |
| `Replace` | replace.dfy | `strings.ReplaceAll`, including its empty-pattern behaviour |
| `Placeholder` | placeholder.dfy | capture and materialisation of the project name, and their round trip |
| `Entities`, `Errors`, `Wrappers` | entities.dfy, errors.dfy, wrappers.dfy | the records, the failures, `Option`/`Result` |
| `Named` | named.dfy | the name search and the rebuild-without-these-names loops every catalog uses |
| `Tags` | tags.dfy | `contains`, `hasAnyType`, the package filter and `shouldProcess` |
| `Catalog` | catalog.dfy | class `CatalogStore` (both catalog files) and class `Project` |
| `Templates` | templates.dfy | class `TemplateStore` (the templates directory), `processFile`, `processDirectory`, `GetTemplates`, `DeleteTemplates` |
| `Orchestrator` | orchestrator.dfy | `CreateProject` as a trace of actions decided by a success oracle |
| `Selector` | selector.dfy | the numbered menus of the command line |
| `Cli` | cli.dfy | the flag chain of `main` and each mode |

Catalog files are modelled by what their JSON decodes to, not by bytes. In
`template_for.json` the model tells the object form `{"types": [...]}` apart
from a bare array. A file read and a directory listing are the fields of a
class, which the operations update. Outside effects are inputs: the PWD
variable, the typed answers, the result of `os.Stat` and the directory walk.
An oracle `ok: Action -> bool` decides whether a `flutter` command, a change
of directory or a file write succeeds.

Behaviour of the code worth noting:

- captured files are stored as `<base name of source>.json`, not under a
  template name;
- the round trip of capture and materialisation needs a non-empty project
  name and no placeholder already in the file (`Placeholder.RoundTrip`,
  `Placeholder.RoundTripNeedsNoToken`);
- `-tf` is a boolean flag whose name is the first positional argument;
- `CreateProject` changes into the PWD directory before `flutter create`;
- single-choice menus return an arbitrary chosen item (a Go map is read),
  not the first one.

## Model

| member | source | states |
|---|---|---|
| Text.TrimPrefix | internal/template/template.go:181 | one leading copy of the prefix is removed when present; otherwise the string is unchanged |
| Text.TrimOneSlash | internal/template/template.go:181 | a stored path loses exactly one leading `/`; a second slash is kept |
| Text.Base | internal/template/template.go:193 | `filepath.Base` is never empty and is `/` or has no slash |
| Text.BaseIsFinalSegment | internal/template/template.go:193 | for a path not ending in `/`, Base is its final segment after the last slash |
| Text.Fields | cmd/flutter_assist/main.go:81 | every field of `strings.Fields` is non-empty and free of Unicode white space |
| Text.FieldsKeepNonSpace | cmd/flutter_assist/main.go:81 | the fields, joined, are the input with only the white space removed |
| Text.FieldsOfField | cmd/flutter_assist/main.go:81 | a token without white space is one field, itself |
| Text.WordBeforeSpace | cmd/flutter_assist/main.go:81 | a word ends at the first white-space character after it |
| Text.FieldsSplitAtSpace | cmd/flutter_assist/main.go:81 | every white-space character separates fields: the fields around it are those of each side |
| Text.FieldsSplitAfterWord | cmd/flutter_assist/main.go:81 | the step of the split for input that starts with a word |
| Text.Itoa | cmd/flutter_assist/main.go:70 | a printed menu number is a non-empty string of decimal digits |
| Text.Atoi | cmd/flutter_assist/main.go:83 | `strconv.Atoi`: an optional sign and at least one digit, else no number; `AtoiOfItoa` and `AtoiRejects` pin it |
| Text.AtoiOfItoa | cmd/flutter_assist/main.go:83 | `strconv.Atoi` reads a printed number back, also with `+` or `-` in front |
| Text.AtoiRejects | cmd/flutter_assist/main.go:83-86 | a token with a character other than a digit or a leading sign is rejected |
| Replace.ReplaceAll | internal/template/template.go:173 | `strings.ReplaceAll`: left-to-right non-overlapping replacement, and for an empty pattern the replacement at every boundary; pinned by the `Replace` lemmas below |
| Replace.ReplaceAbsent | internal/template/template.go:173 | when the name does not occur, capture leaves the content unchanged |
| Replace.ReplaceWithItself | internal/template/template.go:173 | replacing a string by itself is the identity, the empty pattern included |
| Replace.ReplaceChars | internal/project/project.go:186 | every character of the result comes from the content or the replacement |
| Replace.ReplaceWhole | internal/project/project.go:186 | content that is exactly the pattern becomes exactly the replacement |
| Replace.EmptyPatternExample | internal/template/template.go:173 | an empty search string inserts the replacement at every boundary: "ab" gives "XaXbX" |
| Placeholder.Capture | internal/template/template.go:173 | capture replaces every occurrence of the project name by `{FLUTTER_ASSIST}`; its round trip is `RoundTrip` |
| Placeholder.Materialise | internal/project/project.go:186 | materialising replaces every `{FLUTTER_ASSIST}` by the project name; see `CaptureThenMaterialise`, `NoResidualPlaceholder` |
| Placeholder.TokenShape | internal/project/project.go:186 | the placeholder is 16 characters and opens with its only `{` |
| Placeholder.CaptureThenMaterialise | internal/template/template.go:173 | capture under one name then materialise under another renames directly, when the content held no placeholder |
| Placeholder.RoundTrip | internal/template/template.go:173 | capture then materialise with the same non-empty name returns the original content, when it held no placeholder |
| Placeholder.NoResidualPlaceholder | internal/project/project.go:186 | with no `{` in the content or the new name, no placeholder is left after materialising |
| Placeholder.RoundTripNeedsNoToken | internal/template/template.go:173 | without the no-placeholder condition the round trip fails: a file that is the placeholder comes back as the name |
| Placeholder.EmptyNameCapture | internal/template/template.go:173 | an empty project name puts a placeholder around every character |
| Named.Without | internal/project/project.go:693-705 | the kept entries are exactly the entries whose name is not dropped, and no more than before |
| Named.FindName | internal/project/project.go:478-482 | the duplicate search finds a name exactly when an entry carries it |
| Named.DropName | internal/project/project.go:441-446 | the single-name delete loop keeps exactly the entries with another name, in order |
| Named.DropNames | internal/project/project.go:693-705 | the nested `shouldDelete` loop keeps exactly the entries whose name is not listed, in order |
| Named.WithoutTwice | internal/project/project.go:693-705 | deleting one set of names and then another is deleting both at once |
| Named.WithoutIdempotent | internal/project/project.go:693-705 | deleting the same names twice equals deleting them once |
| Named.WithoutUnknown | internal/project/project.go:693-705 | names no entry carries have no effect |
| Named.WithoutConcat | internal/project/project.go:693-705 | deletion works segment by segment, so the kept entries stay in their order |
| Named.AppendKeepsUnique | internal/project/project.go:478-488 | appending under a name not yet present keeps names unique |
| Named.WithoutKeepsUnique | internal/project/project.go:441-446 | deleting keeps names unique |
| Tags.PackageWanted | internal/project/project.go:76-87 | a package is wanted when tagged `ALL` or with a selected type; `SelectPackages` is proved against it |
| Tags.TemplateWanted | internal/project/project.go:125-131 | a template is wanted under the same test; `ShouldProcess` is proved against it |
| Tags.FilterPackages | internal/project/project.go:73-88 | the wanted packages in catalog order; characterised by `FilterMembership`, `FilterMultiplicity`, `FilterConcat` |
| Tags.Contains | internal/project/project.go:268-275 | `contains` is true exactly when the item is in the slice |
| Tags.HasAnyType | internal/project/project.go:278-287 | `hasAnyType` is true exactly when the two lists share a tag |
| Tags.SelectPackages | internal/project/project.go:73-88 | the filter loop with its `continue` and `break` computes `FilterPackages` |
| Tags.ShouldProcess | internal/project/project.go:125-131 | a template is processed exactly when one of its tags is selected or is `ALL` |
| Tags.HasAnyTypeIsInnerLoop | internal/project/project.go:278-287 | the unused `hasAnyType` decides the filter's inner loop: wanted iff `ALL` or a shared tag |
| Tags.TemplateTestIsPackageTest | internal/project/project.go:125-131 | the template test and the package test agree on every tag list |
| Tags.UntaggedTemplateSkipped | internal/project/project.go:125-131 | a template with no tags is never processed |
| Tags.FilterMembership | internal/project/project.go:73-88 | a package is kept iff it is in the catalog and tagged `ALL` or with a selected type |
| Tags.FilterConcat | internal/project/project.go:73-88 | the filter works segment by segment, so kept packages stay in catalog order |
| Tags.FilterMultiplicity | internal/project/project.go:73-88 | a kept package appears exactly as often as in the catalog |
| Tags.NoSelectionKeepsAllTagged | internal/project/project.go:76-87 | with no type selected exactly the `ALL` packages are kept |
| Tags.FilterMonotone | internal/project/project.go:81-87 | selecting more types never drops a package |
| Tags.FilterExample | internal/project/project.go:73-88 | http (ALL) and bloc (state): selecting state keeps both, selecting nothing keeps http |
| Catalog.ReadPackages | internal/project/project.go:650-675 | packages.json decodes to its list, a missing file to the empty list, an unreadable one to an error |
| Catalog.ReadTemplateFor | internal/project/project.go:730-747 | template_for.json decodes iff readable and not a non-empty bare array; missing or `null` is empty |
| Catalog.CatalogStore.GetPackages | internal/project/project.go:650-675 | a missing packages.json is the empty catalog; an unreadable one is an error |
| Catalog.CatalogStore.PackageList | internal/project/project.go:650-675 | the catalog the store holds, decoded as `GetPackages` decodes it |
| Catalog.CatalogStore.AddPackage | internal/project/project.go:462-507 | a duplicate or read error leaves the catalog unchanged; otherwise the package is appended; names stay unique |
| Catalog.CatalogStore.DeletePackages | internal/project/project.go:678-718 | keeps exactly the packages not named, in order; names stay unique |
| Catalog.CatalogStore.DeletePackage | internal/project/project.go:425-459 | removes every package with that name and keeps the rest in order |
| Catalog.CatalogStore.GetTemplateFors | internal/project/project.go:721-748 | returns the decoded list: missing file empty, bare array unreadable |
| Catalog.CatalogStore.GetTemplateTypes | internal/project/project.go:290-318 | reads the same file with the same decoding as `GetTemplateFors` |
| Catalog.CatalogStore.TypeList | internal/project/project.go:730-747 | the "template for" list the store holds, decoded as both readers decode it |
| Catalog.CatalogStore.AddTemplateFor | internal/project/project.go:551-603 | rejects an existing name; otherwise appends `{name, "Template for " + name}` in object form, which reads back |
| Catalog.CatalogStore.DeleteTemplateFor | internal/project/project.go:751-792 | removes every entry with that name in object form, which reads back |
| Catalog.CatalogStore.AddType | internal/project/project.go:510-548 | as written: appends but writes a bare array, after which the list no longer reads |
| Catalog.CatalogStore.DeleteType | internal/project/project.go:370-403 | as written: writes a bare array, which reads back only when it is empty |
| Catalog.CatalogStore.AddTypeCorrected | internal/project/project.go:510-548 | with the object form: the appended list reads back and names stay unique |
| Catalog.CatalogStore.DeleteTypeCorrected | internal/project/project.go:370-403 | with the object form: the remaining list reads back and names stay unique |
| Catalog.AddTypeThenReadFails | internal/project/project.go:538 | after `AddType("bloc", …)` on a fresh store, `GetTemplateFors` fails |
| Catalog.AddTypeCorrectedThenRead | internal/project/project.go:580-587 | the corrected `AddType` followed by `GetTemplateFors` returns the new entry |
| Catalog.SingleDeleteIsListDelete | internal/project/project.go:441-446 | deleting one name equals deleting the one-element list of names |
| Catalog.Project.AddPackage | internal/project/project.go:199-214 | a missing project packages.json is an error; a duplicate is rejected; otherwise the package is appended |
| Catalog.Project.GetPackagesByTypes | internal/project/project.go:216-240 | computes the same filter as project creation, or the read error |
| Templates.CaptureRecord | internal/template/template.go:173-184 | the record keeps the types as given and the path minus at most one leading `/`; the content is taken as text (see "## Left out") |
| Templates.RecordRoundTrip | internal/template/template.go:173 | for a text source (valid UTF-8, no placeholder), a stored record materialised under its capture name gives back the original content |
| Templates.OutputName | internal/template/template.go:193 | the output name ends in `.json` and its stem is the base name of the source |
| Templates.OutputNameByBase | internal/template/template.go:193-195 | two sources share an output file iff they have the same base name |
| Templates.JsonNames | internal/project/project.go:620-625 | the listed templates are exactly the names ending in `.json` |
| Templates.JsonNamesSorted | internal/project/project.go:615-625 | keeping the `.json` names of a sorted listing leaves it sorted |
| Templates.Walk | internal/template/template.go:204-213 | the files and the error `filepath.Walk` with `processDirectory` leaves; characterised by the `Walk` lemmas below |
| Templates.WalkConcat | internal/template/template.go:204-213 | walking two lists in turn is walking their concatenation; an error in the first ends it |
| Templates.WalkSucceeds | internal/template/template.go:204-213 | the walk ends without error iff no entry is a walk error or an unreadable file |
| Templates.WalkReportsFirstFailure | internal/template/template.go:205-207 | a failing walk returns the error of its first failing entry |
| Templates.WalkWritesOnlyCaptured | internal/template/template.go:209-211 | every file the walk writes is the output name of a captured non-directory entry |
| Templates.WalkFrame | internal/template/template.go:209-212 | files that no entry writes keep their content |
| Templates.LaterCaptureWins | internal/template/template.go:193-195 | of two sources with the same base name the later one is what is stored |
| Templates.RemoveAll | internal/project/project.go:640-646 | `os.Remove` of each name in turn, stopping at the first that is missing |
| Templates.RemoveAllOnlyRemoves | internal/project/project.go:640-646 | removal only removes: every file left was there before, unchanged |
| Templates.RemoveDistinctPresent | internal/project/project.go:640-646 | removing distinct present names removes exactly those files, without error |
| Templates.RemoveTwiceFails | internal/project/project.go:640-646 | a name listed twice fails on its second removal |
| Templates.TemplateStore.CaptureFile | internal/template/template.go:165-200 | an unreadable source is an error; otherwise the record is stored under the output name |
| Templates.TemplateStore.CaptureDirectory | internal/template/template.go:203-214 | the walk loop leaves the directory and the error exactly as `Walk` describes |
| Templates.CreatedTemplate | internal/template/template.go:19-51 | what `CreateTemplate` leaves: a missing target is an error with nothing written, a file is captured alone, a directory is walked |
| Templates.TemplateStore.CreateTemplate | internal/template/template.go:19-51 | creates the directory (so it is valid), then leaves the files and the error `CreatedTemplate` gives |
| Templates.TemplateStore.UpdateTemplate | internal/template/template.go:129-162 | writes `{templateName, content, types}` to `<templateName>.json`; fails when the directory is missing |
| Templates.TemplateStore.DeleteTemplates | internal/project/project.go:631-647 | removes the names in turn, stopping at the first that is not there |
| Templates.TemplateStore.GetTemplates | internal/project/project.go:606-628 | an unreadable directory is an error; otherwise the sorted `.json` names of the directory |
| Templates.CapturedAreListed | internal/project/project.go:109-110 | every captured file is stored under a name that the template listing keeps |
| Orchestrator.Launch | internal/project/project.go:34-64 | the actions up to entering the project directory; see `LaunchShape`, `GenerateFirst` |
| Orchestrator.PackagePhase | internal/project/project.go:66-99 | read the catalog, then install the filtered packages; see `InstallsFollowFilter` |
| Orchestrator.InstallAll | internal/project/project.go:92-99 | one install per package until the first failure; see `InstallAllShape`, `InstallLoop` |
| Orchestrator.TemplatePhase | internal/project/project.go:101-146 | list the templates, write the wanted ones, return to PWD; see `TemplatePhaseWellFormed` |
| Orchestrator.MaterialiseAll | internal/project/project.go:109-141 | the template loop as a function; see `MaterialiseWellFormed`, `MaterialiseWritesWanted`, `MaterialiseComplete` |
| Orchestrator.Leave | internal/project/project.go:144-146 | the return to the starting directory, its own `ReturnDir` action, which can fail with the starting directory as the error; see `LeaveShape`, `ReturnCanFail` |
| Orchestrator.CreateProjectRun | internal/project/project.go:32-151 | the whole run as phases chained on success; see `RunStopsAtFailure`, `WritesAreMaterialisedTemplates` |
| Orchestrator.ThenWellFormed | internal/project/project.go:54-57 | running a step only after the previous one succeeded keeps a run stopping at its first failure |
| Orchestrator.InstallAllShape | internal/project/project.go:92-99 | one `flutter pub add` per package in order, up to and including the first failure, which names its package |
| Orchestrator.MaterialiseWellFormed | internal/project/project.go:109-141 | the template loop stops at its first failed write or undecodable `.json` file |
| Orchestrator.MaterialiseWritesWanted | internal/project/project.go:109-139 | every write is a listed `.json` template whose tags call for it, materialised at its stored path |
| Orchestrator.MaterialiseComplete | internal/project/project.go:109-141 | a loop without error decoded every `.json` name and wrote every wanted template |
| Orchestrator.LaunchShape | internal/project/project.go:34-64 | enter PWD, `flutter create`, enter the project, in that order; a failed generate ends the run |
| Orchestrator.LeaveShape | internal/project/project.go:144-146 | the last step is exactly one `ReturnDir(pwd)`, and it fails exactly when the oracle rejects it |
| Orchestrator.TemplatePhaseWellFormed | internal/project/project.go:101-146 | the template phase stops at its first failure and, when it succeeds, its last action is `ReturnDir(pwd)` |
| Orchestrator.RunStopsAtFailure | internal/project/project.go:32-151 | no action follows a failed one; a run without error had every action succeed and its last action is `ReturnDir(pwd)` |
| Orchestrator.ReturnCanFail | internal/project/project.go:144-146 | after a successful entry, generation and entry into the project, a rejected return gives the four-action trace ending in `ReturnDir(pwd)` and the error for the starting directory |
| Orchestrator.GenerateFirst | internal/project/project.go:50-57 | `flutter create` is issued right after entering PWD; if it fails nothing else runs |
| Orchestrator.InstallsFollowFilter | internal/project/project.go:66-99 | after the launch, installs follow the filtered catalog; a failed install is the last action and nothing is written |
| Orchestrator.WritesAreMaterialisedTemplates | internal/project/project.go:109-139 | every file written is a wanted listed template; a run without error writes all of them |
| Orchestrator.CreateProject | internal/project/project.go:32-151 | the step-by-step method produces exactly the trace and error of `CreateProjectRun` |
| Orchestrator.InstallLoop | internal/project/project.go:92-99 | the install loop produces exactly `InstallAll` |
| Orchestrator.TemplateLoop | internal/project/project.go:109-141 | the template loop produces exactly `MaterialiseAll` |
| Selector.Pick | cmd/flutter_assist/main.go:83-86 | a token is accepted iff it parses as an integer between 1 and the menu length |
| Selector.ChosenBy | cmd/flutter_assist/main.go:80-88 | the set of items the tokens select; characterised by `ChosenByMembership` |
| Selector.ChosenByMembership | cmd/flutter_assist/main.go:80-88 | an item is selected iff some accepted token is its menu number |
| Selector.ChosenAreItems | cmd/flutter_assist/main.go:80-88 | every selected item is a menu item |
| Selector.MenuNumberSelects | cmd/flutter_assist/main.go:69-88 | typing the number the menu prints for an item selects exactly that item |
| Selector.RepeatCollapses | cmd/flutter_assist/main.go:80-88 | repeating a token selects nothing more |
| Selector.ChosenByNames | cmd/flutter_assist/main.go:394-399 | a menu of entry names selects the names of the entries the same input selects |
| Selector.ParseSelection | cmd/flutter_assist/main.go:79-88 | the parsing loop computes the selected set `ChosenBy` |
| Selector.CollectNames | cmd/flutter_assist/main.go:395-398 | the menu lists the entry names in order |
| Selector.TypeSelection | cmd/flutter_assist/main.go:319-357 | a list holds the names of the chosen entries, each once, in some order |
| Selector.TypeSelectionEmpty | cmd/flutter_assist/main.go:200-206 | a type selection is empty exactly when the input selects no entry |
| Selector.SelectTypes | cmd/flutter_assist/main.go:319-357 | no types on a read error; otherwise a `TypeSelection` of the chosen entries |
| Selector.SelectFromList | cmd/flutter_assist/main.go:359-392 | `""` when nothing valid was typed; otherwise some selected item |
| Selector.SelectFromTemplateTypes | cmd/flutter_assist/main.go:394-400 | `""` when nothing valid was typed; otherwise the name of a chosen entry |
| Selector.SelectFromPackages | cmd/flutter_assist/main.go:402-408 | `""` when nothing valid was typed; otherwise the name of a chosen package |
| Selector.SelectionExample | cmd/flutter_assist/main.go:80-88 | items A, B, C with input "1 3" select {A, C} |
| Selector.NothingSelectedExample | cmd/flutter_assist/main.go:80-88 | items A, B, C with input "5 x" select nothing |
| Cli.Dispatch | cmd/flutter_assist/main.go:43-316 | the flag if-chain; `DispatchPicksFirstRequested` states which mode it picks |
| Cli.DispatchPicksFirstRequested | cmd/flutter_assist/main.go:43-316 | exactly one mode runs: the first requested in the order tdelete, tfdelete, pdelete, tf, t, p, project, usage |
| Cli.TypesAskedForThreeModes | cmd/flutter_assist/main.go:200-208 | past the first four modes, types are asked for exactly in the template, package and project modes |
| Cli.Reported | cmd/flutter_assist/main.go:214-223 | an error ends a mode as a failure; no error is success |
| Cli.TemplatesDeleted | cmd/flutter_assist/main.go:43-105 | the template-delete effect: unreadable directory an error, empty listing nothing to delete, else exactly the chosen files removed |
| Cli.DeletedOneChosen | cmd/flutter_assist/main.go:108-163 | a single-choice delete removes the entries named like some chosen entry, or those named `""` when nothing was chosen |
| Cli.TemplateForDeleted | cmd/flutter_assist/main.go:108-134 | the "template for" delete effect: read error or empty list change nothing, else `DeletedOneChosen` |
| Cli.PackagesDeleted | cmd/flutter_assist/main.go:137-163 | the package delete effect: read error or empty catalog change nothing, else `DeletedOneChosen` |
| Cli.TemplateForAdded | cmd/flutter_assist/main.go:166-198 | the "template for" add effect: no name changes nothing, success iff the name is new, and then the entry is appended |
| Cli.PackageAdded | cmd/flutter_assist/main.go:226-279 | the package add effect: no name changes nothing, success iff the name is new, and then the package is appended with the chosen types |
| Cli.DeleteTemplatesMode | cmd/flutter_assist/main.go:43-105 | keeps the directory valid and has the effect `TemplatesDeleted` |
| Cli.DeleteTemplateForMode | cmd/flutter_assist/main.go:108-134 | leaves packages.json alone and has the effect `TemplateForDeleted` |
| Cli.DeletePackageMode | cmd/flutter_assist/main.go:137-163 | leaves template_for.json alone and has the effect `PackagesDeleted` |
| Cli.AddTemplateForMode | cmd/flutter_assist/main.go:166-198 | leaves packages.json alone and has the effect `TemplateForAdded` |
| Cli.AddPackageMode | cmd/flutter_assist/main.go:226-279 | leaves template_for.json alone and has the effect `PackageAdded`; the "could not be added" branch after re-reading can never be taken |
| Cli.Run | cmd/flutter_assist/main.go:25-317 | the mode `Dispatch` picks is the one that runs: each delete and add mode has its effect and leaves the other files alone; no chosen type aborts the template, package and project modes without changes; otherwise the template mode leaves `CreatedTemplate` and the package mode `PackageAdded` for a `TypeSelection`, project creation performs exactly the actions of `CreateProjectRun` and changes no file, and usage changes nothing |

## Left out

- Templates.CaptureRecord: source files are taken to be valid UTF-8 text, and the stored content is the captured string unchanged. The program stores it through `json.MarshalIndent` (internal/template/template.go:187), which replaces every invalid UTF-8 byte by U+FFFD, so a binary source such as a PNG icon is altered when captured.
- Templates.RecordRoundTrip: holds for text sources only; a binary source is written back with its invalid bytes replaced by U+FFFD, so it does not round-trip.
- File contents and JSON are modelled as decoded values. Byte-level JSON, pretty-printing, Go's case-insensitive field matching and partially decodable files are not modelled. A template file that does not decode into a record is `Garbled`.
- These writes are taken to succeed: the catalog writes to packages.json and template_for.json, the `os.MkdirAll` of the templates directory (internal/template/template.go:34) and the capture writes (internal/template/template.go:195). So are `os.Executable` and the `os.Chdir` to the executable's directory in `main`.
- These can fail: every read and decode of a catalog, template or source file, `UpdateTemplate` when the templates directory is missing, and every project-creation action (change of directory, the return to the starting directory, `flutter` command, template write), as the oracle `ok` decides.
- Orchestrator.CreateProjectRun: the oracle `ok` decides by the action alone, so identical actions within one run share one result: the same package installed twice or the same file written twice both succeed or both fail. The entry into the starting directory and the return to it are different actions (`ChangeDir` and `ReturnDir`), so the return can fail after the entry succeeded.
- Printing, emoji and message texts are not modelled. Exit codes are folded into the `Outcome` of a run.
- Standard input is modelled as given strings: one line per menu, and one word for the project-name prompt of `-t`.
- `filepath.Join` and `filepath.Dir` are not modelled. The project directory is `pwd + "/" + name`, and writing a template creates its parent directories as part of one `WriteFile` action.
- Template names that contain `/` are flat keys of the directory map.
- `filepath.Walk` is an input list of entries. Symbolic links and the walk's own sort order are not modelled.
- `os.ReadDir` is an input listing, required to be every directory name once, sorted. The directory map holds only files, so a subdirectory of the templates directory whose name ends in `.json` cannot occur in the model; in the program it would be listed as a template, `os.Remove` would act on it and reading it during project creation would fail.
- `strconv.Atoi` works on unbounded integers. Go rejects values beyond 64 bits, which the menus would skip anyway.
- `strings.ReplaceAll` with an empty search string is modelled rather than excluded, because an empty answer at the project-name prompt reaches it.
- Not modelled: `GetAllPackages`, `GetAllTemplates`, `GetAllProjects`, `DeleteProject`, both `DeleteTemplate`s, `GetTemplate`, `GetTemplateTypes` of template.go, and the package-level `readPackages` and `CreateTemplate` of project.go. Nothing in the command line calls them, and each is one file-system call or one decode.
- Concurrent runs against the same catalog are not modelled.

## Findings

| source | as written | input that shows it | evidently intended | confidence | as-written member | corrected member |
|---|---|---|---|---|---|---|
| internal/project/project.go:538 | `AddType` (modelled by `Catalog.CatalogStore.AddType`) and `DeleteType` (project.go:393, `Catalog.CatalogStore.DeleteType`) write the list as a bare JSON array, but both readers decode `{"types": [...]}` | `AddType("bloc", "Bloc state management")` with no template_for.json, then `GetTemplateFors()` fails to decode the file | write the object form, as `AddTemplateFor` and `DeleteTemplateFor` do (`Catalog.CatalogStore.AddTypeCorrected`, `Catalog.CatalogStore.DeleteTypeCorrected`) | not executed | Catalog.AddTypeThenReadFails | Catalog.AddTypeCorrectedThenRead |
