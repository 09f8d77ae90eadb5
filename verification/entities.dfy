/**
  The records the tool keeps in its JSON catalogs and template files
  (internal/project/project.go, internal/template/template.go).
 */
module Entities {

  /** A dependency package and the project types it applies to; the type "ALL" applies to every project. */
  datatype Package = Package(name: string, types: seq<string>)

  /** A "template for" entry: a type tag and its description. */
  datatype TemplateType = TemplateType(name: string, description: string)

  /**
    A stored template: the path the file is written to, its content with the
    project name replaced by the placeholder, and the type tags it applies to.
   */
  datatype Template = Template(path: string, content: string, types: seq<string>)

  function PackageName(p: Package): string {
    p.name
  }

  function TypeName(t: TemplateType): string {
    t.name
  }
}
