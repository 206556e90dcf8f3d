/** The rows of the tables the modelled services read and write. Ids are
    Java `Long`s; only their equality matters here, so they are unbounded
    integers. */
module Domain {
  import opened Common

  /** A `template` row. `title` is a NOT NULL column; `description` may be
      NULL. `memberId` and `categoryId` are the ids of its owner and its
      category. */
  datatype Template = Template(
    id: int,
    memberId: int,
    categoryId: int,
    title: string,
    description: Option<string>)

  /** A `source_code` row: one file of a template. */
  datatype SourceCode = SourceCode(id: int, templateId: int, filename: string, content: string)

  /** A `tag` row. Tags are global: their names are shared by every template. */
  datatype Tag = Tag(id: nat, name: string)

  /** A `template_tag` row: the link between a template and one tag. */
  datatype TemplateTag = TemplateTag(templateId: int, tagId: nat)
}
