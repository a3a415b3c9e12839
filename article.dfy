/** The article record and the partial shapes the store merges into it. */
module ArticleTypes {
  import opened Wrappers

  /** A blog article. The fields a source document's frontmatter may leave
      out are optional; `id`, `content` and `views` are always set by the
      store. */
  datatype Article = Article(
    id: int,
    title: Option<string>,
    content: string,
    summary: Option<string>,
    author: Option<string>,
    date: Option<string>,
    updatedDate: Option<string>,
    category: Option<string>,
    tags: Option<seq<string>>,
    views: int)

  /** Any subset of an article's fields: frontmatter, or the updates of an
      edit. `None` is a key that is not present. */
  datatype Patch = Patch(
    id: Option<int>,
    title: Option<string>,
    content: Option<string>,
    summary: Option<string>,
    author: Option<string>,
    date: Option<string>,
    updatedDate: Option<string>,
    category: Option<string>,
    tags: Option<seq<string>>,
    views: Option<int>)

  /** An article without its `id` and `views`, as handed to the store when
      one is created. */
  datatype Draft = Draft(
    title: string,
    content: string,
    summary: string,
    author: string,
    date: string,
    updatedDate: Option<string>,
    category: string,
    tags: seq<string>)

  /** One source document: its parsed frontmatter and its body. */
  datatype Source = Source(frontmatter: Patch, content: string)

  /** The patch that carries no key at all. */
  const EmptyPatch := Patch(None, None, None, None, None, None, None, None, None, None)
}
