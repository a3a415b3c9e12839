# lweb-vue: article store and heading slugs, modelled in Dafny

This project models two pieces of the lweb-vue blog front end.

- **The article store** (`src/stores/articles.ts`). It holds an ordered
  collection of articles and offers six operations:
  - bulk initialisation from the source documents;
  - adding a draft at the front, with the id `max(ids, 0) + 1`;
  - updating by id, as a shallow merge that stamps the date part of the
    current ISO timestamp;
  - deleting by id;
  - lookup by id;
  - counting a view.

  Each collection operation is a function on `seq<Article>`: `Initialized`,
  `Added`, `Updated`, `Deleted`, `Find` and `Bumped`. The class
  `ArticleStore` holds the `articles` field, and each of its methods is
  specified by one of these functions. The lemmas next to the functions
  state what the source promises:
  - the new id is fresh;
  - only the first match changes;
  - an absent id is a no-op;
  - the order of the other articles is kept;
  - `n` views add `n`;
  - when ids stay unique.

- **Heading slugs and the heading list** (`src/utils/markdown.ts`).
  - `Slug` models the base slug: ASCII lower-casing, JavaScript `trim`, and
    each maximal run of characters outside `[A-Za-z0-9_]` and U+4E00..U+9FA5
    becoming one `-`. It also models the decimal suffix.
  - `Markdown` models three things:
    - the `slugMap` occurrence counter;
    - the `heading`, `paragraph` and `codespan` hooks;
    - `formatMarkdown`.
  - The parser is a sequence of events. `Render` is the function of one
    pass: it threads the slug map from event to event and collects the
    markup and the recorded headings.
  - The class `Renderer` holds the module-level `slugMap` and
    `headingsList`. Its `FormatMarkdown` loop is proved equal to `Render`.

Modules:
- `Wrappers` (`wrappers.dfy`): `Option`.
- `ArticleTypes` (`article.dfy`): `Article`, `Patch` (a `Partial<Article>`:
  frontmatter or updates), `Draft` (an `Omit<Article, 'id' | 'views'>`) and
  `Source`.
- `ArticlesStore` (`articles_store.dfy`).
- `Slug` (`slug.dfy`).
- `Markdown` (`markdown.dfy`).

Inputs that the source reads from its environment are parameters here:
- the discovered source documents, for `initArticle`;
- the ISO timestamp `today`, for `updateArticle`;
- the parser's event sequence, for `formatMarkdown`.

Where the code and its documented intent differ, the model follows the code:
- **Duplicate ids.** An update whose `Partial<Article>` carries an `id` or
  `views` key overrides that field, so two articles can end up with the same
  id (`UpdateCanDuplicateIds`). Uniqueness is therefore proved only under a
  precondition (`UpdatedKeepsUnique`). For the same reason, the view count
  need not grow. Initialisation can also give two articles one id, when a
  frontmatter id equals another source's index (`InitCanDuplicateIds`).
- **Colliding heading ids.** Heading ids are de-duplicated per base slug,
  not globally. The headings "A", "A", "a-1" get the ids `a`, `a-1`, `a-1`
  (`SlugCollisionExample`). What is proved is that headings sharing a base
  slug get distinct ids within one pass (`RenderHeadingsDistinct`).

## Model

| member | source | states |
|---|---|---|
| `ArticlesStore.FindIndex` | src/stores/articles.ts:32 | -1 exactly when no article has the id; otherwise an index holding the id with no earlier match |
| `ArticlesStore.Find` | src/stores/articles.ts:49-51 | absent exactly when no article has the id; otherwise an element of the collection with that id |
| `ArticlesStore.FindFirst` | src/stores/articles.ts:49-51 | any position holding the id is at or after the one found, and `Find` returns the article at that first position |
| `ArticlesStore.FindIndexSameIds` | src/stores/articles.ts:32 | lookup depends only on the sequence of ids |
| `ArticlesStore.FindIndexUnique` | src/stores/articles.ts:32 | with unique ids, the lookup of an article's id gives its own position |
| `ArticlesStore.FromSource` | src/stores/articles.ts:11-16 | the id is the index unless the frontmatter has one (the frontmatter wins); the body and a zero view count always win |
| `ArticlesStore.Initialized` | src/stores/articles.ts:10-17 | one article per source |
| `ArticlesStore.InitializedIds` | src/stores/articles.ts:10-17 | sources without a frontmatter id give ids 0..N-1 in input order with zero views and the source bodies, and the ids are unique |
| `ArticlesStore.InitializedFields` | src/stores/articles.ts:11-16 | every other frontmatter field is carried over; frontmatter `content` and `views` are overridden |
| `ArticlesStore.InitCanDuplicateIds` | src/stores/articles.ts:12-13 | a frontmatter id equal to another source's index gives two articles the same id |
| `ArticlesStore.MaxId` | src/stores/articles.ts:24 | non-negative, at least every id, and either 0 or some article's id |
| `ArticlesStore.NextId` | src/stores/articles.ts:24 | at least 1, greater than every existing id, and 1 for the empty collection |
| `ArticlesStore.FromDraft` | src/stores/articles.ts:22-26 | every field of the draft (title, content, summary, author, date, updated date, category, tags) with the given id and zero views |
| `ArticlesStore.Added` | src/stores/articles.ts:21-28 | no ensures of its own; specified by `AddedSpec` and `AddedKeepsUnique` |
| `ArticlesStore.AddedSpec` | src/stores/articles.ts:21-28 | length grows by one, the old collection follows unchanged, and the new article has the next id, an id no old article has, and zero views |
| `ArticlesStore.AddedKeepsUnique` | src/stores/articles.ts:24-27 | adding preserves unique ids |
| `ArticlesStore.DatePart` | src/stores/articles.ts:37 | no ensures of its own; specified by `DatePartSpec` |
| `ArticlesStore.DatePartSpec` | src/stores/articles.ts:37 | `split('T')[0]`: a prefix of the timestamp with no 'T', ending at the end or just before a 'T' |
| `ArticlesStore.Merge` | src/stores/articles.ts:34-38 | every key present in the updates replaces the old field, absent keys keep it, and `updatedDate` is today's date even if the updates carry one |
| `ArticlesStore.MergeEmpty` | src/stores/articles.ts:34-38 | an update without keys changes only `updatedDate` |
| `ArticlesStore.Updated` | src/stores/articles.ts:31-40 | no ensures of its own; specified by `UpdatedSpec`, `UpdatedKeepsUnique` and `UpdateCanDuplicateIds` |
| `ArticlesStore.UpdatedSpec` | src/stores/articles.ts:31-40 | an absent id leaves the collection identical; otherwise only the first match is replaced by the merge, and the length and every other article are unchanged |
| `ArticlesStore.UpdatedKeepsUnique` | src/stores/articles.ts:31-39 | unique ids stay unique when the updates carry no id, the same id, or an unused id |
| `ArticlesStore.UpdateCanDuplicateIds` | src/stores/articles.ts:34-36 | updates that carry another article's id make two articles share an id |
| `ArticlesStore.Deleted` | src/stores/articles.ts:42-47 | no ensures of its own; specified by `DeletedSpec` and `DeletedRemovesId` |
| `ArticlesStore.DeletedSpec` | src/stores/articles.ts:42-47 | an absent id leaves the collection identical; otherwise exactly the first match is removed, and the rest keep their order |
| `ArticlesStore.DeletedRemovesId` | src/stores/articles.ts:42-46 | with unique ids, the deleted id is no longer found and the ids stay unique |
| `ArticlesStore.Bumped` | src/stores/articles.ts:53-58 | no ensures of its own; specified by `BumpedSpec` |
| `ArticlesStore.BumpedSpec` | src/stores/articles.ts:53-58 | an absent id leaves the collection identical; otherwise the first match gains one view and nothing else changes |
| `ArticlesStore.BumpedN` | src/stores/articles.ts:53-57 | `n` successive view increments; no ensures of its own, specified by `BumpedNAddsN` |
| `ArticlesStore.BumpedNAddsN` | src/stores/articles.ts:53-57 | `n` views add exactly `n` to the first match and leave every other article unchanged |
| `ArticlesStore.ArticleStore.constructor` | src/stores/articles.ts:6 | the store starts empty |
| `ArticlesStore.ArticleStore.InitArticle` | src/stores/articles.ts:8-19 | replaces the whole collection with the articles built from the sources |
| `ArticlesStore.ArticleStore.AddArticle` | src/stores/articles.ts:21-29 | returns the article built with the next id and puts it in front of the old collection |
| `ArticlesStore.ArticleStore.UpdateArticle` | src/stores/articles.ts:31-40 | the new collection is `Updated` applied to the old one |
| `ArticlesStore.ArticleStore.DeleteArticle` | src/stores/articles.ts:42-47 | the new collection is `Deleted` applied to the old one |
| `ArticlesStore.ArticleStore.GetArticleById` | src/stores/articles.ts:49-51 | returns the first match or absent, changing nothing |
| `ArticlesStore.ArticleStore.IncrementViews` | src/stores/articles.ts:53-58 | the new collection is `Bumped` applied to the old one |
| `Slug.LowerChar` | src/utils/markdown.ts:14 | never an upper-case ASCII letter, and only upper-case letters are changed |
| `Slug.Lower` | src/utils/markdown.ts:14 | no ensures of its own; specified by `LowerSpec` and `LowerOfLower` |
| `Slug.LowerSpec` | src/utils/markdown.ts:14 | lower-casing keeps the length, maps each character on its own and leaves no upper-case letter |
| `Slug.LowerOfLower` | src/utils/markdown.ts:14 | lower-casing a string without upper-case letters changes nothing |
| `Slug.TrimStart` | src/utils/markdown.ts:15 | no ensures of its own; specified by `TrimStartSpec` |
| `Slug.TrimEnd` | src/utils/markdown.ts:15 | no ensures of its own; specified by `TrimEndSpec` |
| `Slug.Trim` | src/utils/markdown.ts:15 | no ensures of its own; specified by `TrimSpec` and `TrimKeepsNoUpper` |
| `Slug.TrimStartSpec` | src/utils/markdown.ts:15 | the leading trim drops a white-space-only prefix and stops at a non-space |
| `Slug.TrimEndSpec` | src/utils/markdown.ts:15 | the trailing trim drops a white-space-only suffix and stops at a non-space |
| `Slug.TrimSpec` | src/utils/markdown.ts:15 | the trimmed string neither starts nor ends with white space, and a string with no white space is its own trim |
| `Slug.TrimKeepsNoUpper` | src/utils/markdown.ts:14-15 | trimming introduces no upper-case letter |
| `Slug.SkipRun` | src/utils/markdown.ts:16 | the rest after a run of replaced characters is empty or starts with a kept character |
| `Slug.SkipRunIsSuffix` | src/utils/markdown.ts:16 | that rest is a suffix of the input |
| `Slug.ReplaceRuns` | src/utils/markdown.ts:16 | no ensures of its own; specified by `ReplaceRunsShape`, `ReplaceRunsKeepsKept`, `ReplaceRunsFixesSlugShape` and `ReplaceRunsIsSqueezedMask` |
| `Slug.ReplaceRunsShape` | src/utils/markdown.ts:16 | the replacement holds only kept characters and single hyphens, and starts with `-` exactly when the input starts with a replaced character |
| `Slug.ReplaceRunsKeepsKept` | src/utils/markdown.ts:16 | the replacement keeps exactly the kept characters, in order |
| `Slug.ReplaceRunsKeepsNoUpper` | src/utils/markdown.ts:16 | the replacement introduces no upper-case letter |
| `Slug.ReplaceRunsFixesSlugShape` | src/utils/markdown.ts:16 | a string already in slug shape is left unchanged |
| `Slug.SlugShapeNoDoubleHyphen` | src/utils/markdown.ts:16 | slug shape never contains `--` |
| `Slug.ReplaceRunsIsSqueezedMask` | src/utils/markdown.ts:16 | the run replacement equals an independent definition: mask each character, then squeeze hyphen runs |
| `Slug.BaseSlug` | src/utils/markdown.ts:13-16 | no ensures of its own; specified by `BaseSlugShape` and `BaseSlugIdempotent` |
| `Slug.BaseSlugShape` | src/utils/markdown.ts:13-16 | the base slug has slug shape, no upper-case letter, and the kept characters of the lower-cased trimmed text |
| `Slug.BaseSlugIdempotent` | src/utils/markdown.ts:13-16 | normalising a base slug again returns it unchanged |
| `Slug.NatToString` | src/utils/markdown.ts:23 | no ensures of its own; specified by `NatToStringDigits`, `DecimalRoundTrip` and `NatToStringInjective` |
| `Slug.NatToStringDigits` | src/utils/markdown.ts:23 | the suffix number is a non-empty digit string with no leading zero |
| `Slug.DecimalRoundTrip` | src/utils/markdown.ts:23 | reading the suffix digits back gives the count |
| `Slug.NatToStringInjective` | src/utils/markdown.ts:23 | different counts give different digit strings |
| `Slug.Dedup` | src/utils/markdown.ts:19-24 | no ensures of its own; specified by `DedupInjective`, `DedupSuffixed` and `DedupAllIdAt` |
| `Slug.DedupInjective` | src/utils/markdown.ts:19-24 | for one base slug, different counts give different slugs |
| `Slug.DedupSuffixed` | src/utils/markdown.ts:22-24 | a suffixed slug starts with its base and differs from it |
| `Markdown.TokenText` | src/utils/markdown.ts:35-37 | a token's text if present, else its raw text, else the empty string; no ensures of its own |
| `Markdown.JoinTokens` | src/utils/markdown.ts:34-38 | no ensures of its own; specified by `JoinTokensAppend` |
| `Markdown.HeadingHtml` | src/utils/markdown.ts:51 | the heading markup template; no ensures of its own |
| `Markdown.ParagraphHtml` | src/utils/markdown.ts:56 | the paragraph markup template; no ensures of its own |
| `Markdown.CodespanHtml` | src/utils/markdown.ts:60 | the code span markup template; no ensures of its own |
| `Markdown.JoinTokensAppend` | src/utils/markdown.ts:34-38 | the heading text of a concatenation of tokens is the concatenation of the texts |
| `Markdown.NonHeadingStep` | src/utils/markdown.ts:55-61 | paragraphs, code spans and other markup touch neither the slug map nor the heading list |
| `Markdown.Step` | src/utils/markdown.ts:33-61 | one event through its hook; no ensures of its own, specified by `NonHeadingStep`, `DeepHeadingNotRecorded` and the heading hook's contract |
| `Markdown.Render` | src/utils/markdown.ts:69 | the hooks applied to the events in document order; no ensures of its own, specified by `RenderSlugMap`, `RenderHeadings`, `RenderHeadingsDistinct` and `RenderHeadingsAreTitles` |
| `Markdown.DedupAll` | src/utils/markdown.ts:19-24 | one slug per base slug produced |
| `Markdown.DedupAllMap` | src/utils/markdown.ts:19-20 | afterwards each base slug's counter has grown by its number of occurrences |
| `Markdown.DedupAllIdAt` | src/utils/markdown.ts:19-24 | the i-th slug is the i-th base suffixed by the count of its earlier occurrences |
| `Markdown.DedupAllDistinct` | src/utils/markdown.ts:19-24 | two occurrences of the same base slug get different slugs |
| `Markdown.DedupAllRepeated` | src/utils/markdown.ts:19-24 | repeating one base slug from a fresh map gives base, base-1, base-2, ... in order |
| `Markdown.SlugCollision` | src/utils/markdown.ts:19-24 | bases b, b, b-1 give the slugs b, b-1, b-1: emitted ids are not globally unique |
| `Markdown.SlugCollisionExample` | src/utils/markdown.ts:13-24 | headings "A", "A", "a-1" give the ids a, a-1, a-1 |
| `Markdown.BaseSlugA` | src/utils/markdown.ts:13-16 | the base slug of "A" is "a" |
| `Markdown.BaseSlugA1` | src/utils/markdown.ts:13-16 | the base slug of "a-1" is "a-1" |
| `Markdown.RenderSlugMap` | src/utils/markdown.ts:33-52 | a pass counts the base slug of every heading, whatever its depth |
| `Markdown.RenderHeadings` | src/utils/markdown.ts:40-49 | a pass records depth 1-4 headings with the slugs of the counter, in document order |
| `Markdown.OutlineTitles` | src/utils/markdown.ts:43-48 | the recorded headings are exactly the depth 1-4 headings with their texts and levels |
| `Markdown.OutlineFrom` | src/utils/markdown.ts:40-48 | each recorded heading has depth 1-4 and carries the slug produced for its own base slug |
| `Markdown.OutlineKeepsDistinct` | src/utils/markdown.ts:40-48 | slugs distinct per base slug stay distinct in the recorded list |
| `Markdown.RenderHeadingsDistinct` | src/utils/markdown.ts:19-52 | within one pass, recorded headings with the same base slug have different ids |
| `Markdown.RenderHeadingsAreTitles` | src/utils/markdown.ts:43-48 | the recorded headings of a pass are the depth 1-4 headings in order, each of level 1-4 |
| `Markdown.DedupAllAfterPass` | src/utils/markdown.ts:9-24 | once a map has counted every base, each later slug is suffixed |
| `Markdown.RerenderSuffixes` | src/utils/markdown.ts:9-24 | rendering a document again with the slug map of its first pass gives every recorded heading a suffixed id |
| `Markdown.DeepHeadingNotRecorded` | src/utils/markdown.ts:40-51 | a depth 5-6 heading gets markup with the slug and advances the counter, but is not recorded |
| `Markdown.RerenderSameHeading` | src/utils/markdown.ts:9-52 | the same heading rendered twice gets the next suffix the second time, so the two ids differ |
| `Markdown.Renderer.constructor` | src/utils/markdown.ts:9-29 | the slug map and heading list start empty |
| `Markdown.Renderer.Slugify` | src/utils/markdown.ts:11-27 | returns the base slug suffixed by its prior count, and raises that count by one, leaving other keys alone |
| `Markdown.Renderer.HeadingHook` | src/utils/markdown.ts:33-52 | emits `<hN id="...">text</hN>`, advances the counter, and appends the heading only for depth 1-4 |
| `Markdown.Renderer.RenderEvent` | src/utils/markdown.ts:55-61 | paragraphs become `<p>text</p>` and code spans `<code>text</code>`; headings go through the heading hook |
| `Markdown.Renderer.FormatMarkdown` | src/utils/markdown.ts:65-74 | empty content returns no markup and no headings, and touches no state; otherwise the heading list is cleared and the result is the pass `Render` from the carried-over slug map |

## Left out

- The `marked` parser is a foreign library. Its output is the event sequence given to `FormatMarkdown`. Marked's own markup for other constructs is the opaque `Other` event.
- HTML escaping: the hooks insert text verbatim, and the model makes no claim of sanitisation.
- The `async`/`Promise` wrapping of `formatMarkdown` has no sequential meaning.
- `toLowerCase` is modelled for ASCII letters only. Full Unicode case mapping is not modelled.
- Only `\w` without the `u` flag and U+4E00..U+9FA5 are kept characters.
- Pinia's `defineStore`, Vue's `ref` and reactivity are framework plumbing. The state is a plain field.
- These are I/O and clock reads:
  - `import.meta.glob` is replaced by the `sources` parameter, whose order is the iteration order of the discovered documents;
  - `console.log` is dropped;
  - `new Date().toISOString()` is replaced by the `today` parameter.
- Object aliasing is not modelled. `getArticleById` and `addArticle` return references into the array; here they are values.
- A key that is present with the value `undefined` is not modelled. A `Patch` field is either a value or an absent key.
- Frontmatter keys outside the `Article` shape, and ids that are not integers, are not modelled.
- `Draft` has exactly the fields of `Omit<Article, 'id' | 'views'>`. If a caller's object carries extra `id` or `views` keys, the source overrides them anyway, because those keys come after the spread.
- JavaScript numbers are unbounded integers here. Ids, view counts and the slug occurrence counters never reach the 2^53 precision limit in the model.
- `formatMarkdown` copies the heading list after awaiting the parser. Two calls that interleave at that await would both return the second call's headings. The model runs each call to completion.
- `Math.max(...ids)` throws a RangeError once the collection exceeds the engine's limit on spread arguments. `NextId` has no such limit.
- `vite.config.ts`, `src/router/index.ts` and `src/main.ts` are build, routing and bootstrap code, and they are not part of this model.
