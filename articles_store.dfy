/** The article store: an ordered collection of articles, with the
    operations of `src/stores/articles.ts`. The collection operations are
    specified by functions on `seq<Article>`; the `ArticleStore` class
    applies them to its `articles` field. */
module ArticlesStore {
  import opened Wrappers
  import opened ArticleTypes

  // ---------------------------------------------------------------------
  // Lookup

  /** The index of the first article with the given id, or -1. */
  function FindIndex(s: seq<Article>, id: int): (r: int)
    ensures -1 <= r < |s|
    ensures r == -1 <==> forall k :: 0 <= k < |s| ==> s[k].id != id
    ensures r >= 0 ==> s[r].id == id && forall k :: 0 <= k < r ==> s[k].id != id
  {
    if s == [] then -1
    else if s[0].id == id then 0
    else
      var r := FindIndex(s[1..], id);
      if r == -1 then -1 else r + 1
  }

  /** The first article with the given id, if any. */
  function Find(s: seq<Article>, id: int): (r: Option<Article>)
    ensures r.None? <==> forall k :: 0 <= k < |s| ==> s[k].id != id
    ensures r.Some? ==> r.value.id == id && r.value in s
  {
    var i := FindIndex(s, id);
    if i == -1 then None else Some(s[i])
  }

  /** Any article position holding the id is at or after the first one. */
  lemma FindFirst(s: seq<Article>, id: int, k: int)
    requires 0 <= k < |s| && s[k].id == id
    ensures 0 <= FindIndex(s, id) <= k
    ensures Find(s, id) == Some(s[FindIndex(s, id)])
  {
  }

  /** The lookup depends only on the sequence of ids. */
  lemma {:induction false} FindIndexSameIds(s: seq<Article>, t: seq<Article>, id: int)
    requires |s| == |t|
    requires forall k :: 0 <= k < |s| ==> s[k].id == t[k].id
    ensures FindIndex(s, id) == FindIndex(t, id)
  {
    if s != [] && s[0].id != id {
      FindIndexSameIds(s[1..], t[1..], id);
    }
  }

  /** No two articles share an id. */
  predicate UniqueIds(s: seq<Article>) {
    forall i, j :: 0 <= i < j < |s| ==> s[i].id != s[j].id
  }

  /** With unique ids, an article's position is the index of its id. */
  lemma FindIndexUnique(s: seq<Article>, k: int)
    requires UniqueIds(s) && 0 <= k < |s|
    ensures FindIndex(s, s[k].id) == k
  {
  }

  // ---------------------------------------------------------------------
  // Bulk initialisation

  /** The article built from the source at `index`: the id is the index
      unless the frontmatter names one, the frontmatter supplies the other
      fields, and the body and a zero view count always win. */
  function FromSource(index: nat, src: Source): (a: Article)
    ensures a.id == src.frontmatter.id.GetOr(index)
    ensures a.content == src.content && a.views == 0
  {
    var fm := src.frontmatter;
    Article(fm.id.GetOr(index), fm.title, src.content, fm.summary, fm.author,
            fm.date, fm.updatedDate, fm.category, fm.tags, 0)
  }

  /** The collection built from the sources, in their order. */
  function Initialized(sources: seq<Source>): (r: seq<Article>)
    ensures |r| == |sources|
  {
    seq(|sources|, i requires 0 <= i < |sources| => FromSource(i, sources[i]))
  }

  predicate NoFrontmatterIds(sources: seq<Source>) {
    forall i :: 0 <= i < |sources| ==> sources[i].frontmatter.id.None?
  }

  /** Sources without a frontmatter id get the ids 0 .. N-1 in order, each
      with no views and the source's body, and the ids are unique. */
  lemma InitializedIds(sources: seq<Source>)
    requires NoFrontmatterIds(sources)
    ensures var r := Initialized(sources);
      (forall i :: 0 <= i < |r| ==> r[i].id == i && r[i].views == 0 && r[i].content == sources[i].content)
      && UniqueIds(r)
  {
  }

  /** Every other frontmatter field is carried over; `content` and `views`
      in the frontmatter are ignored. */
  lemma InitializedFields(sources: seq<Source>, i: int)
    requires 0 <= i < |sources|
    ensures var a := Initialized(sources)[i]; var fm := sources[i].frontmatter;
      a.title == fm.title && a.summary == fm.summary && a.author == fm.author
      && a.date == fm.date && a.updatedDate == fm.updatedDate
      && a.category == fm.category && a.tags == fm.tags
      && a.content == sources[i].content && a.views == 0
  {
  }

  /** A frontmatter id equal to another source's index gives two
      articles with one id: initialisation does not keep ids unique. */
  lemma InitCanDuplicateIds(c1: string, c2: string)
    ensures var r := Initialized([Source(EmptyPatch.(id := Some(1)), c1), Source(EmptyPatch, c2)]);
      r[0].id == 1 && r[1].id == 1 && !UniqueIds(r)
  {
    var r := Initialized([Source(EmptyPatch.(id := Some(1)), c1), Source(EmptyPatch, c2)]);
    assert r[0].id == 1 && r[1].id == 1;
  }

  // ---------------------------------------------------------------------
  // Creation

  /** The largest id, or 0 when it is larger than every id. */
  function MaxId(s: seq<Article>): (m: int)
    ensures m >= 0
    ensures forall k :: 0 <= k < |s| ==> s[k].id <= m
    ensures m == 0 || exists k :: 0 <= k < |s| && s[k].id == m
  {
    if s == [] then 0
    else
      var m := MaxId(s[1..]);
      if s[0].id > m then s[0].id
      else
        assert m != 0 ==> s[1..][0] in s[1..];
        m
  }

  /** The id given to a new article. */
  function NextId(s: seq<Article>): (r: int)
    ensures r >= 1
    ensures forall k :: 0 <= k < |s| ==> s[k].id < r
    ensures s == [] ==> r == 1
  {
    MaxId(s) + 1
  }

  /** The article built from a draft and an id, with no views. */
  function FromDraft(d: Draft, id: int): (a: Article)
    ensures a.id == id && a.views == 0 && a.content == d.content
    ensures a.title == Some(d.title) && a.summary == Some(d.summary) && a.author == Some(d.author)
    ensures a.date == Some(d.date) && a.updatedDate == d.updatedDate
    ensures a.category == Some(d.category) && a.tags == Some(d.tags)
  {
    Article(id, Some(d.title), d.content, Some(d.summary), Some(d.author),
            Some(d.date), d.updatedDate, Some(d.category), Some(d.tags), 0)
  }

  /** The collection after adding a draft: the new article in front. */
  function Added(s: seq<Article>, d: Draft): seq<Article> {
    [FromDraft(d, NextId(s))] + s
  }

  /** Adding grows the collection by one, keeps the old articles in order
      behind the new one, and gives it an id no old article has. */
  lemma AddedSpec(s: seq<Article>, d: Draft)
    ensures var r := Added(s, d);
      |r| == |s| + 1 && r[1..] == s && r[0].id == NextId(s) && r[0].views == 0
      && Find(s, r[0].id).None?
  {
    assert Added(s, d)[1..] == s;
  }

  lemma AddedKeepsUnique(s: seq<Article>, d: Draft)
    requires UniqueIds(s)
    ensures UniqueIds(Added(s, d))
  {
    var r := Added(s, d);
    forall i, j | 0 <= i < j < |r|
      ensures r[i].id != r[j].id
    {
      if i > 0 {
        assert r[i] == s[i - 1] && r[j] == s[j - 1];
      } else {
        assert r[j] == s[j - 1];
      }
    }
  }

  // ---------------------------------------------------------------------
  // Update

  /** The date part of an ISO-8601 timestamp: everything before the first
      'T' (all of it when there is none). */
  function DatePart(now: string): string {
    if now == [] || now[0] == 'T' then []
    else [now[0]] + DatePart(now[1..])
  }

  lemma {:induction false} DatePartSpec(now: string)
    ensures var d := DatePart(now);
      |d| <= |now| && d == now[..|d|] && 'T' !in d
      && (|d| == |now| || now[|d|] == 'T')
  {
    if now != [] && now[0] != 'T' {
      DatePartSpec(now[1..]);
      var d' := DatePart(now[1..]);
      assert DatePart(now) == [now[0]] + d';
      assert now[..|d'| + 1] == [now[0]] + now[1..][..|d'|];
    }
  }

  /** `r` is the value of a merged key: the update when its key is present,
      the old value otherwise. */
  predicate Overrides<T(==)>(update: Option<T>, current: T, r: T) {
    if update.Some? then r == update.value else r == current
  }

  /** The same for a field that may itself be absent. */
  predicate OverridesOpt<T(==)>(update: Option<T>, current: Option<T>, r: Option<T>) {
    if update.Some? then r == update else r == current
  }

  /** A shallow merge: every key present in the updates wins, then the last
      edit date is stamped, whatever date the updates carried. */
  function Merge(a: Article, p: Patch, today: string): (r: Article)
    ensures r.updatedDate == Some(DatePart(today))
    ensures Overrides(p.id, a.id, r.id) && Overrides(p.views, a.views, r.views)
    ensures Overrides(p.content, a.content, r.content)
    ensures OverridesOpt(p.title, a.title, r.title) && OverridesOpt(p.summary, a.summary, r.summary)
    ensures OverridesOpt(p.author, a.author, r.author) && OverridesOpt(p.date, a.date, r.date)
    ensures OverridesOpt(p.category, a.category, r.category) && OverridesOpt(p.tags, a.tags, r.tags)
  {
    Article(p.id.GetOr(a.id), p.title.Or(a.title), p.content.GetOr(a.content),
            p.summary.Or(a.summary), p.author.Or(a.author), p.date.Or(a.date),
            Some(DatePart(today)), p.category.Or(a.category), p.tags.Or(a.tags),
            p.views.GetOr(a.views))
  }

  /** Merging a patch with no keys changes only the last edit date. */
  lemma MergeEmpty(a: Article, today: string)
    ensures Merge(a, EmptyPatch, today) == a.(updatedDate := Some(DatePart(today)))
  {
  }

  /** The collection after an edit of the article with the given id. */
  function Updated(s: seq<Article>, id: int, p: Patch, today: string): seq<Article> {
    var i := FindIndex(s, id);
    if i == -1 then s else s[i := Merge(s[i], p, today)]
  }

  /** An edit of a present id replaces exactly the first article with that
      id by the merge; every other article and the length are unchanged. */
  lemma UpdatedSpec(s: seq<Article>, id: int, p: Patch, today: string)
    ensures var r := Updated(s, id, p, today); var i := FindIndex(s, id);
      |r| == |s|
      && (i == -1 ==> r == s)
      && (i >= 0 ==>
            r[i] == Merge(s[i], p, today)
            && forall k :: 0 <= k < |s| && k != i ==> r[k] == s[k])
  {
  }

  /** An edit keeps the ids unique when its updates carry no id, the same
      id, or an id no article has. */
  lemma UpdatedKeepsUnique(s: seq<Article>, id: int, p: Patch, today: string)
    requires UniqueIds(s)
    requires p.id.None? || p.id == Some(id) || Find(s, p.id.value).None?
    ensures UniqueIds(Updated(s, id, p, today))
  {
    var r := Updated(s, id, p, today);
    var i := FindIndex(s, id);
    if i >= 0 {
      forall a, b | 0 <= a < b < |r|
        ensures r[a].id != r[b].id
      {
        if a != i && b != i {
          assert r[a] == s[a] && r[b] == s[b];
        } else if a == i {
          assert r[b] == s[b];
        } else {
          assert r[a] == s[a];
        }
      }
    }
  }

  /** Updates that carry another article's id yield two articles with one
      id: the store itself does not keep ids unique. */
  lemma UpdateCanDuplicateIds(a: Article, b: Article, today: string)
    requires a.id == 1 && b.id == 2
    ensures var r := Updated([a, b], 1, EmptyPatch.(id := Some(2)), today);
      UniqueIds([a, b]) && r[0].id == 2 && r[1].id == 2
  {
  }

  // ---------------------------------------------------------------------
  // Deletion

  /** The collection without the first article with the given id. */
  function Deleted(s: seq<Article>, id: int): seq<Article> {
    var i := FindIndex(s, id);
    if i == -1 then s else s[..i] + s[i + 1..]
  }

  /** Deleting a present id removes exactly its first article and keeps
      the others in order. */
  lemma DeletedSpec(s: seq<Article>, id: int)
    ensures var r := Deleted(s, id); var i := FindIndex(s, id);
      (i == -1 ==> r == s)
      && (i >= 0 ==>
            |r| == |s| - 1
            && (forall k :: 0 <= k < i ==> r[k] == s[k])
            && (forall k :: i <= k < |r| ==> r[k] == s[k + 1]))
  {
  }

  /** With unique ids a deleted id is gone afterwards, and the ids stay
      unique. */
  lemma DeletedRemovesId(s: seq<Article>, id: int)
    requires UniqueIds(s)
    ensures Find(Deleted(s, id), id).None?
    ensures UniqueIds(Deleted(s, id))
  {
    var r := Deleted(s, id);
    var i := FindIndex(s, id);
    if i >= 0 {
      DeletedSpec(s, id);
      forall k | 0 <= k < |r|
        ensures r[k].id != id
      {
        if k < i { assert r[k] == s[k]; } else { assert r[k] == s[k + 1]; }
      }
      forall a, b | 0 <= a < b < |r|
        ensures r[a].id != r[b].id
      {
        var a' := if a < i then a else a + 1;
        var b' := if b < i then b else b + 1;
        assert r[a] == s[a'] && r[b] == s[b'];
      }
    }
  }

  // ---------------------------------------------------------------------
  // View counting

  /** The collection after one view of the article with the given id. */
  function Bumped(s: seq<Article>, id: int): seq<Article> {
    var i := FindIndex(s, id);
    if i == -1 then s else s[i := s[i].(views := s[i].views + 1)]
  }

  /** A view adds one to the first matching article's count and changes
      nothing else. */
  lemma BumpedSpec(s: seq<Article>, id: int)
    ensures var r := Bumped(s, id); var i := FindIndex(s, id);
      |r| == |s|
      && (i == -1 ==> r == s)
      && (i >= 0 ==>
            r[i] == s[i].(views := s[i].views + 1)
            && forall k :: 0 <= k < |s| && k != i ==> r[k] == s[k])
  {
  }

  /** The collection after `n` views of the article with the given id. */
  function BumpedN(s: seq<Article>, id: int, n: nat): seq<Article> {
    if n == 0 then s else Bumped(BumpedN(s, id, n - 1), id)
  }

  /** `n` views add exactly `n` to the first matching article's count and
      leave every other article unchanged. */
  lemma {:induction false} BumpedNAddsN(s: seq<Article>, id: int, n: nat)
    ensures var r := BumpedN(s, id, n); var i := FindIndex(s, id);
      |r| == |s|
      && (i == -1 ==> r == s)
      && (i >= 0 ==>
            r[i] == s[i].(views := s[i].views + n)
            && forall k :: 0 <= k < |s| && k != i ==> r[k] == s[k])
  {
    if n > 0 {
      BumpedNAddsN(s, id, n - 1);
      var t := BumpedN(s, id, n - 1);
      FindIndexSameIds(s, t, id);
      BumpedSpec(t, id);
    }
  }

  // ---------------------------------------------------------------------
  // The store

  /** The store's state: the article collection, newest additions first. */
  class ArticleStore {
    var articles: seq<Article>

    constructor()
      ensures articles == []
    {
      articles := [];
    }

    /** Replaces the whole collection by the articles built from the
        sources. */
    method InitArticle(sources: seq<Source>)
      modifies this
      ensures articles == Initialized(sources)
    {
      articles := Initialized(sources);
    }

    /** Puts a new article built from the draft in front and returns it. */
    method AddArticle(d: Draft) returns (a: Article)
      modifies this
      ensures a == FromDraft(d, NextId(old(articles)))
      ensures articles == [a] + old(articles)
      ensures articles == Added(old(articles), d)
    {
      a := FromDraft(d, NextId(articles));
      articles := [a] + articles;
    }

    /** Merges the updates into the first article with the given id and
        stamps today's date; does nothing when the id is absent. */
    method UpdateArticle(id: int, updates: Patch, today: string)
      modifies this
      ensures articles == Updated(old(articles), id, updates, today)
    {
      var index := FindIndex(articles, id);
      if index != -1 {
        articles := articles[index := Merge(articles[index], updates, today)];
      }
    }

    /** Removes the first article with the given id, if any. */
    method DeleteArticle(id: int)
      modifies this
      ensures articles == Deleted(old(articles), id)
    {
      var index := FindIndex(articles, id);
      if index != -1 {
        articles := articles[..index] + articles[index + 1..];
      }
    }

    /** The first article with the given id, if any. */
    method GetArticleById(id: int) returns (r: Option<Article>)
      ensures r == Find(articles, id)
      ensures r.None? <==> forall k :: 0 <= k < |articles| ==> articles[k].id != id
      ensures r.Some? ==> r.value.id == id
    {
      r := Find(articles, id);
    }

    /** Adds one view to the first article with the given id, if any. */
    method IncrementViews(id: int)
      modifies this
      ensures articles == Bumped(old(articles), id)
    {
      var index := FindIndex(articles, id);
      if index != -1 {
        articles := articles[index := articles[index].(views := articles[index].views + 1)];
      }
    }
  }
}
