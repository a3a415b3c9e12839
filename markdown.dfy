/** The custom renderer of src/utils/markdown.ts: the heading, paragraph
    and codespan hooks, the process-wide slug counter `slugMap`, the
    per-call heading list `headingsList`, and `formatMarkdown`.
    The markdown parser is not modelled: a document is given as the
    sequence of events the parser hands to the renderer, in document
    order. */
module Markdown {
  import opened Wrappers
  import opened Slug

  /** `slugMap`: how many times each base slug has been produced. */
  type SlugMap = map<string, nat>

  /** How many times a base slug has been produced before; zero for a
      base slug the map has never seen. */
  function Occurrences(m: SlugMap, base: string): nat {
    if base in m then m[base] else 0
  }

  /** An entry of the table of contents. */
  datatype HeadingItem = HeadingItem(id: string, text: string, level: nat)

  /** An inline token of a heading; `text` and `raw` are present or not. */
  datatype InlineToken = InlineToken(text: Option<string>, raw: Option<string>)

  /** What the parser hands to the renderer. `Other` stands for every
      construct rendered by the parser's own default rules, given by the
      markup it produces. */
  datatype Event =
    | Heading(depth: nat, tokens: seq<InlineToken>)
    | Paragraph(text: string)
    | Codespan(text: string)
    | Other(html: string)

  // ---------------------------------------------------------------
  // The hooks
  // ---------------------------------------------------------------

  /** A token's `text` if present, else its `raw`, else "". */
  function TokenText(t: InlineToken): string {
    match t.text
    case Some(s) => s
    case None => t.raw.GetOr("")
  }

  /** The heading text: the texts of the tokens, concatenated in order. */
  function JoinTokens(ts: seq<InlineToken>): string {
    if ts == [] then "" else TokenText(ts[0]) + JoinTokens(ts[1..])
  }

  /** The heading text of a token list split in two is the text of the
      first part followed by the text of the second. */
  lemma {:induction false} JoinTokensAppend(a: seq<InlineToken>, b: seq<InlineToken>)
    ensures JoinTokens(a + b) == JoinTokens(a) + JoinTokens(b)
  {
    if a == [] {
      assert a + b == b;
    } else {
      assert (a + b)[0] == a[0];
      assert (a + b)[1..] == a[1..] + b;
      JoinTokensAppend(a[1..], b);
    }
  }

  function HeadingHtml(depth: nat, id: string, text: string): string {
    "<h" + NatToString(depth) + " id=\"" + id + "\">" + text + "</h" + NatToString(depth) + ">"
  }

  function ParagraphHtml(text: string): string {
    "<p>" + text + "</p>"
  }

  function CodespanHtml(text: string): string {
    "<code>" + text + "</code>"
  }

  /** Depths recorded in the table of contents. */
  predicate IsOutlineLevel(depth: nat) {
    1 <= depth <= 4
  }

  // ---------------------------------------------------------------
  // One render pass, as a function of the slug map
  // ---------------------------------------------------------------

  /** What rendering produces: markup, headings recorded, slug map after. */
  datatype Pass = Pass(html: string, headings: seq<HeadingItem>, slugMap: SlugMap)

  /** One event through its hook, starting from slug map `m`. */
  function Step(m: SlugMap, e: Event): Pass {
    match e
    case Heading(depth, tokens) =>
      var text := JoinTokens(tokens);
      var base := BaseSlug(text);
      var count := Occurrences(m, base);
      var id := Dedup(base, count);
      Pass(HeadingHtml(depth, id, text),
           if IsOutlineLevel(depth) then [HeadingItem(id, text, depth)] else [],
           m[base := count + 1])
    case Paragraph(text) => Pass(ParagraphHtml(text), [], m)
    case Codespan(text) => Pass(CodespanHtml(text), [], m)
    case Other(html) => Pass(html, [], m)
  }

  /** The events in order: markup concatenated, headings appended, the
      slug map threaded through. */
  function Render(m: SlugMap, evs: seq<Event>): Pass
    decreases |evs|
  {
    if evs == [] then Pass("", [], m)
    else
      var p := Render(m, evs[..|evs| - 1]);
      var q := Step(p.slugMap, evs[|evs| - 1]);
      Pass(p.html + q.html, p.headings + q.headings, q.slugMap)
  }

  /** Paragraphs, code spans and other markup leave the slug map alone
      and record no heading. */
  lemma NonHeadingStep(m: SlugMap, e: Event)
    requires !e.Heading?
    ensures Step(m, e).slugMap == m && Step(m, e).headings == []
  {
  }

  // ---------------------------------------------------------------
  // The slug counter over a sequence of base slugs
  // ---------------------------------------------------------------

  /** The base slugs of all headings, every depth, in document order. */
  function HeadingBases(evs: seq<Event>): seq<string>
    decreases |evs|
  {
    if evs == [] then []
    else
      var prev := HeadingBases(evs[..|evs| - 1]);
      match evs[|evs| - 1]
      case Heading(_, tokens) => prev + [BaseSlug(JoinTokens(tokens))]
      case _ => prev
  }

  /** The slugs produced for base slugs `bases` one after another from
      map `m`, and the map afterwards. */
  datatype Slugs = Slugs(ids: seq<string>, slugMap: SlugMap)

  function DedupAll(m: SlugMap, bases: seq<string>): (r: Slugs)
    ensures |r.ids| == |bases|
    decreases |bases|
  {
    if bases == [] then Slugs([], m)
    else
      var p := DedupAll(m, bases[..|bases| - 1]);
      var base := bases[|bases| - 1];
      var count := Occurrences(p.slugMap, base);
      Slugs(p.ids + [Dedup(base, count)], p.slugMap[base := count + 1])
  }

  /** Afterwards every base slug has been counted once per occurrence. */
  lemma {:induction false} DedupAllMap(m: SlugMap, bases: seq<string>)
    ensures forall b :: Occurrences(DedupAll(m, bases).slugMap, b) == Occurrences(m, b) + multiset(bases)[b]
    decreases |bases|
  {
    if bases != [] {
      var n := |bases|;
      var prefix := bases[..n - 1];
      DedupAllMap(m, prefix);
      assert bases == prefix + [bases[n - 1]];
      assert multiset(bases) == multiset(prefix) + multiset{bases[n - 1]};
    }
  }

  /** The i-th slug is the i-th base slug suffixed with the number of
      its earlier occurrences, in `m` and among the earlier bases. */
  lemma {:induction false} DedupAllIdAt(m: SlugMap, bases: seq<string>, i: nat)
    requires i < |bases|
    ensures DedupAll(m, bases).ids[i] == Dedup(bases[i], Occurrences(m, bases[i]) + multiset(bases[..i])[bases[i]])
    decreases |bases|
  {
    var n := |bases|;
    var prefix := bases[..n - 1];
    var p := DedupAll(m, prefix);
    assert DedupAll(m, bases).ids == p.ids + [Dedup(bases[n - 1], Occurrences(p.slugMap, bases[n - 1]))];
    if i == n - 1 {
      DedupAllMap(m, prefix);
    } else {
      DedupAllIdAt(m, prefix, i);
      assert bases[..i] == prefix[..i];
    }
  }

  lemma PrefixCountGrows(bases: seq<string>, i: nat, j: nat)
    requires i < j <= |bases|
    ensures multiset(bases[..i])[bases[i]] < multiset(bases[..j])[bases[i]]
  {
    assert bases[..j] == bases[..i] + [bases[i]] + bases[i + 1..j];
  }

  /** Two occurrences of the same base slug get different slugs. */
  lemma DedupAllDistinct(m: SlugMap, bases: seq<string>, i: nat, j: nat)
    requires i < j < |bases| && bases[i] == bases[j]
    ensures DedupAll(m, bases).ids[i] != DedupAll(m, bases).ids[j]
  {
    DedupAllIdAt(m, bases, i);
    DedupAllIdAt(m, bases, j);
    PrefixCountGrows(bases, i, j);
    var b := bases[i];
    var ci := Occurrences(m, b) + multiset(bases[..i])[b];
    var cj := Occurrences(m, b) + multiset(bases[..j])[b];
    if DedupAll(m, bases).ids[i] == DedupAll(m, bases).ids[j] {
      DedupInjective(b, ci, cj);
    }
  }

  /** The same base slug produced over and over from a fresh map gives
      the base, then base-1, base-2, ... */
  lemma DedupAllRepeated(base: string, k: nat, i: nat)
    requires i < k
    ensures DedupAll(map[], seq(k, _ => base)).ids[i] == Dedup(base, i)
  {
    var bases := seq(k, _ => base);
    DedupAllIdAt(map[], bases, i);
    assert bases[..i] == seq(i, _ => base);
    SameCount(base, i);
  }

  lemma {:induction false} SameCount(base: string, i: nat)
    ensures multiset(seq(i, _ => base))[base] == i
  {
    if i > 0 {
      SameCount(base, i - 1);
      assert seq(i, _ => base) == seq(i - 1, _ => base) + [base];
    }
  }

  /** The counter is kept per base slug, not per emitted slug: two headings
      with base slug b followed by one whose base slug is b + "-1" give the
      slugs b, b + "-1", b + "-1". */
  lemma SlugCollision(b: string)
    ensures DedupAll(map[], [b, b, b + "-1"]).ids == [b, b + "-1", b + "-1"]
  {
    assert NatToString(1) == "1";
    assert Dedup(b, 1) == b + "-1";
    var t := [b, b, b + "-1"];
    assert t[..2] == [b, b] && [b, b][..1] == [b] && [b][..0] == [];
    assert DedupAll(map[], []) == Slugs([], map[]);
    assert Occurrences(map[], b) == 0;
    var d1 := DedupAll(map[], [b]);
    assert d1 == Slugs([] + [Dedup(b, 0)], map[][b := 1]);
    assert d1 == Slugs([b], map[b := 1]);
    var d2 := DedupAll(map[], [b, b]);
    assert d2 == Slugs([b, b + "-1"], map[b := 2]);
    assert |b + "-1"| != |b|;
    assert Occurrences(map[b := 2], b + "-1") == 0;
  }

  /** The headings "A", "A" and "a-1" receive the ids "a", "a-1", "a-1". */
  lemma SlugCollisionExample()
    ensures DedupAll(map[], [BaseSlug("A"), BaseSlug("A"), BaseSlug("a-1")]).ids == ["a", "a-1", "a-1"]
  {
    BaseSlugA();
    BaseSlugA1();
    SlugCollision("a");
  }

  lemma BaseSlugA()
    ensures BaseSlug("A") == "a"
  {
    assert Lower("A") == "a";
    assert Trim("a") == "a";
    assert ReplaceRuns("a") == "a";
  }

  lemma BaseSlugA1()
    ensures BaseSlug("a-1") == "a-1"
  {
    assert Lower("a-1") == "a-1";
    assert Trim("a-1") == "a-1";
    assert ReplaceRuns("1") == "1";
    assert ReplaceRuns("a-1") == "a-1";
  }

  // ---------------------------------------------------------------
  // The headings list of a pass
  // ---------------------------------------------------------------

  /** The headings recorded when the i-th heading event gets id ids[i]. */
  function Outline(evs: seq<Event>, ids: seq<string>): seq<HeadingItem>
    requires |ids| == |HeadingBases(evs)|
    decreases |evs|
  {
    if evs == [] then []
    else
      match evs[|evs| - 1]
      case Heading(depth, tokens) =>
        Outline(evs[..|evs| - 1], ids[..|ids| - 1])
        + (if IsOutlineLevel(depth) then [HeadingItem(ids[|ids| - 1], JoinTokens(tokens), depth)] else [])
      case _ => Outline(evs[..|evs| - 1], ids)
  }

  /** The slug map after a pass has counted the base slug of every
      heading, whatever its depth. */
  lemma {:induction false} RenderSlugMap(m: SlugMap, evs: seq<Event>)
    ensures Render(m, evs).slugMap == DedupAll(m, HeadingBases(evs)).slugMap
    decreases |evs|
  {
    if evs != [] {
      var prefix := evs[..|evs| - 1];
      var e := evs[|evs| - 1];
      RenderSlugMap(m, prefix);
      var p := Render(m, prefix);
      assert Render(m, evs).slugMap == Step(p.slugMap, e).slugMap;
      match e
      case Heading(_, tokens) =>
        var b := BaseSlug(JoinTokens(tokens));
        var bases := HeadingBases(evs);
        assert bases == HeadingBases(prefix) + [b];
        assert bases[..|bases| - 1] == HeadingBases(prefix);
        assert Step(p.slugMap, e).slugMap == p.slugMap[b := Occurrences(p.slugMap, b) + 1];
      case _ =>
        assert HeadingBases(evs) == HeadingBases(prefix);
    }
  }

  /** Rendering is slugifying every heading in document order and
      recording the headings of depth 1 to 4 with their slugs. */
  lemma {:induction false} RenderHeadings(m: SlugMap, evs: seq<Event>)
    ensures Render(m, evs).headings == Outline(evs, DedupAll(m, HeadingBases(evs)).ids)
    decreases |evs|
  {
    if evs != [] {
      var prefix := evs[..|evs| - 1];
      var e := evs[|evs| - 1];
      RenderHeadings(m, prefix);
      RenderSlugMap(m, prefix);
      var p := Render(m, prefix);
      assert Render(m, evs).headings == p.headings + Step(p.slugMap, e).headings;
      match e
      case Heading(depth, tokens) =>
        var b := BaseSlug(JoinTokens(tokens));
        var bases := HeadingBases(evs);
        assert bases == HeadingBases(prefix) + [b];
        assert bases[..|bases| - 1] == HeadingBases(prefix);
        var d := DedupAll(m, bases);
        var d' := DedupAll(m, HeadingBases(prefix));
        assert d.ids == d'.ids + [Dedup(b, Occurrences(d'.slugMap, b))];
        assert d.ids[..|d.ids| - 1] == d'.ids;
      case _ =>
        assert HeadingBases(evs) == HeadingBases(prefix);
    }
  }

  /** The text and depth of the headings of depth 1 to 4, in order. */
  function Titles(evs: seq<Event>): seq<(string, nat)>
    decreases |evs|
  {
    if evs == [] then []
    else
      var prev := Titles(evs[..|evs| - 1]);
      match evs[|evs| - 1]
      case Heading(depth, tokens) =>
        if IsOutlineLevel(depth) then prev + [(JoinTokens(tokens), depth)] else prev
      case _ => prev
  }

  /** The recorded headings are exactly the headings of depth 1 to 4,
      in document order, with their text and level, whatever the ids. */
  lemma {:induction false} OutlineTitles(evs: seq<Event>, ids: seq<string>)
    requires |ids| == |HeadingBases(evs)|
    ensures |Outline(evs, ids)| == |Titles(evs)|
    ensures forall k :: 0 <= k < |Titles(evs)| ==>
      Outline(evs, ids)[k].text == Titles(evs)[k].0 && Outline(evs, ids)[k].level == Titles(evs)[k].1
    decreases |evs|
  {
    if evs != [] {
      var prefix := evs[..|evs| - 1];
      if evs[|evs| - 1].Heading? {
        OutlineTitles(prefix, ids[..|ids| - 1]);
      } else {
        OutlineTitles(prefix, ids);
      }
    }
  }

  /** Every recorded heading carries the slug of one heading event and
      the text whose base slug that event counted, and a level from 1
      to 4. */
  lemma {:induction false} OutlineFrom(evs: seq<Event>, ids: seq<string>, h: HeadingItem)
    requires |ids| == |HeadingBases(evs)| && h in Outline(evs, ids)
    ensures IsOutlineLevel(h.level)
    ensures exists j :: 0 <= j < |ids| && h.id == ids[j] && BaseSlug(h.text) == HeadingBases(evs)[j]
    decreases |evs|
  {
    var prefix := evs[..|evs| - 1];
    var bases := HeadingBases(evs);
    if evs[|evs| - 1].Heading? {
      var ids' := ids[..|ids| - 1];
      assert bases[..|bases| - 1] == HeadingBases(prefix);
      if h in Outline(prefix, ids') {
        OutlineFrom(prefix, ids', h);
        var j :| 0 <= j < |ids'| && h.id == ids'[j] && BaseSlug(h.text) == HeadingBases(prefix)[j];
        assert h.id == ids[j] && BaseSlug(h.text) == bases[j];
      } else {
        assert h.id == ids[|ids| - 1] && BaseSlug(h.text) == bases[|bases| - 1];
      }
    } else {
      OutlineFrom(prefix, ids, h);
    }
  }

  /** Slugs that differ wherever the base slugs agree. */
  ghost predicate DistinctPerBase(ids: seq<string>, bases: seq<string>)
    requires |ids| == |bases|
  {
    forall i, j :: 0 <= i < j < |ids| && bases[i] == bases[j] ==> ids[i] != ids[j]
  }

  /** Headings whose texts have the same base slug have different ids. */
  ghost predicate OutlineDistinctPerBase(hs: seq<HeadingItem>) {
    forall k1, k2 :: 0 <= k1 < k2 < |hs| && BaseSlug(hs[k1].text) == BaseSlug(hs[k2].text) ==> hs[k1].id != hs[k2].id
  }

  lemma {:induction false} OutlineKeepsDistinct(evs: seq<Event>, ids: seq<string>)
    requires |ids| == |HeadingBases(evs)| && DistinctPerBase(ids, HeadingBases(evs))
    ensures OutlineDistinctPerBase(Outline(evs, ids))
    decreases |evs|
  {
    if evs != [] {
      var prefix := evs[..|evs| - 1];
      var bases := HeadingBases(evs);
      match evs[|evs| - 1]
      case Heading(depth, tokens) =>
        var ids' := ids[..|ids| - 1];
        assert bases[..|bases| - 1] == HeadingBases(prefix);
        OutlineKeepsDistinct(prefix, ids');
        var o := Outline(prefix, ids');
        if IsOutlineLevel(depth) {
          var last := HeadingItem(ids[|ids| - 1], JoinTokens(tokens), depth);
          forall k | 0 <= k < |o| && BaseSlug(o[k].text) == BaseSlug(last.text)
            ensures o[k].id != last.id
          {
            OutlineFrom(prefix, ids', o[k]);
            var j :| 0 <= j < |ids'| && o[k].id == ids'[j] && BaseSlug(o[k].text) == HeadingBases(prefix)[j];
            assert ids[j] != ids[|ids| - 1];
          }
          assert Outline(evs, ids) == o + [last];
        }
      case _ =>
        OutlineKeepsDistinct(prefix, ids);
    }
  }

  /** Within one pass, two recorded headings whose texts have the same
      base slug get different ids. */
  lemma RenderHeadingsDistinct(m: SlugMap, evs: seq<Event>)
    ensures OutlineDistinctPerBase(Render(m, evs).headings)
  {
    var bases := HeadingBases(evs);
    var s := DedupAll(m, bases);
    RenderHeadings(m, evs);
    forall i, j | 0 <= i < j < |s.ids| && bases[i] == bases[j]
      ensures s.ids[i] != s.ids[j]
    {
      DedupAllDistinct(m, bases, i, j);
    }
    OutlineKeepsDistinct(evs, s.ids);
  }

  /** The recorded headings of a pass are the headings of depth 1 to 4
      of the document, in order, with their text and level. */
  lemma RenderHeadingsAreTitles(m: SlugMap, evs: seq<Event>)
    ensures var hs := Render(m, evs).headings;
      |hs| == |Titles(evs)|
      && (forall k :: 0 <= k < |hs| ==> hs[k].text == Titles(evs)[k].0 && hs[k].level == Titles(evs)[k].1)
      && (forall h :: h in hs ==> IsOutlineLevel(h.level))
  {
    var s := DedupAll(m, HeadingBases(evs));
    RenderHeadings(m, evs);
    OutlineTitles(evs, s.ids);
    forall h | h in Render(m, evs).headings ensures IsOutlineLevel(h.level) {
      OutlineFrom(evs, s.ids, h);
    }
  }

  /** With a map that has already counted every base slug of the
      document once, every slug comes out suffixed. */
  lemma DedupAllAfterPass(m: SlugMap, bases: seq<string>, j: nat)
    requires j < |bases|
    ensures var ids := DedupAll(DedupAll(m, bases).slugMap, bases).ids;
      bases[j] < ids[j]
  {
    var m1 := DedupAll(m, bases).slugMap;
    DedupAllMap(m, bases);
    DedupAllIdAt(m1, bases, j);
    var b := bases[j];
    assert b in multiset(bases);
    DedupSuffixed(b, Occurrences(m1, b) + multiset(bases[..j])[b]);
  }

  /** Rendering the same document a second time, with the slug map the
      first pass left, suffixes every recorded id: each is its base slug
      followed by more characters. */
  lemma RerenderSuffixes(m: SlugMap, evs: seq<Event>)
    ensures var m1 := Render(m, evs).slugMap;
      forall h :: h in Render(m1, evs).headings ==> BaseSlug(h.text) < h.id
  {
    var bases := HeadingBases(evs);
    var m1 := Render(m, evs).slugMap;
    RenderSlugMap(m, evs);
    RenderHeadings(m1, evs);
    var ids := DedupAll(m1, bases).ids;
    forall h | h in Render(m1, evs).headings ensures BaseSlug(h.text) < h.id {
      OutlineFrom(evs, ids, h);
      var j :| 0 <= j < |ids| && h.id == ids[j] && BaseSlug(h.text) == bases[j];
      DedupAllAfterPass(m, bases, j);
    }
  }

  // ---------------------------------------------------------------
  // The module state and its operations
  // ---------------------------------------------------------------

  /** The module-level `slugMap` and `headingsList`. */
  class Renderer {
    var slugMap: SlugMap
    var headingsList: seq<HeadingItem>

    constructor ()
      ensures slugMap == map[] && headingsList == []
    {
      slugMap := map[];
      headingsList := [];
    }

    /** `slugify`: the base slug, suffixed with the number of times it
        was produced before; that number goes up by one. */
    method Slugify(text: string) returns (slug: string)
      modifies this
      ensures var base := BaseSlug(text); var count := Occurrences(old(slugMap), base);
        slug == Dedup(base, count) && slugMap == old(slugMap)[base := count + 1]
      ensures headingsList == old(headingsList)
    {
      slug := BaseSlug(text);
      var count := Occurrences(slugMap, slug);
      slugMap := slugMap[slug := count + 1];
      if count > 0 {
        slug := slug + "-" + NatToString(count);
      }
    }

    /** `renderer.heading`: one slug per heading of any depth; recorded
        in `headingsList` only for depth 1 to 4. */
    method HeadingHook(depth: nat, tokens: seq<InlineToken>) returns (html: string)
      modifies this
      ensures var q := Step(old(slugMap), Heading(depth, tokens));
        html == q.html && headingsList == old(headingsList) + q.headings && slugMap == q.slugMap
    {
      var text := JoinTokens(tokens);
      var id := Slugify(text);
      if 1 <= depth <= 4 {
        headingsList := headingsList + [HeadingItem(id, text, depth)];
      }
      html := HeadingHtml(depth, id, text);
    }

    /** One event through its hook. */
    method RenderEvent(e: Event) returns (html: string)
      modifies this
      ensures var q := Step(old(slugMap), e);
        html == q.html && headingsList == old(headingsList) + q.headings && slugMap == q.slugMap
    {
      match e
      case Heading(depth, tokens) => html := HeadingHook(depth, tokens);
      case Paragraph(text) => html := ParagraphHtml(text);
      case Codespan(text) => html := CodespanHtml(text);
      case Other(markup) => html := markup;
    }

    /** `formatMarkdown`: the empty document renders to nothing and
        touches no state; otherwise the heading list is cleared and the
        events are rendered in order, the slug map carrying over from
        earlier calls. */
    method FormatMarkdown(content: string, events: seq<Event>) returns (html: string, headings: seq<HeadingItem>)
      modifies this
      ensures content == "" ==>
        html == "" && headings == [] && slugMap == old(slugMap) && headingsList == old(headingsList)
      ensures content != "" ==>
        Pass(html, headings, slugMap) == Render(old(slugMap), events) && headingsList == headings
    {
      if content == "" {
        return "", [];
      }
      headingsList := [];
      html := "";
      var i := 0;
      while i < |events|
        invariant 0 <= i <= |events|
        invariant Render(old(slugMap), events[..i]) == Pass(html, headingsList, slugMap)
      {
        assert events[..i + 1][..i] == events[..i];
        var piece := RenderEvent(events[i]);
        html := html + piece;
        i := i + 1;
      }
      assert events[..|events|] == events;
      headings := headingsList;
    }
  }

  /** A heading of depth 5 or 6 is rendered with an id and advances the
      counter of its base slug, but is not recorded. */
  lemma DeepHeadingNotRecorded(m: SlugMap, depth: nat, tokens: seq<InlineToken>)
    requires depth >= 5
    ensures var b := BaseSlug(JoinTokens(tokens)); var p := Render(m, [Heading(depth, tokens)]);
      p.headings == [] && Occurrences(p.slugMap, b) == Occurrences(m, b) + 1
      && p.html == HeadingHtml(depth, Dedup(b, Occurrences(m, b)), JoinTokens(tokens))
  {
    var evs := [Heading(depth, tokens)];
    assert evs[..0] == [];
  }

  /** Rendering the same heading twice without a reset: the second render
      gives it the next suffix, so the two ids differ. */
  lemma RerenderSameHeading(m: SlugMap, depth: nat, tokens: seq<InlineToken>)
    requires IsOutlineLevel(depth)
    ensures var text := JoinTokens(tokens); var b := BaseSlug(text); var c := Occurrences(m, b);
      var p1 := Render(m, [Heading(depth, tokens)]);
      var p2 := Render(p1.slugMap, [Heading(depth, tokens)]);
      p1.headings == [HeadingItem(Dedup(b, c), text, depth)]
      && p2.headings == [HeadingItem(Dedup(b, c + 1), text, depth)]
      && p1.headings[0].id != p2.headings[0].id
  {
    var evs := [Heading(depth, tokens)];
    assert evs[..0] == [];
    var b := BaseSlug(JoinTokens(tokens));
    if Dedup(b, Occurrences(m, b)) == Dedup(b, Occurrences(m, b) + 1) {
      DedupInjective(b, Occurrences(m, b), Occurrences(m, b) + 1);
    }
  }
}
