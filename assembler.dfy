/**
 * `final_writer`: the node that assembles the article once every paragraph
 * has been written (src/nodes.py:157-185), and its older copy at the
 * repository root (nodes.py:64-85), which sorts but does not retitle.
 *
 * The node checks the outline (its title, then the `node_id` and the
 * `title` of every child), sorts `state['paragraphs']` in place by outline
 * position, overwrites each paragraph's title with the outline's current one
 * (src/nodes.py only) and renders the article from the reordered list.
 */
module Assembler {
  import opened Common
  import opened Ordering
  import opened Render
  import opened Workflow

  /**
   * `{child['node_id']: child['title'] for child in children}`: a later
   * child with the same id overwrites an earlier one.
   */
  function TitleMap(children: seq<Section>): (titles: map<string, string>)
    requires AllHaveIds(children) && AllHaveTitles(children)
    ensures forall i :: 0 <= i < |children| ==> children[i][NodeIdKey] in titles
    ensures children != [] ==> titles[children[|children| - 1][NodeIdKey]] == children[|children| - 1][TitleKey]
    decreases |children|
  {
    if children == [] then map[]
    else
      var last := children[|children| - 1];
      TitleMap(children[..|children| - 1])[last[NodeIdKey] := last[TitleKey]]
  }

  /**
   * The title map holds the same ids as the order map, and each id's title
   * is that of the child the order map places it at: its last occurrence.
   */
  lemma TitleMapFollowsOrderMap(children: seq<Section>)
    requires AllHaveIds(children) && AllHaveTitles(children)
    ensures TitleMap(children).Keys == OrderMap(ChildIds(children)).Keys
    ensures forall id :: id in TitleMap(children) ==>
              TitleMap(children)[id] == children[OrderMap(ChildIds(children))[id]][TitleKey]
  {
    forall id
      ensures id in TitleMap(children) <==> id in OrderMap(ChildIds(children))
      ensures id in TitleMap(children) ==> TitleMap(children)[id] == children[OrderMap(ChildIds(children))[id]][TitleKey]
    {
      TitleAt(children, id);
    }
  }

  /** The title map and the order map, one id at a time. */
  lemma {:induction false} TitleAt(children: seq<Section>, id: string)
    requires AllHaveIds(children) && AllHaveTitles(children)
    ensures id in TitleMap(children) <==> id in OrderMap(ChildIds(children))
    ensures id in TitleMap(children) ==> TitleMap(children)[id] == children[OrderMap(ChildIds(children))[id]][TitleKey]
    decreases |children|
  {
    if children != [] {
      var n := |children|;
      var front := children[..n - 1];
      var ids := ChildIds(children);
      TitleAt(front, id);
      ChildIdsFront(children);
      assert TitleMap(children) == TitleMap(front)[ids[n - 1] := children[n - 1][TitleKey]];
      assert OrderMap(ids) == OrderMap(ids[..n - 1])[ids[n - 1] := n - 1];
      if id != ids[n - 1] && id in TitleMap(front) {
        var j := OrderMap(ids[..n - 1])[id];
        assert j < n - 1;
        assert front[j] == children[j];
      }
    }
  }

  lemma ChildIdsFront(children: seq<Section>)
    requires children != [] && AllHaveIds(children)
    ensures ChildIds(children[..|children| - 1]) == ChildIds(children)[..|children| - 1]
  {
  }

  /** `para['title'] = title_map.get(para['node_id'], para['title'])`. */
  function Retitle(titles: map<string, string>, p: Paragraph): Paragraph
  {
    p.(title := if p.node_id in titles then titles[p.node_id] else p.title)
  }

  /** Every paragraph of the list retitled, in place. */
  function Retitled(titles: map<string, string>, ps: seq<Paragraph>): (r: seq<Paragraph>)
    ensures |r| == |ps|
  {
    seq(|ps|, i requires 0 <= i < |ps| => Retitle(titles, ps[i]))
  }

  /**
   * After retitling from the outline, a paragraph keeps its `node_id` and
   * `full_text`; its title is that of the outline child it is ranked at (the
   * last child with its id) when the outline has its id, and its own title
   * otherwise.
   */
  lemma RetitleTakesCurrentTitle(children: seq<Section>, p: Paragraph)
    requires AllHaveIds(children) && AllHaveTitles(children)
    ensures var q := Retitle(TitleMap(children), p);
            var r := Rank(KeyOf(ChildIds(children)), p);
            && q.node_id == p.node_id && q.full_text == p.full_text
            && q.title == if r < |children| then children[r][TitleKey] else p.title
  {
    TitleMapFollowsOrderMap(children);
  }

  /** Retitling twice is retitling once. */
  lemma RetitleIdempotent(titles: map<string, string>, ps: seq<Paragraph>)
    ensures Retitled(titles, Retitled(titles, ps)) == Retitled(titles, ps)
  {
  }

  /** The retitling loop `for para in paragraphs: para['title'] = ...`. */
  method RetitleAll(titles: map<string, string>, a: array<Paragraph>)
    modifies a
    ensures a[..] == Retitled(titles, old(a[..]))
  {
    for i := 0 to a.Length
      invariant a[..i] == Retitled(titles, old(a[..i]))
      invariant a[i..] == old(a[i..])
    {
      a[i] := Retitle(titles, a[i]);
    }
  }

  /**
   * The KeyError `final_writer` raises on a malformed outline before it
   * touches the paragraphs, if any: the outline's title is read first, then
   * every child's `node_id` (for `order_map`), then every child's `title`
   * (for `title_map`).
   */
  function OutlineError(outline: Outline): (e: Option<Error>)
    ensures e.None? <==> TitleKey in outline.fields && AllHaveIds(outline.children) && AllHaveTitles(outline.children)
  {
    if TitleKey !in outline.fields then Some(KeyError(TitleKey))
    else if !AllHaveIds(outline.children) then Some(KeyError(NodeIdKey))
    else if !AllHaveTitles(outline.children) then Some(KeyError(TitleKey))
    else None
  }

  /** The paragraph list `final_writer` leaves behind: sorted by the outline, then retitled. */
  function Assembled(outline: Outline, ps: seq<Paragraph>): seq<Paragraph>
    requires OutlineError(outline).None?
  {
    Retitled(TitleMap(outline.children), SortByOutline(ChildIds(outline.children), ps))
  }

  /** The node's update: the rendered document under `final_article` and nothing else. */
  function FinalArticleUpdate(doc: Result<string>): (r: Result<Update>)
    ensures doc.Ok? <==> r.Ok?
    ensures r.Ok? ==> r.value == NoWrites.(final_article := Some(doc.value))
    ensures r.Err? ==> r.error == doc.error
  {
    match doc
    case Ok(text) => Ok(NoWrites.(final_article := Some(text)))
    case Err(e) => Err(e)
  }

  /**
   * Merged into the state, the node's update replaces `final_article` under
   * src/state.py, which declares no reducer for it, and is appended to it
   * under the older state.py; every other key stays as it was.
   */
  lemma FinalArticleMerge(s: State, doc: string)
    ensures FinalArticleUpdate(Ok(doc)).Ok?
    ensures Apply(Package, s, FinalArticleUpdate(Ok(doc)).value) == s.(final_article := doc)
    ensures Apply(Legacy, s, FinalArticleUpdate(Ok(doc)).value) == s.(final_article := s.final_article + doc)
  {
  }

  /**
   * When every outline id is carried by exactly one paragraph, the article's
   * sections come in outline order, each under its child's current title,
   * whatever order the paragraphs arrived in.
   */
  lemma AssembledFollowsOutline(outline: Outline, ps: seq<Paragraph>)
    requires OutlineError(outline).None?
    requires Distinct(ChildIds(outline.children))
    requires multiset(Ids(ps)) == multiset(ChildIds(outline.children))
    ensures |Assembled(outline, ps)| == |outline.children|
    ensures forall i :: 0 <= i < |outline.children| ==>
              && Assembled(outline, ps)[i].node_id == outline.children[i][NodeIdKey]
              && Assembled(outline, ps)[i].title == outline.children[i][TitleKey]
  {
    var children := outline.children;
    var ids := ChildIds(children);
    var sorted := SortByOutline(ids, ps);
    OutlineOrderRestored(ids, ps);
    assert |sorted| == |Ids(sorted)| == |ids|;
    forall i | 0 <= i < |children|
      ensures Assembled(outline, ps)[i].node_id == children[i][NodeIdKey]
      ensures Assembled(outline, ps)[i].title == children[i][TitleKey]
    {
      assert sorted[i].node_id == Ids(sorted)[i] == ids[i];
      RetitleTakesCurrentTitle(children, sorted[i]);
      DistinctRank(ids, sorted[i], i);
    }
  }

  /**
   * `final_writer(state)` of src/nodes.py: a malformed outline raises before
   * the paragraphs are touched; otherwise the paragraphs are sorted and
   * retitled in place and the article is rendered from them, which can
   * still raise on metadata without a link.
   */
  method FinalWriter(outline: Outline, paragraphs: array<Paragraph>, insights: string, transcript: string,
                     metadata: Metadata, preface: string) returns (r: Result<Update>)
    modifies paragraphs
    ensures OutlineError(outline).Some? ==>
              r == Err(OutlineError(outline).value) && paragraphs[..] == old(paragraphs[..])
    ensures OutlineError(outline).None? ==>
              && paragraphs[..] == Assembled(outline, old(paragraphs[..]))
              && r == FinalArticleUpdate(Article(outline.fields[TitleKey], insights, paragraphs[..],
                                                 transcript, metadata, preface))
  {
    if TitleKey !in outline.fields {
      return Err(KeyError(TitleKey));
    }
    var children := outline.children;
    if !AllHaveIds(children) {
      return Err(KeyError(NodeIdKey));
    }
    var key := SortKey(OrderMap(ChildIds(children)), |children|);
    if !AllHaveTitles(children) {
      return Err(KeyError(TitleKey));
    }
    var titles := TitleMap(children);
    SortParagraphs(key, paragraphs);
    RetitleAll(titles, paragraphs);
    var doc := GenerateFinalArticle(outline.fields[TitleKey], insights, paragraphs[..], transcript, metadata, preface);
    r := FinalArticleUpdate(doc);
  }

  /** The KeyError the root copy raises on a malformed outline: it reads no child titles. */
  function LegacyOutlineError(outline: Outline): (e: Option<Error>)
    ensures e.None? <==> TitleKey in outline.fields && AllHaveIds(outline.children)
  {
    if TitleKey !in outline.fields then Some(KeyError(TitleKey))
    else if !AllHaveIds(outline.children) then Some(KeyError(NodeIdKey))
    else None
  }

  /**
   * `final_writer(state)` of nodes.py: the same sort, no retitling. Its
   * renderer is not defined in that copy, so it is a parameter here.
   */
  method LegacyFinalWriter(outline: Outline, paragraphs: array<Paragraph>, insights: string, transcript: string,
                           render: (string, string, seq<Paragraph>, string) -> string) returns (r: Result<Update>)
    modifies paragraphs
    ensures LegacyOutlineError(outline).Some? ==>
              r == Err(LegacyOutlineError(outline).value) && paragraphs[..] == old(paragraphs[..])
    ensures LegacyOutlineError(outline).None? ==>
              && paragraphs[..] == SortByOutline(ChildIds(outline.children), old(paragraphs[..]))
              && r == Ok(NoWrites.(final_article := Some(render(outline.fields[TitleKey], insights, paragraphs[..], transcript))))
  {
    if TitleKey !in outline.fields {
      return Err(KeyError(TitleKey));
    }
    var children := outline.children;
    if !AllHaveIds(children) {
      return Err(KeyError(NodeIdKey));
    }
    SortParagraphs(SortKey(OrderMap(ChildIds(children)), |children|), paragraphs);
    r := Ok(NoWrites.(final_article := Some(render(outline.fields[TitleKey], insights, paragraphs[..], transcript))));
  }

  /**
   * Without retitling, every paragraph of the sorted list is one that
   * arrived, title included: the root copy keeps the title captured when
   * the paragraph was written.
   */
  lemma LegacyKeepsCapturedTitles(ids: seq<string>, ps: seq<Paragraph>, i: nat)
    requires i < |SortByOutline(ids, ps)|
    ensures SortByOutline(ids, ps)[i] in ps
  {
    SortIsPermutation(KeyOf(ids), ps);
    assert SortByOutline(ids, ps)[i] in multiset(SortByOutline(ids, ps));
  }
}
