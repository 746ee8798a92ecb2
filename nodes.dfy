/**
 * The fan-out of the paragraph stage: `continue_to_paragraphs` sends one
 * task per outline child (src/nodes.py:153-155, nodes.py:60-62) and
 * `paragraph_writer` turns a task and the model's reply into one paragraph
 * record (src/nodes.py:115-151, nodes.py:37-58). The model call is not
 * modelled: its reply is a parameter.
 *
 * The join lemmas follow the paragraphs through the append reducer and
 * `final_writer`: whatever order the branches finish in, the article gets
 * one paragraph per child, in outline order.
 */
module Nodes {
  import opened Common
  import opened Reducers
  import opened Workflow
  import opened Ordering
  import opened Assembler

  const ParagraphNode := "paragraph_node"

  /**
   * `[Send("paragraph_node", {"original_article": ..., "node": child}) for child in children]`:
   * one task per child, in child order, carrying the article and that child only.
   */
  function ContinueToParagraphs(s: State): (sends: seq<Send>)
    ensures |sends| == |s.outline.children|
    ensures forall i :: 0 <= i < |sends| ==>
              sends[i].node == ParagraphNode && sends[i].arg.node == s.outline.children[i]
              && sends[i].arg.original_article == s.original_article
  {
    seq(|s.outline.children|, i requires 0 <= i < |s.outline.children| =>
      Send(ParagraphNode, ParagraphState(s.original_article, s.outline.children[i])))
  }

  /**
   * `paragraph_writer(state, model)` with the model's reply given: a section
   * without `node_id` raises at once, one without `title` once the record is
   * built; otherwise the update appends one paragraph and one AI message.
   */
  function ParagraphWriter(task: ParagraphState, reply: string): (r: Result<Update>)
    ensures r.Ok? <==> NodeIdKey in task.node && TitleKey in task.node
    ensures r.Err? ==> r.error == KeyError(if NodeIdKey !in task.node then NodeIdKey else TitleKey)
    ensures r.Ok? ==>
              && OnlyParagraphsAndMessages(r.value)
              && r.value.paragraphs == Some([Paragraph(task.node[NodeIdKey], task.node[TitleKey], reply)])
              && r.value.messages == Some([Message(Ai, reply)])
  {
    var node := task.node;
    if NodeIdKey !in node then Err(KeyError(NodeIdKey))
    else if TitleKey !in node then Err(KeyError(TitleKey))
    else Ok(NoWrites.(paragraphs := Some([Paragraph(node[NodeIdKey], node[TitleKey], reply)]),
                      messages := Some([Message(Ai, reply)])))
  }

  /** The paragraph each branch writes, in child order: the child's id and title, and its reply. */
  function BranchParagraphs(children: seq<Section>, replies: seq<string>): (ps: seq<Paragraph>)
    requires AllHaveIds(children) && AllHaveTitles(children)
    requires |replies| == |children|
    ensures |ps| == |children|
  {
    seq(|children|, i requires 0 <= i < |children| =>
      Paragraph(children[i][NodeIdKey], children[i][TitleKey], replies[i]))
  }

  /**
   * Fan-out then write: task `i` succeeds exactly when child `i` has both
   * keys, and then writes the `i`-th branch paragraph and its reply as a
   * message.
   */
  lemma FanOutWritesOneParagraphPerChild(s: State, replies: seq<string>, i: nat)
    requires i < |s.outline.children| && |replies| == |s.outline.children|
    ensures var r := ParagraphWriter(ContinueToParagraphs(s)[i].arg, replies[i]);
            var child := s.outline.children[i];
            && (r.Ok? <==> NodeIdKey in child && TitleKey in child)
            && (AllHaveIds(s.outline.children) && AllHaveTitles(s.outline.children) ==>
                  r == Ok(JoinUpdate(BranchParagraphs(s.outline.children, replies)[i])))
  {
  }

  /** The update a finished branch contributes to the join. */
  function JoinUpdate(p: Paragraph): Update
  {
    NoWrites.(paragraphs := Some([p]), messages := Some([Message(Ai, p.full_text)]))
  }

  function JoinUpdates(arrived: seq<Paragraph>): (us: seq<Update>)
    ensures |us| == |arrived|
  {
    seq(|arrived|, i requires 0 <= i < |arrived| => JoinUpdate(arrived[i]))
  }

  lemma {:induction false} JoinUpdatesWrite(arrived: seq<Paragraph>)
    ensures WrittenParagraphs(JoinUpdates(arrived)) == arrived
    decreases |arrived|
  {
    if arrived != [] {
      assert JoinUpdates(arrived)[1..] == JoinUpdates(arrived[1..]);
      JoinUpdatesWrite(arrived[1..]);
      assert arrived == [arrived[0]] + arrived[1..];
    }
  }

  /**
   * The join: merging the branch updates in the order the branches finished
   * appends their paragraphs in that order, and leaves every key other than
   * `paragraphs` and `messages` as it was.
   */
  lemma JoinCollectsArrivals(layout: Layout, s: State, arrived: seq<Paragraph>)
    ensures ApplyAll(layout, s, JoinUpdates(arrived)).paragraphs == s.paragraphs + arrived
    ensures ApplyAll(layout, s, JoinUpdates(arrived)).(paragraphs := s.paragraphs, messages := s.messages) == s
  {
    JoinAppendsParagraphs(layout, s, JoinUpdates(arrived));
    JoinUpdatesWrite(arrived);
  }

  /**
   * End to end: when the outline's ids are distinct and every child has an
   * id and a title, `final_writer` turns the branch paragraphs, in whatever
   * order they arrived, back into one paragraph per child in outline order,
   * each with its child's title and its own reply.
   */
  lemma ArticleFollowsOutline(outline: Outline, replies: seq<string>, arrived: seq<Paragraph>)
    requires TitleKey in outline.fields
    requires AllHaveIds(outline.children) && AllHaveTitles(outline.children)
    requires |replies| == |outline.children|
    requires Distinct(ChildIds(outline.children))
    requires multiset(arrived) == multiset(BranchParagraphs(outline.children, replies))
    ensures SortByOutline(ChildIds(outline.children), arrived) == BranchParagraphs(outline.children, replies)
    ensures Assembled(outline, arrived) == BranchParagraphs(outline.children, replies)
  {
    var children := outline.children;
    var ids := ChildIds(children);
    var t := BranchParagraphs(children, replies);
    forall i | 0 <= i < |t|
      ensures Rank(KeyOf(ids), t[i]) == i
    {
      DistinctRank(ids, t[i], i);
    }
    SortRestoresPositional(KeyOf(ids), t, arrived);
    forall i | 0 <= i < |t|
      ensures Retitle(TitleMap(children), t[i]) == t[i]
    {
      RetitleTakesCurrentTitle(children, t[i]);
    }
  }
}
