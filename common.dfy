/**
 * Values shared by every part of the workflow model: the optional and
 * failing results, the Python exceptions that can escape a node, and the
 * records that flow through the workflow state (outline sections,
 * paragraphs, chat messages and fan-out tasks).
 */
module Common {

  datatype Option<+T> = None | Some(value: T)

  /** The exceptions a node can raise; their message text is not modelled. */
  datatype Error =
    | KeyError(key: string)        // a dict lookup `d[key]` on a missing key
    | IndexError(index: int)       // a list index outside the list
    | JsonDecodeError              // `json.loads` rejected the stripped reply

  datatype Result<+T> = Ok(value: T) | Err(error: Error)

  /** One JSON object of the outline: `node_id`, `title`, `content`, ... */
  type Section = map<string, string>

  /**
   * The outline document: its scalar keys (`title`, `node_id`, `content`)
   * and its `children` list of sections.
   */
  datatype Outline = Outline(fields: map<string, string>, children: seq<Section>)

  /** The record `paragraph_writer` builds for one outline section. */
  datatype Paragraph = Paragraph(node_id: string, title: string, full_text: string)

  datatype Role = Human | Ai
  datatype Message = Message(role: Role, content: string)

  /** The metadata dict of a run, or None. */
  type Metadata = Option<map<string, string>>

  /** The sub-state one fanned-out paragraph task sees: exactly these two keys. */
  datatype ParagraphState = ParagraphState(original_article: string, node: Section)

  /** A `Send(node, arg)`: run node `node` on the sub-state `arg`. */
  datatype Send = Send(node: string, arg: ParagraphState)

  const NodeIdKey := "node_id"
  const TitleKey := "title"
  const ContentKey := "content"
  const FullTextKey := "full_text"

  /** Python truthiness of the metadata: None and `{}` are false. */
  predicate Truthy(metadata: Metadata)
  {
    metadata.Some? && |metadata.value| > 0
  }

  /** Every child carries a `node_id`, so `child['node_id']` cannot raise. */
  predicate AllHaveIds(children: seq<Section>)
  {
    forall i :: 0 <= i < |children| ==> NodeIdKey in children[i]
  }

  /** Every child carries a `title`. */
  predicate AllHaveTitles(children: seq<Section>)
  {
    forall i :: 0 <= i < |children| ==> TitleKey in children[i]
  }

  /** The `node_id`s of the children, in outline order. */
  function ChildIds(children: seq<Section>): (ids: seq<string>)
    requires AllHaveIds(children)
    ensures |ids| == |children|
    ensures forall i :: 0 <= i < |children| ==> ids[i] == children[i][NodeIdKey]
  {
    seq(|children|, i requires 0 <= i < |children| => children[i][NodeIdKey])
  }

  /** The `node_id`s of a list of paragraphs, in list order. */
  function Ids(ps: seq<Paragraph>): (ids: seq<string>)
    ensures |ids| == |ps|
    ensures forall i :: 0 <= i < |ps| ==> ids[i] == ps[i].node_id
  {
    seq(|ps|, i requires 0 <= i < |ps| => ps[i].node_id)
  }

  /** No `node_id` occurs twice. */
  predicate Distinct(ids: seq<string>)
  {
    forall i, j :: 0 <= i < j < |ids| ==> ids[i] != ids[j]
  }

  /** Concatenation regroups freely. */
  lemma ConcatAssoc<T>(a: seq<T>, b: seq<T>, c: seq<T>)
    ensures a + b + c == a + (b + c)
  {
  }
}
