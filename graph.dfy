/**
 * The sequential workflow of graph.py: the state its nodes receive and
 * partly edit in place, the routing function `select_next`, the outline
 * call, the per-paragraph call and the final review. Each model reply is a
 * parameter, and so is `json.loads`, as a partial parser.
 *
 * Every node of this file returns `{**state, ...}`: it writes back every
 * key it was given. Merged through the reducers of graph.py:35-43, that echo
 * appends the held lists and strings to themselves again.
 */
module Graph {
  import opened Common
  import opened Text
  import opened Reducers

  /** The two labels `select_next` routes to. */
  datatype Branch = NextParagraph | FinalReview

  /** The values of graph.py's `State`, as held by the workflow or returned by a node. */
  datatype GraphValues = GraphValues(
    original_article: string,
    outline: Outline,
    final_response: seq<string>,
    final_article: string,
    insights: string,
    transcript: string,
    messages: seq<Message>,
    current_index: nat)

  /**
   * Merge an update that writes every key, through the reducers of
   * graph.py:35-43: take-latest for the article, the outline and the index,
   * list append for `final_response` and `messages`, concatenation for the
   * three text fields.
   */
  function MergeGraph(held: GraphValues, written: GraphValues): (merged: GraphValues)
    ensures merged.original_article == written.original_article && merged.outline == written.outline
    ensures merged.current_index == written.current_index
    ensures Accumulated(merged.final_response, held.final_response, written.final_response)
    ensures Accumulated(merged.messages, held.messages, written.messages)
    ensures Accumulated(merged.final_article, held.final_article, written.final_article)
    ensures Accumulated(merged.insights, held.insights, written.insights)
    ensures Accumulated(merged.transcript, held.transcript, written.transcript)
  {
    GraphValues(
      original_article := TakeLatest(held.original_article, written.original_article),
      outline := TakeLatest(held.outline, written.outline),
      final_response := Append(held.final_response, written.final_response),
      final_article := Concat(held.final_article, written.final_article),
      insights := Concat(held.insights, written.insights),
      transcript := Concat(held.transcript, written.transcript),
      messages := Append(held.messages, written.messages),
      current_index := TakeLatest(held.current_index, written.current_index))
  }

  /** The `final_response` entry `f"{node['node_id']} {response.content}"`. */
  function Entry(nodeId: string, reply: string): (entry: string)
    ensures |entry| == |nodeId| + 1 + |reply|
    ensures entry[..|nodeId|] == nodeId && entry[|nodeId|] == ' ' && entry[|nodeId| + 1..] == reply
  {
    nodeId + " " + reply
  }

  /** `section` with its `content` key deleted, if it had one. */
  function WithoutContent(section: map<string, string>): (r: map<string, string>)
    ensures ContentKey !in r
    ensures forall k :: k != ContentKey ==> (k in r <==> k in section) && (k in r ==> r[k] == section[k])
  {
    section - {ContentKey}
  }

  class GraphRun {
    var original_article: string
    var outline: Outline
    var final_response: seq<string>
    var final_article: string
    var insights: string
    var transcript: string
    var messages: seq<Message>
    var current_index: nat

    /** The index never passes the number of children. */
    predicate Valid()
      reads this
    {
      current_index <= |outline.children|
    }

    /** The state as a value: what `{**state}` copies. */
    function Values(): GraphValues
      reads this
    {
      GraphValues(original_article, outline, final_response, final_article, insights, transcript,
                  messages, current_index)
    }

    /** The initial state `run_workflow` builds around the input article; `{}` is an outline with no keys and no children. */
    constructor (input: string)
      ensures original_article == input
      ensures outline == Outline(map[], []) && messages == [] && final_response == []
      ensures current_index == 0 && final_article == "" && transcript == "" && insights == ""
      ensures Valid()
    {
      original_article := input;
      messages := [];
      outline := Outline(map[], []);
      final_response := [];
      current_index := 0;
      final_article := "";
      transcript := "";
      insights := "";
    }

    /**
     * `select_next(state)`: once the index has reached the number of
     * children the run goes to the final review and nothing changes;
     * otherwise the index advances by exactly one and the next paragraph
     * is written.
     */
    method SelectNext() returns (b: Branch)
      modifies this`current_index
      ensures old(current_index) >= |outline.children| ==> b == FinalReview && current_index == old(current_index)
      ensures old(current_index) < |outline.children| ==> b == NextParagraph && current_index == old(current_index) + 1
      ensures old(Valid()) ==> Valid()
      ensures old(Valid()) ==> (b == FinalReview <==> old(current_index) == |outline.children|)
    {
      if current_index >= |outline.children| {
        return FinalReview;
      }
      current_index := current_index + 1;
      return NextParagraph;
    }

    /**
     * `first_call(state, model)` given the outline prompt and the reply:
     * the prompt is appended to the held messages in place, then the
     * stripped reply is parsed; a reply that does not parse raises after
     * the append. The update echoes the state with the parsed outline and
     * the reply as the only new message.
     */
    method FirstCall(prompt: string, reply: string, parse: string -> Option<Outline>) returns (r: Result<GraphValues>)
      modifies this`messages
      ensures messages == old(messages) + [Message(Human, prompt)]
      ensures parse(RemoveJsonMarkers(reply)).None? ==> r == Err(JsonDecodeError)
      ensures parse(RemoveJsonMarkers(reply)).Some? ==>
                r == Ok(Values().(outline := parse(RemoveJsonMarkers(reply)).value, messages := [Message(Ai, reply)]))
      ensures old(Valid()) ==> Valid()
    {
      messages := messages + [Message(Human, prompt)];
      var formatted := RemoveJsonMarkers(reply);
      var parsed := parse(formatted);
      if parsed.None? {
        return Err(JsonDecodeError);
      }
      r := Ok(Values().(outline := parsed.value, messages := [Message(Ai, reply)]));
    }

    /**
     * `second_call(state, model)` given the reply: an index past the
     * children raises IndexError and a child without `node_id` raises
     * KeyError, both before anything changes; otherwise the reply is stored
     * as the child's `full_text` in place, and the update echoes the state
     * with the next index, the held responses plus one entry, and the reply
     * as the only new message.
     */
    method SecondCall(reply: string) returns (r: Result<GraphValues>)
      modifies this`outline
      ensures old(current_index) >= |old(outline.children)| ==>
                r == Err(IndexError(current_index)) && outline == old(outline)
      ensures old(current_index) < |old(outline.children)| && NodeIdKey !in old(outline.children[current_index]) ==>
                r == Err(KeyError(NodeIdKey)) && outline == old(outline)
      ensures old(current_index) < |old(outline.children)| && NodeIdKey in old(outline.children[current_index]) ==>
                && outline == old(outline).(children := old(outline.children)[current_index :=
                                              old(outline.children[current_index])[FullTextKey := reply]])
                && r == Ok(Values().(current_index := current_index + 1,
                                     final_response := final_response + [Entry(old(outline.children[current_index])[NodeIdKey], reply)],
                                     messages := [Message(Ai, reply)]))
      ensures old(Valid()) ==> Valid()
      ensures r.Ok? ==> r.value.current_index <= |outline.children|
      ensures old(Valid()) ==> (r.Err? && r.error.IndexError? <==> old(current_index) == |old(outline.children)|)
    {
      if current_index >= |outline.children| {
        return Err(IndexError(current_index));
      }
      var node := outline.children[current_index];
      if NodeIdKey !in node {
        return Err(KeyError(NodeIdKey));
      }
      outline := outline.(children := outline.children[current_index := node[FullTextKey := reply]]);
      r := Ok(Values().(current_index := current_index + 1,
                        final_response := final_response + [Entry(node[NodeIdKey], reply)],
                        messages := [Message(Ai, reply)]));
    }

    /**
     * `final_review(state, model)` given the reply: deletes `content` from
     * the outline and from every child in place, then returns the state
     * with the reply as the article and as the only new message.
     */
    method FinalReviewStep(reply: string) returns (u: GraphValues)
      modifies this`outline
      ensures outline.fields == WithoutContent(old(outline.fields))
      ensures |outline.children| == |old(outline.children)|
      ensures forall i :: 0 <= i < |outline.children| ==> outline.children[i] == WithoutContent(old(outline.children[i]))
      ensures u == Values().(final_article := reply, messages := [Message(Ai, reply)])
      ensures old(Valid()) ==> Valid()
    {
      if ContentKey in outline.fields {
        outline := outline.(fields := outline.fields - {ContentKey});
      }
      var i := 0;
      while i < |outline.children|
        invariant 0 <= i <= |outline.children| == |old(outline.children)|
        invariant outline.fields == WithoutContent(old(outline.fields))
        invariant forall k :: 0 <= k < i ==> outline.children[k] == WithoutContent(old(outline.children[k]))
        invariant forall k :: i <= k < |outline.children| ==> outline.children[k] == old(outline.children[k])
      {
        var item := outline.children[i];
        if ContentKey in item {
          outline := outline.(children := outline.children[i := item - {ContentKey}]);
        }
        i := i + 1;
      }
      u := Values().(final_article := reply, messages := [Message(Ai, reply)]);
    }
  }

  /**
   * Merging `second_call`'s update does not append one entry to
   * `final_response`: the echoed list is appended to itself first, and so
   * are the three text fields, while the index and outline are replaced.
   */
  lemma {:induction false} SecondCallEchoDoubles(held: GraphValues, entry: string, reply: string)
    ensures var written := held.(current_index := held.current_index + 1,
                                 final_response := held.final_response + [entry],
                                 messages := [Message(Ai, reply)]);
            var merged := MergeGraph(held, written);
            && merged.final_response == held.final_response + held.final_response + [entry]
            && merged.final_article == held.final_article + held.final_article
            && merged.insights == held.insights + held.insights
            && merged.transcript == held.transcript + held.transcript
            && merged.messages == held.messages + [Message(Ai, reply)]
            && merged.current_index == held.current_index + 1
            && merged.outline == held.outline
            && (held.final_response != [] ==> merged.final_response != held.final_response + [entry])
  {
    var merged := MergeGraph(held, held.(current_index := held.current_index + 1,
                                         final_response := held.final_response + [entry],
                                         messages := [Message(Ai, reply)]));
    assert merged.final_response == held.final_response + (held.final_response + [entry]);
    if held.final_response != [] {
      assert |merged.final_response| > |held.final_response + [entry]|;
    }
  }

  /**
   * The update `second_call` evidently intends: the next index, the one new
   * entry and the one new message, with the identity of each accumulating
   * reducer everywhere else. Merged, it appends exactly one entry and leaves
   * the held texts as they were.
   */
  function SecondCallDelta(held: GraphValues, entry: string, reply: string): (written: GraphValues)
    ensures MergeGraph(held, written) == held.(current_index := held.current_index + 1,
                                               final_response := held.final_response + [entry],
                                               messages := held.messages + [Message(Ai, reply)])
  {
    held.(current_index := held.current_index + 1, final_response := [entry], final_article := "",
          insights := "", transcript := "", messages := [Message(Ai, reply)])
  }

  /**
   * Merging `final_review`'s update: the reply is appended to the held
   * article, while the echoed insights and transcript double.
   */
  lemma FinalReviewEcho(held: GraphValues, reply: string)
    ensures var merged := MergeGraph(held, held.(final_article := reply, messages := [Message(Ai, reply)]));
            && merged.final_article == held.final_article + reply
            && merged.insights == held.insights + held.insights
            && merged.transcript == held.transcript + held.transcript
            && merged.final_response == held.final_response + held.final_response
  {
  }

  /**
   * From the initial state the echoes are harmless: every held list and
   * text is empty, so `second_call`'s merge leaves exactly one entry.
   */
  lemma FirstEntryFromEmpty(held: GraphValues, entry: string, reply: string)
    requires held.final_response == [] && held.final_article == "" && held.insights == "" && held.transcript == ""
    ensures MergeGraph(held, held.(current_index := held.current_index + 1,
                                   final_response := held.final_response + [entry],
                                   messages := [Message(Ai, reply)])).final_response == [entry]
  {
  }
}
