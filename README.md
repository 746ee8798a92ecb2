# wpa-langgraph: the bookkeeping around the model calls

wpa-langgraph rewrites an article in a few steps. A language model drafts a
JSON outline. One paragraph is written per outline child: in parallel in the
`src/` package, one after another in the older `graph.py` script. A final
node then assembles the paragraphs into a Markdown document. This project
models the deterministic code around those model calls. Every model reply
is a string parameter, and `json.loads` is a partial parser parameter.

Modules, one per part of the program:

- `Common` (common.dfy): outline sections as JSON objects (`map<string,string>`), paragraph records, messages, `Send` tasks, Python exceptions as `Error`, `Result`/`Option`.
- `Text` (text.dfy): `remove_json_markers` (utils.py, copied verbatim at graph.py:55-69), with Python's `str.strip` written out over the `str.isspace` characters.
- `Reducers` (reducers.dfy): `take_latest`, `operator.concat` on strings, `operator.add` on lists.
- `Workflow` (workflow.dfy): the `State` of src/state.py (`Package`) and of the older state.py (`Legacy`), and how a node's partial update merges into it. Each key merges through its own reducer, or is overwritten when it has none.
- `Render` (render.dfy): `generate_final_article` of src/prompts.py, as a method with a loop proved against a recursive `Body` function.
- `Ordering` (ordering.dfy): the `order_map` index of `final_writer` and its stable in-place sort.
  - The `float('inf')` key of an unmatched id is the rank `|children|`.
  - The specification `SortBy` lists the paragraphs of rank 0, then rank 1, and so on, each group in arrival order.
  - `SortParagraphs` is an in-place stable insertion sort on an array and is proved equal to `SortBy`. A stable sort's result is unique, so this also pins down what Python's `list.sort` returns.
- `Assembler` (assembler.dfy): `final_writer` of src/nodes.py (checks the outline, sorts, retitles, renders) and its older copy in nodes.py (sorts only).
- `Nodes` (nodes.dfy): `continue_to_paragraphs` and `paragraph_writer`, and the end-to-end lemma that the parallel branches produce an outline-ordered article whatever order they finish in.
- `Graph` (graph.dfy): graph.py's sequential workflow.
  - The state is a class whose fields the nodes edit in place.
  - It covers `select_next`, `first_call`, `second_call`, `final_review` and the `run_workflow` initial state.
  - It also covers the merge of the `{**state, ...}` updates these nodes return.
  - `GraphRun.Valid` is the index bound: `current_index` never passes the number of outline children. The constructor establishes it, and every node method keeps it.

`select_next` appears verbatim at src/nodes.py:59-67, nodes.py:9-17 and graph.py:45-53. It is modelled once, as `Graph.GraphRun.SelectNext`. `continue_to_paragraphs` and `paragraph_writer` are also the same in src/nodes.py and nodes.py: both read `node_id` before `title`, so both raise the same KeyErrors. Each is modelled once, and the rows below cite the src/ copy.

## Model

| member | source | states |
|---|---|---|
| `Text.RemoveJsonMarkers` | utils.py:1-15 | the result has no leading or trailing whitespace and is never longer than the input |
| `Text.DropStartMarker` | utils.py:7-8 | a leading "```json" is removed exactly once, at position 0; any other text is kept |
| `Text.DropEndMarker` | utils.py:11-12 | a trailing "```" is removed exactly once; any other text is kept |
| `Text.Strip` | utils.py:15 | `str.strip()`: the result is never longer and has no whitespace at either end |
| `Text.TrimStart` | utils.py:15 | drops exactly the leading whitespace: what it removes is all whitespace and the result starts with a non-space |
| `Text.TrimEnd` | utils.py:15 | drops exactly the trailing whitespace, symmetrically |
| `Text.StripPadded` | utils.py:15 | stripping whitespace padding around an already-stripped text gives that text back |
| `Text.StripKeepsTrimmed` | utils.py:15 | strip is the identity on a text with no outer whitespace |
| `Text.RoundTrip` | utils.py:1-15 | wrapping a stripped text in "```json\n" … "\n```" and removing the markers gives the text back |
| `Text.NoMarkersOnlyStrips` | utils.py:7-15 | text with neither marker is only stripped |
| `Text.OpeningNotAMarker` | utils.py:7-8 | leading whitespace, or a bare "```" opening, is not taken for the start marker |
| `Text.BareFenceKept` | utils.py:7-15 | a reply that opens with a bare "```" rather than "```json", and either does not end with "```" or is at least six characters long, still opens with "```" after marker removal |
| `Reducers.TakeLatest` | src/state.py:6-7 | the reducer's result is the written value, whatever was held |
| `Reducers.Concat` | src/state.py:13-14 | `operator.concat`: the held text stays in front, unchanged, the written text follows, and lengths add |
| `Reducers.Append` | src/state.py:15-16 | `operator.add`: the held items stay first and in order, the written items follow, and lengths add |
| `Reducers.TakeLatestIdempotent` | src/state.py:6-7 | `take_latest` returns the written value, and writing the same value twice equals writing it once |
| `Reducers.ConcatAccumulates` | src/state.py:13-18 | two string writes accumulate in order, lengths add, and a non-empty first write is never lost |
| `Reducers.ConcatIdentity` | src/state.py:13-14 | "" is a two-sided identity of the concatenation reducer |
| `Reducers.AppendAssociative` | src/state.py:16 | list append is associative |
| `Reducers.AppendAllSingletons` | src/state.py:16 | merging one-item branch writes in arrival order appends the arrivals in that order |
| `Reducers.BranchOrderIrrelevantUpToPermutation` | src/state.py:16 | two arrival orders of the same branch writes give the same length and multiset, though not the same list |
| `Workflow.Apply` | src/state.py:9-18 | merging one update: a key the update does not write keeps its value; `original_article`, `outline` (take-latest) and `metadata`, plus `final_article` under src/state.py (no reducer), hold the written value; `insights`, `transcript`, `preface`, `messages` and `paragraphs`, plus `final_article` under state.py, keep the held value followed by the written one |
| `Workflow.NoWritesIsIdentity` | src/state.py:9-18 | an update writing no key leaves the state unchanged |
| `Workflow.OverwriteIdempotent` | src/state.py:10-12 | an update that only writes take-latest or plain keys is idempotent |
| `Workflow.TextWritesAccumulate` | state.py:13-14 | two writes to `insights` and `transcript` concatenate, under both declarations |
| `Workflow.PrefaceWritesAccumulate` | src/state.py:18 | two writes to `preface` concatenate |
| `Workflow.FinalArticleByLayout` | state.py:12 | `final_article` is overwritten under src/state.py but accumulates under state.py |
| `Workflow.MetadataOverwritten` | src/state.py:17 | `metadata` has no reducer: a write replaces it |
| `Workflow.DisjointUpdatesCommute` | src/state.py:9-18 | two updates writing different keys can be merged in either order |
| `Workflow.JoinAppendsParagraphs` | src/state.py:15-16 | merging paragraph-and-message updates appends their paragraphs in order and leaves every other key alone |
| `Render.GenerateFinalArticle` | src/prompts.py:145-155 | the loop-built document (or KeyError) equals the specification `Article` |
| `Render.Article` | src/prompts.py:145-155 | the document or the error, over paragraph records: rendering fails iff metadata is truthy without `link`, and then with KeyError("link") |
| `Render.BodyConcat` | src/prompts.py:148-149 | the body of a concatenated list is the concatenation of the bodies |
| `Render.BlockAt` | src/prompts.py:148-155 | the block "## {title}\n{full_text}\n" of the k-th paragraph sits at a computed offset of the document |
| `Render.BlocksInListOrder` | src/prompts.py:148-149 | blocks of earlier paragraphs come strictly before those of later ones |
| `Render.ArticleStartsWithHeader` | src/prompts.py:155 | the title, the preface blockquote and the highlights heading are always present, even when empty |
| `Render.LinkLineIffMetadata` | src/prompts.py:147-155 | the document ends with the link line when metadata is truthy, and with the bare separator for None or {} |
| `Render.TranscriptHeadingIffNonBlank` | src/prompts.py:150-151 | the transcript heading is present iff the stripped transcript is non-empty; the transcript follows unchanged |
| `Ordering.OrderMap` | src/nodes.py:166 | every id maps to a position of that id, and to its last occurrence |
| `Ordering.KeyOf` | src/nodes.py:171 | the sort key ranks every matched id below the unmatched rank |
| `Ordering.Rank` | src/nodes.py:171 | a paragraph's rank never exceeds the unmatched rank |
| `Ordering.SortParagraphs` | src/nodes.py:171 | the in-place sort leaves exactly the specification order |
| `Ordering.SinkLast` | src/nodes.py:171 | one insertion step: extends the sorted prefix by one, keeps each rank group's order, touches nothing beyond |
| `Ordering.SortIsPermutation` | src/nodes.py:164-171 | the sort only reorders: same multiset, same length |
| `Ordering.SortIsStable` | src/nodes.py:171 | the result is sorted by rank, and each rank group keeps its arrival order |
| `Ordering.StableSortIsUnique` | src/nodes.py:171 | any rank-sorted list with the same rank groups is the specification order |
| `Ordering.SortRestoresPositional` | src/nodes.py:171 | a permutation of a list whose i-th item has rank i sorts back to that list |
| `Ordering.UnmatchedLast` | src/nodes.py:171 | after an unmatched paragraph comes no matched one |
| `Ordering.RankIsLastPosition` | src/nodes.py:166 | a repeated outline id ranks at its last occurrence |
| `Ordering.DistinctRank` | src/nodes.py:166 | with distinct ids, rank k is held exactly by the k-th child's id |
| `Ordering.OutlineOrderRestored` | src/nodes.py:166-171 | when the paragraph ids are the outline's distinct ids in any order, the sorted ids equal the outline ids |
| `Assembler.TitleMap` | src/nodes.py:168 | every child's `node_id` is a key, and the last child's title wins for its id |
| `Assembler.TitleMapFollowsOrderMap` | src/nodes.py:166-168 | the title map has the order map's ids, and each title comes from the same (last) child that fixes the sort position |
| `Assembler.RetitleTakesCurrentTitle` | src/nodes.py:174-175 | a matched paragraph takes its child's current title, an unmatched one keeps its own, and `node_id` and `full_text` never change |
| `Assembler.RetitleIdempotent` | src/nodes.py:174-175 | retitling twice is retitling once |
| `Assembler.RetitleAll` | src/nodes.py:174-175 | the in-place loop retitles every paragraph |
| `Assembler.OutlineError` | src/nodes.py:159-168 | the outline raises no KeyError iff it has a title and every child has `node_id` and `title`; the title is checked first |
| `Assembler.FinalArticleMerge` | src/nodes.py:176-185 | merged, the node's update replaces `final_article` under src/state.py (no reducer) and appends to it under state.py's `operator.concat`, and leaves every other key as it was |
| `Assembler.AssembledFollowsOutline` | src/nodes.py:163-175 | with distinct outline ids matched one-for-one, the i-th paragraph has the i-th child's id and current title |
| `Assembler.FinalWriter` | src/nodes.py:157-185 | a malformed outline raises before the list is touched; otherwise the list is sorted then retitled in place, and the article is rendered from it |
| `Assembler.LegacyOutlineError` | nodes.py:66-73 | the older copy raises only on a missing title or child `node_id` |
| `Assembler.LegacyFinalWriter` | nodes.py:64-85 | the older copy sorts in place the same way, does not retitle, and writes only `final_article` |
| `Assembler.LegacyKeepsCapturedTitles` | nodes.py:70-85 | every paragraph after the older sort is one that arrived, with the title captured when it was written |
| `Nodes.ContinueToParagraphs` | src/nodes.py:153-155 | one `Send("paragraph_node", …)` per child, in child order, carrying the article and that child only |
| `Nodes.ParagraphWriter` | src/nodes.py:115-151 | succeeds iff the section has `node_id` and `title` (KeyError on `node_id` first); writes exactly one record copied from the section with the reply as `full_text`, and one AI message |
| `Nodes.FanOutWritesOneParagraphPerChild` | src/nodes.py:115-155 | task i succeeds iff child i has both keys, and then writes child i's paragraph |
| `Nodes.JoinCollectsArrivals` | src/state.py:15-16 | the join appends the branch paragraphs in arrival order and changes no key but `paragraphs` and `messages` |
| `Nodes.ArticleFollowsOutline` | src/nodes.py:153-185 | whatever order the branches finish in, the sorted and retitled list is one paragraph per child, in outline order, each with its child's title and its own reply |
| `Graph.GraphRun.constructor` | graph.py:231-240 | the initial state: the input article, index 0, empty lists and strings, an empty outline |
| `Graph.GraphRun.SelectNext` | graph.py:45-53 | at or past the child count: "final_review" with the state unchanged; otherwise the index advances by exactly one and "next_paragraph" is returned; the index bound is kept, and under it the final review is chosen exactly when the index equals the child count |
| `Graph.GraphRun.FirstCall` | graph.py:78-101 | the prompt is appended to the held messages in place even when parsing fails; an unparsable stripped reply raises; otherwise the state is echoed with the parsed outline and the reply as the one new message; the index bound is kept |
| `Graph.GraphRun.SecondCall` | graph.py:104-126 | IndexError past the children and KeyError on a child without `node_id`, with nothing changed; otherwise the reply is stored as that child's `full_text` in place and the update has the next index and the held responses plus one entry; the index bound is kept, the echoed next index does not pass the child count, and under the bound IndexError is raised exactly when the index equals the child count |
| `Graph.GraphRun.FinalReviewStep` | graph.py:128-148 | `content` is removed from the outline and every child, the child count and all other keys are unchanged, and the update carries the reply as the article; the index bound is kept |
| `Graph.MergeGraph` | graph.py:35-43 | merging an update that writes every key: `original_article`, `outline` and `current_index` take the written value; `final_response`, `messages`, `final_article`, `insights` and `transcript` keep the held value followed by the written one |
| `Graph.Entry` | graph.py:124 | the `final_response` entry is the node id, one space, then the reply |
| `Graph.WithoutContent` | graph.py:131-135 | the section loses its `content` key and keeps every other key and value |
| `Graph.SecondCallEchoDoubles` | graph.py:119-126 | merging the echoed update gives `old ++ old ++ [entry]`, and the three text fields double |
| `Graph.SecondCallDelta` | graph.py:121-126 | an update with only the changed keys, merged, appends exactly one entry and one message and keeps the texts |
| `Graph.FinalReviewEcho` | graph.py:144-148 | merging the review's echo appends the reply to the held article while insights, transcript and responses double |
| `Graph.FirstEntryFromEmpty` | graph.py:231-240 | from the initial empty lists and texts, the first paragraph's merge leaves exactly one entry |

## Findings

| source | as written | input that shows it | evidently intended | confidence | as-written member | corrected member |
|---|---|---|---|---|---|---|
| graph.py:121-126 | `second_call` returns `{**state, "final_response": state["final_response"] + [entry], ...}`. Under the `operator.add` reducer of `final_response` (graph.py:38) and the concat reducers (graph.py:39-41), the echoed values are appended to the held ones again | held `final_response == ["1 a"]`, new entry `"2 b"`: the merged list is `["1 a", "1 a", "2 b"]`, and non-empty `insights` doubles | one new entry per paragraph, with the texts left alone | not executed; depends on the workflow engine merging every returned key through its reducer | `Graph.SecondCallEchoDoubles` | `Graph.SecondCallDelta` |

`Graph.GraphRun.SecondCall` itself models the code as written. The corrected update is stated beside it rather than substituted, because nothing downstream in this model consumes the merged responses.

## Left out

- Model calls (`model.invoke`): every reply is a parameter.
- The other nodes of src/nodes.py and nodes.py are not part of this model: `preface_writer`, `improve_title_writer`, `summarize_writer`, `outline_writer`, `web_search_writer`, `insights_writer`, `transcript_writer`, `content_review_writer` and `fact_checker`. Each returns a partial update built from a model or web-search reply. How such an update merges is `Workflow.Apply`, and `outline_writer`'s reply clean-up is `Text.RemoveJsonMarkers`.
- graph.py's `start`, `top_insights`, `transcript` and `fact_checker` are not part of this model.
  - `start` and `top_insights` return `{**state, ...}`. Under graph.py's reducers their echo doubles the held lists and texts, just as `Graph.SecondCallEchoDoubles` shows for `second_call`.
  - `transcript` also appends a "## 详细对话" section to `state['final_article']` in place before returning the same kind of echo.
  - `fact_checker` returns one message only.
- JSON parsing: `json.loads` is the parameter `parse` of `Graph.GraphRun.FirstCall`. The JSON Schema constant only shapes the `Outline` datatype, because nothing enforces it.
- `Render.Article`: the rendered list holds `paragraph_writer`'s records, which always carry `node_id`, `title` and `full_text` (src/nodes.py:126-130), so the KeyError `generate_final_article` raises on a node without `title` or `full_text` (src/prompts.py:149) is not modelled.
- Prompt templates: prompt text is a parameter. Everything in prompts.py and src/prompts.py other than `generate_final_article` is left out.
- Graph engine:
  - langgraph's wiring, supersteps and concurrent-write errors are not modelled.
  - Updates merge one after another through the declared reducers, in the order the branches finish.
  - `Graph.GraphRun.SelectNext` updates the state it is given. Whether the engine keeps a routing function's write is engine behaviour and is not modelled.
- Outline shape:
  - An outline always has a `children` list, so the KeyError on a missing `children` key is not modelled.
  - `run_workflow`'s `{}` is the outline with no keys and no children.
  - Section values are strings. A non-string `title` or `node_id` (a JSON number, say) is not modelled.
- `Ordering.SortParagraphs`: Python's Timsort is modelled by a stable insertion sort. Any stable sort by the same key returns the same list (`Ordering.StableSortIsUnique`), so the result is exactly the same.
- Logging, `print` and the error-message text built in `except` blocks are left out. Only which exception escapes is modelled.
- nodes.py imports a `generate_final_article` that prompts.py does not define, and calls it with four arguments. `Assembler.LegacyFinalWriter` therefore takes its renderer as a parameter.
- HTTP handlers, file I/O and configuration (api.py, client set-up, environment loading) are not part of this model.
