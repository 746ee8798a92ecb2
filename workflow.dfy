/**
 * The shared state of the parallel workflow and how a node's partial update
 * is merged into it, field by field, through the reducer each declaration
 * attaches (src/state.py, and its older copy state.py).
 */
module Workflow {
  import opened Common
  import opened Reducers

  /**
   * Which declaration of `State` is in force: src/state.py (`Package`) or
   * the older state.py at the repository root (`Legacy`). They differ in
   * `final_article` (overwrite against concatenation) and in that the
   * legacy one has no `metadata` and no `preface`.
   */
  datatype Layout = Package | Legacy

  datatype State = State(
    original_article: string,
    outline: Outline,
    final_article: string,
    insights: string,
    transcript: string,
    messages: seq<Message>,
    paragraphs: seq<Paragraph>,
    metadata: Metadata,
    preface: string)

  /** The dict a node returns: a value for each key it writes, None for the others. */
  datatype Update = Update(
    original_article: Option<string>,
    outline: Option<Outline>,
    final_article: Option<string>,
    insights: Option<string>,
    transcript: Option<string>,
    messages: Option<seq<Message>>,
    paragraphs: Option<seq<Paragraph>>,
    metadata: Option<Metadata>,
    preface: Option<string>)

  const NoWrites := Update(None, None, None, None, None, None, None, None, None)

  /** The two updates never write the same key. */
  predicate Disjoint(u1: Update, u2: Update)
  {
    && !(u1.original_article.Some? && u2.original_article.Some?)
    && !(u1.outline.Some? && u2.outline.Some?)
    && !(u1.final_article.Some? && u2.final_article.Some?)
    && !(u1.insights.Some? && u2.insights.Some?)
    && !(u1.transcript.Some? && u2.transcript.Some?)
    && !(u1.messages.Some? && u2.messages.Some?)
    && !(u1.paragraphs.Some? && u2.paragraphs.Some?)
    && !(u1.metadata.Some? && u2.metadata.Some?)
    && !(u1.preface.Some? && u2.preface.Some?)
  }

  /** The update writes only `paragraphs` and `messages`, as a paragraph task does. */
  predicate OnlyParagraphsAndMessages(u: Update)
  {
    && u.original_article.None? && u.outline.None? && u.final_article.None? && u.insights.None?
    && u.transcript.None? && u.metadata.None? && u.preface.None?
  }

  /** The update only writes keys the declaration has. */
  predicate Declares(layout: Layout, u: Update)
  {
    layout == Legacy ==> u.metadata.None? && u.preface.None?
  }

  /**
   * A key declared with `take_latest`, or with no reducer at all: a write
   * replaces the held value. `take_latest` returns the written value, so the
   * two declarations merge alike.
   */
  function Replaced<T>(held: T, written: Option<T>): (r: T)
    ensures written.None? ==> r == held
    ensures written.Some? ==> r == written.value
  {
    if written.Some? then TakeLatest(held, written.value) else held
  }

  /** A key declared with `operator.concat`. */
  function Concatenated(held: string, written: Option<string>): (r: string)
    ensures written.None? ==> r == held
    ensures written.Some? ==> Accumulated(r, held, written.value)
  {
    if written.Some? then Concat(held, written.value) else held
  }

  /** A key declared with `operator.add`. */
  function Appended<T>(held: seq<T>, written: Option<seq<T>>): (r: seq<T>)
    ensures written.None? ==> r == held
    ensures written.Some? ==> Accumulated(r, held, written.value)
  {
    if written.Some? then Append(held, written.value) else held
  }

  /** Merge one node's update into the state, each field through its reducer. */
  function Apply(layout: Layout, s: State, u: Update): (r: State)
    requires Declares(layout, u)
    // a key the update does not write keeps its value
    ensures u.original_article.None? ==> r.original_article == s.original_article
    ensures u.outline.None? ==> r.outline == s.outline
    ensures u.final_article.None? ==> r.final_article == s.final_article
    ensures u.insights.None? ==> r.insights == s.insights
    ensures u.transcript.None? ==> r.transcript == s.transcript
    ensures u.messages.None? ==> r.messages == s.messages
    ensures u.paragraphs.None? ==> r.paragraphs == s.paragraphs
    ensures u.metadata.None? ==> r.metadata == s.metadata
    ensures u.preface.None? ==> r.preface == s.preface
    // a take-latest key, or one without a reducer, holds what was written
    ensures u.original_article.Some? ==> r.original_article == u.original_article.value
    ensures u.outline.Some? ==> r.outline == u.outline.value
    ensures u.metadata.Some? ==> r.metadata == u.metadata.value
    ensures u.final_article.Some? && layout == Package ==> r.final_article == u.final_article.value
    // an accumulating key keeps what it held, followed by what was written
    ensures u.final_article.Some? && layout == Legacy ==> Accumulated(r.final_article, s.final_article, u.final_article.value)
    ensures u.insights.Some? ==> Accumulated(r.insights, s.insights, u.insights.value)
    ensures u.transcript.Some? ==> Accumulated(r.transcript, s.transcript, u.transcript.value)
    ensures u.preface.Some? ==> Accumulated(r.preface, s.preface, u.preface.value)
    ensures u.messages.Some? ==> Accumulated(r.messages, s.messages, u.messages.value)
    ensures u.paragraphs.Some? ==> Accumulated(r.paragraphs, s.paragraphs, u.paragraphs.value)
  {
    State(
      original_article := Replaced(s.original_article, u.original_article),
      outline := Replaced(s.outline, u.outline),
      final_article :=
        if layout == Package then Replaced(s.final_article, u.final_article)   // no reducer
        else Concatenated(s.final_article, u.final_article),
      insights := Concatenated(s.insights, u.insights),
      transcript := Concatenated(s.transcript, u.transcript),
      messages := Appended(s.messages, u.messages),
      paragraphs := Appended(s.paragraphs, u.paragraphs),
      metadata := Replaced(s.metadata, u.metadata),                          // no reducer
      preface := Concatenated(s.preface, u.preface))
  }

  /** Merge the updates of several nodes, in the order given. */
  function ApplyAll(layout: Layout, s: State, us: seq<Update>): State
    requires forall i :: 0 <= i < |us| ==> Declares(layout, us[i])
    decreases |us|
  {
    if us == [] then s else ApplyAll(layout, Apply(layout, s, us[0]), us[1..])
  }

  /** An empty update changes nothing. */
  lemma NoWritesIsIdentity(layout: Layout, s: State)
    ensures Apply(layout, s, NoWrites) == s
  {
  }

  /** The update writes only fields whose reducer is take-latest or plain overwrite. */
  predicate OnlyOverwrites(layout: Layout, u: Update)
  {
    && u.insights.None? && u.transcript.None? && u.preface.None? && u.messages.None? && u.paragraphs.None?
    && (layout == Legacy ==> u.final_article.None?)
  }

  /**
   * Applying the same take-latest update twice equals applying it once: a
   * re-sent outline or article does not change the state again.
   */
  lemma OverwriteIdempotent(layout: Layout, s: State, u: Update)
    requires Declares(layout, u) && OnlyOverwrites(layout, u)
    ensures Apply(layout, Apply(layout, s, u), u) == Apply(layout, s, u)
  {
  }

  /**
   * Two writes to `insights` or `transcript` accumulate under either
   * declaration: the field ends up holding the old text followed by both
   * writes.
   */
  lemma TextWritesAccumulate(layout: Layout, s: State, first: string, second: string)
    ensures var u1 := NoWrites.(insights := Some(first), transcript := Some(first));
            var u2 := NoWrites.(insights := Some(second), transcript := Some(second));
            var r := Apply(layout, Apply(layout, s, u1), u2);
            && r.insights == s.insights + first + second
            && r.transcript == s.transcript + first + second
  {
  }

  /** `preface` (src/state.py only) accumulates the same way. */
  lemma PrefaceWritesAccumulate(s: State, first: string, second: string)
    ensures var u1 := NoWrites.(preface := Some(first));
            var u2 := NoWrites.(preface := Some(second));
            Apply(Package, Apply(Package, s, u1), u2).preface == s.preface + first + second
  {
  }

  /**
   * `final_article` has no reducer in src/state.py, so the second write
   * wins; state.py declares it with `operator.concat`, so there the writes
   * accumulate.
   */
  lemma FinalArticleByLayout(s: State, first: string, second: string)
    ensures var u1 := NoWrites.(final_article := Some(first));
            var u2 := NoWrites.(final_article := Some(second));
            && Apply(Package, Apply(Package, s, u1), u2).final_article == second
            && Apply(Legacy, Apply(Legacy, s, u1), u2).final_article == s.final_article + first + second
  {
  }

  /** `metadata` has no reducer: a write simply replaces it. */
  lemma MetadataOverwritten(s: State, m: Metadata)
    ensures Apply(Package, s, NoWrites.(metadata := Some(m))).metadata == m
  {
  }

  /**
   * Updates of parallel branches that write different keys can be merged in
   * either order: the join result does not depend on who finished first.
   */
  lemma DisjointUpdatesCommute(layout: Layout, s: State, u1: Update, u2: Update)
    requires Declares(layout, u1) && Declares(layout, u2)
    requires Disjoint(u1, u2)
    ensures Apply(layout, Apply(layout, s, u1), u2) == Apply(layout, Apply(layout, s, u2), u1)
  {
  }

  /** The paragraphs one update writes. */
  function WrittenBy(u: Update): seq<Paragraph>
  {
    if u.paragraphs.Some? then u.paragraphs.value else []
  }

  /** The paragraphs a list of updates writes, in update order. */
  function WrittenParagraphs(us: seq<Update>): seq<Paragraph>
    decreases |us|
  {
    if us == [] then [] else WrittenBy(us[0]) + WrittenParagraphs(us[1..])
  }

  /** One paragraph-and-message update appends its paragraphs and touches no other key but `messages`. */
  lemma ApplyParagraphUpdate(layout: Layout, s: State, u: Update)
    requires Declares(layout, u) && OnlyParagraphsAndMessages(u)
    ensures Apply(layout, s, u).paragraphs == s.paragraphs + WrittenBy(u)
    ensures Apply(layout, s, u).(paragraphs := s.paragraphs, messages := s.messages) == s
  {
  }

  /** Merging a non-empty list of updates: the first one, then the rest. */
  lemma ApplyAllStep(layout: Layout, s: State, us: seq<Update>)
    requires us != []
    requires forall i :: 0 <= i < |us| ==> Declares(layout, us[i])
    ensures forall i :: 0 <= i < |us[1..]| ==> Declares(layout, us[1..][i])
    ensures ApplyAll(layout, s, us) == ApplyAll(layout, Apply(layout, s, us[0]), us[1..])
  {
  }

  /** Resetting two keys to their values in `mid`, then to those in `s`, when `mid` resets to `s`. */
  lemma ResetThrough(r: State, mid: State, s: State)
    requires r.(paragraphs := mid.paragraphs, messages := mid.messages) == mid
    requires mid.(paragraphs := s.paragraphs, messages := s.messages) == s
    ensures r.(paragraphs := s.paragraphs, messages := s.messages) == s
  {
  }

  /**
   * Joining branch updates through the append reducer keeps the paragraphs
   * already held first and adds every branch's paragraphs after them, in the
   * order the updates are merged; the keys no update writes keep their values.
   */
  lemma {:induction false} JoinAppendsParagraphs(layout: Layout, s: State, us: seq<Update>)
    requires forall i :: 0 <= i < |us| ==> Declares(layout, us[i])
    requires forall i :: 0 <= i < |us| ==> OnlyParagraphsAndMessages(us[i])
    ensures ApplyAll(layout, s, us).paragraphs == s.paragraphs + WrittenParagraphs(us)
    ensures ApplyAll(layout, s, us).(paragraphs := s.paragraphs, messages := s.messages) == s
    decreases |us|
  {
    if us != [] {
      var mid := Apply(layout, s, us[0]);
      ApplyParagraphUpdate(layout, s, us[0]);
      ApplyAllStep(layout, s, us);
      assert forall i :: 0 <= i < |us[1..]| ==> OnlyParagraphsAndMessages(us[1..][i]) by {
        forall i | 0 <= i < |us[1..]| ensures OnlyParagraphsAndMessages(us[1..][i]) {
          assert us[1..][i] == us[i + 1];
        }
      }
      JoinAppendsParagraphs(layout, mid, us[1..]);
      ResetThrough(ApplyAll(layout, mid, us[1..]), mid, s);
      ConcatAssoc(s.paragraphs, WrittenBy(us[0]), WrittenParagraphs(us[1..]));
    } else {
      assert WrittenParagraphs(us) == [];
    }
  }
}
