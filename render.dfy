/**
 * `generate_final_article` (src/prompts.py): the Markdown document the
 * assembler returns, built from the outline title, the preface, the
 * highlights, one block per paragraph, the optional transcript section and
 * the optional source-link line.
 */
module Render {
  import opened Common
  import opened Text

  const HighlightsHeading := "## 亮点\n"
  const TranscriptHeading := "## 详细对话\n"
  const LinkOpen := "_原链接："
  const LinkClose := "_"
  const LinkKey := "link"

  /** One body block, `## {title}\n{full_text}\n`. */
  function Block(p: Paragraph): string
  {
    "## " + p.title + "\n" + p.full_text + "\n"
  }

  /** The body: the blocks of the paragraphs, in list order. */
  function Body(nodes: seq<Paragraph>): string
    decreases |nodes|
  {
    if nodes == [] then "" else Body(nodes[..|nodes| - 1]) + Block(nodes[|nodes| - 1])
  }

  /** Title line, preface blockquote and highlights section: always present. */
  function Header(title: string, preface: string, insights: string): string
  {
    "# " + title + "\n\n>" + preface + "\n\n" + HighlightsHeading + insights + "\n\n"
  }

  /** The transcript, headed only when it is not blank. */
  function TranscriptPart(transcript: string): string
  {
    if Strip(transcript) != "" then TranscriptHeading + transcript else transcript
  }

  /** The link line: empty without metadata, a KeyError when metadata lacks `link`. */
  function LinkPart(metadata: Metadata): Result<string>
  {
    if !Truthy(metadata) then Ok("")
    else if LinkKey in metadata.value then Ok(LinkOpen + metadata.value[LinkKey] + LinkClose)
    else Err(KeyError(LinkKey))
  }

  /** What follows the body: the separator, the transcript part, the separator, the link line. */
  function Trailer(transcript: string, link: string): string
  {
    "\n\n" + (TranscriptPart(transcript) + ("\n\n" + link))
  }

  /** The document `generate_final_article` returns, or the error it raises. */
  function Article(title: string, insights: string, nodes: seq<Paragraph>, transcript: string,
                   metadata: Metadata, preface: string): (r: Result<string>)
    ensures r.Err? <==> Truthy(metadata) && LinkKey !in metadata.value
    ensures r.Err? ==> r.error == KeyError(LinkKey)
  {
    match LinkPart(metadata)
    case Err(e) => Err(e)
    case Ok(link) => Ok(Header(title, preface, insights) + (Body(nodes) + Trailer(transcript, link)))
  }

  /** `generate_final_article(title, insights, outline, transcript, metadata, preface)`. */
  method GenerateFinalArticle(title: string, insights: string, nodes: seq<Paragraph>, transcript: string,
                              metadata: Metadata, preface: string) returns (r: Result<string>)
    ensures r == Article(title, insights, nodes, transcript, metadata, preface)
  {
    var body := "";
    var link := "";
    for i := 0 to |nodes|
      invariant body == Body(nodes[..i])
    {
      body := body + ("## " + nodes[i].title + "\n" + nodes[i].full_text + "\n");
      assert nodes[..i + 1][..i] == nodes[..i];
    }
    assert nodes[..|nodes|] == nodes;
    var shownTranscript := transcript;
    if Strip(transcript) != "" {
      shownTranscript := TranscriptHeading + transcript;
    }
    if Truthy(metadata) {
      if LinkKey !in metadata.value {
        return Err(KeyError(LinkKey));
      }
      link := metadata.value[LinkKey];
      link := LinkOpen + link + LinkClose;
    }
    r := Ok(("# " + title + "\n\n>" + preface + "\n\n" + HighlightsHeading + insights + "\n\n")
            + (body + ("\n\n" + (shownTranscript + ("\n\n" + link)))));
  }

  /** The body of a concatenation is the concatenation of the bodies. */
  lemma {:induction false} BodyConcat(a: seq<Paragraph>, b: seq<Paragraph>)
    ensures Body(a + b) == Body(a) + Body(b)
    decreases |b|
  {
    if b == [] {
      assert a + b == a;
    } else {
      var b' := b[..|b| - 1];
      var last := b[|b| - 1];
      assert a + b == (a + b') + [last];
      assert (a + b)[..|a + b| - 1] == a + b';
      assert Body(a + b) == Body(a + b') + Block(last);
      BodyConcat(a, b');
      assert Body(b) == Body(b') + Block(last);
    }
  }

  lemma PrefixOfConcat(a: string, b: string)
    ensures StartsWith(a + b, a) && (a + b)[|a|..] == b
  {
    assert (a + b)[..|a|] == a;
  }

  lemma SuffixOfConcat(a: string, b: string, suffix: string)
    requires EndsWith(b, suffix)
    ensures EndsWith(a + b, suffix)
  {
    assert (a + b)[|a + b| - |suffix|..] == b[|b| - |suffix|..];
  }

  lemma Regroup(a: string, b: string, c: string, d: string, e: string)
    ensures a + ((b + (c + d)) + e) == (a + b) + (c + (d + e))
  {
  }

  lemma RegroupFront(a: string, b: string, c: string, d: string)
    ensures a + (b + (c + d)) == (a + b + c) + d
  {
  }

  /** The rendered document, spelled out for a known link line. */
  lemma ArticleIs(title: string, insights: string, nodes: seq<Paragraph>, transcript: string,
                  metadata: Metadata, preface: string)
    requires Article(title, insights, nodes, transcript, metadata, preface).Ok?
    ensures LinkPart(metadata).Ok?
    ensures Article(title, insights, nodes, transcript, metadata, preface).value
            == Header(title, preface, insights) + (Body(nodes) + Trailer(transcript, LinkPart(metadata).value))
  {
  }

  /** Where the block of `nodes[k]` starts in the document. */
  function Offset(title: string, preface: string, insights: string, nodes: seq<Paragraph>, k: nat): nat
    requires k <= |nodes|
  {
    |Header(title, preface, insights)| + |Body(nodes[..k])|
  }

  lemma InfixOfConcat(a: string, b: string, c: string)
    ensures (a + (b + c))[|a|..|a| + |b|] == b
  {
  }

  lemma SplitSeq<T>(s: seq<T>, k: nat)
    requires k < |s|
    ensures s == s[..k] + s[k..] && s[k..][0] == s[k] && s[k..][1..] == s[k + 1..]
  {
  }

  /** The body of a non-empty list starts with the block of its first paragraph. */
  lemma BodyFront(nodes: seq<Paragraph>)
    requires nodes != []
    ensures Body(nodes) == Block(nodes[0]) + Body(nodes[1..])
  {
    assert [nodes[0]] + nodes[1..] == nodes;
    BodyConcat([nodes[0]], nodes[1..]);
    assert [nodes[0]][..0] == [];
  }

  /** The body around the block of `nodes[k]`. */
  lemma BodySplitAt(nodes: seq<Paragraph>, k: nat)
    requires k < |nodes|
    ensures Body(nodes) == Body(nodes[..k]) + (Block(nodes[k]) + Body(nodes[k + 1..]))
  {
    SplitSeq(nodes, k);
    BodyConcat(nodes[..k], nodes[k..]);
    BodyFront(nodes[k..]);
  }

  /** `block` stands in `doc` starting at position `at`. */
  predicate StandsAt(doc: string, at: nat, block: string)
  {
    at + |block| <= |doc| && doc[at..at + |block|] == block
  }

  /** The block of `nodes[k]` stands in the document at its offset. */
  lemma BlockAt(title: string, insights: string, nodes: seq<Paragraph>, transcript: string,
                metadata: Metadata, preface: string, k: nat)
    requires k < |nodes|
    requires Article(title, insights, nodes, transcript, metadata, preface).Ok?
    ensures StandsAt(Article(title, insights, nodes, transcript, metadata, preface).value,
                     Offset(title, preface, insights, nodes, k), Block(nodes[k]))
  {
    var doc := Article(title, insights, nodes, transcript, metadata, preface).value;
    var h := Header(title, preface, insights);
    var t := Trailer(transcript, LinkPart(metadata).value);
    assert doc == h + (Body(nodes) + t) by {
      ArticleIs(title, insights, nodes, transcript, metadata, preface);
    }
    BlockWithin(doc, h, t, nodes, k);
    assert Offset(title, preface, insights, nodes, k) == |h| + |Body(nodes[..k])|;
  }

  /** In any text made of a head, the body and a tail, the block of `nodes[k]` follows the head and the earlier blocks. */
  lemma BlockWithin(doc: string, h: string, t: string, nodes: seq<Paragraph>, k: nat)
    requires k < |nodes|
    requires doc == h + (Body(nodes) + t)
    ensures StandsAt(doc, |h| + |Body(nodes[..k])|, Block(nodes[k]))
  {
    var b1, x, b2 := Body(nodes[..k]), Block(nodes[k]), Body(nodes[k + 1..]);
    BodySplitAt(nodes, k);
    assert doc == h + ((b1 + (x + b2)) + t);
    InfixAt(h, b1, x, b2, t);
  }

  /** The middle piece of a five-part concatenation, found at the length of the first two. */
  lemma InfixAt(h: string, b1: string, x: string, b2: string, t: string)
    ensures |h + b1| + |x| <= |h + ((b1 + (x + b2)) + t)|
    ensures (h + ((b1 + (x + b2)) + t))[|h + b1|..|h + b1| + |x|] == x
  {
    Regroup(h, b1, x, b2, t);
    InfixOfConcat(h + b1, x, b2 + t);
  }

  /** The body of a longer prefix reaches past the block of every earlier paragraph. */
  lemma BodyPrefixGrows(nodes: seq<Paragraph>, i: nat, j: nat)
    requires i < j <= |nodes|
    ensures |Body(nodes[..i])| + |Block(nodes[i])| <= |Body(nodes[..j])|
  {
    assert nodes[..j] == nodes[..i] + [nodes[i]] + nodes[i + 1..j];
    BodyConcat(nodes[..i], [nodes[i]]);
    BodyConcat(nodes[..i] + [nodes[i]], nodes[i + 1..j]);
    assert Body([nodes[i]]) == Block(nodes[i]);
  }

  /**
   * Every paragraph's block stands in the document at its offset, and the
   * offsets follow the list order: sections appear in the order given.
   */
  lemma BlocksInListOrder(title: string, insights: string, nodes: seq<Paragraph>, transcript: string,
                          metadata: Metadata, preface: string, i: nat, j: nat)
    requires i < j < |nodes|
    requires Article(title, insights, nodes, transcript, metadata, preface).Ok?
    ensures var doc := Article(title, insights, nodes, transcript, metadata, preface).value;
            var at := Offset(title, preface, insights, nodes, i);
            var at' := Offset(title, preface, insights, nodes, j);
            && at + |Block(nodes[i])| <= at'
            && StandsAt(doc, at, Block(nodes[i]))
            && StandsAt(doc, at', Block(nodes[j]))
  {
    BlockAt(title, insights, nodes, transcript, metadata, preface, i);
    BlockAt(title, insights, nodes, transcript, metadata, preface, j);
    BodyPrefixGrows(nodes, i, j);
  }

  /** The title line, the `>` preface marker and the highlights heading are always there, even when empty. */
  lemma ArticleStartsWithHeader(title: string, insights: string, nodes: seq<Paragraph>, transcript: string,
                                metadata: Metadata, preface: string)
    requires Article(title, insights, nodes, transcript, metadata, preface).Ok?
    ensures StartsWith(Article(title, insights, nodes, transcript, metadata, preface).value, Header(title, preface, insights))
  {
    ArticleIs(title, insights, nodes, transcript, metadata, preface);
    PrefixOfConcat(Header(title, preface, insights), Body(nodes) + Trailer(transcript, LinkPart(metadata).value));
  }

  /**
   * The document ends with the link line `_原链接：{link}_` when the metadata
   * is non-empty, and with the blank separator otherwise; in particular its
   * last character is `_` exactly when metadata was given.
   */
  lemma LinkLineIffMetadata(title: string, insights: string, nodes: seq<Paragraph>, transcript: string,
                            metadata: Metadata, preface: string)
    requires Article(title, insights, nodes, transcript, metadata, preface).Ok?
    ensures var doc := Article(title, insights, nodes, transcript, metadata, preface).value;
            && (Truthy(metadata) ==> EndsWith(doc, LinkOpen + metadata.value[LinkKey] + LinkClose))
            && (!Truthy(metadata) ==> EndsWith(doc, "\n\n"))
            && |doc| > 0 && (doc[|doc| - 1] == '_' <==> Truthy(metadata))
  {
    ArticleIs(title, insights, nodes, transcript, metadata, preface);
    var doc := Article(title, insights, nodes, transcript, metadata, preface).value;
    var link := LinkPart(metadata).value;
    var ending := if Truthy(metadata) then link else "\n\n";
    assert EndsWith("\n\n" + link, ending) by {
      if Truthy(metadata) {
        SuffixOfConcat("\n\n", link, link);
      } else {
        assert "\n\n" + link == "\n\n";
      }
    }
    SuffixOfConcat(TranscriptPart(transcript), "\n\n" + link, ending);
    SuffixOfConcat("\n\n", TranscriptPart(transcript) + ("\n\n" + link), ending);
    SuffixOfConcat(Body(nodes), Trailer(transcript, link), ending);
    SuffixOfConcat(Header(title, preface, insights), Body(nodes) + Trailer(transcript, link), ending);
    assert doc[|doc| - 1] == ending[|ending| - 1];
  }

  /** A blank transcript is whitespace from end to end. */
  lemma BlankIsAllSpace(s: string)
    requires Strip(s) == ""
    ensures AllSpace(s)
  {
    var t := TrimStart(s);
    assert t[|TrimEnd(t)|..] == t;
    assert s[..|s| - |t|] == s;
  }

  /**
   * The transcript heading `## 详细对话` follows the body exactly when the
   * transcript is not blank; a blank transcript is inserted as it is, with
   * no heading.
   */
  lemma TranscriptHeadingIffNonBlank(title: string, insights: string, nodes: seq<Paragraph>, transcript: string,
                                     metadata: Metadata, preface: string)
    requires Article(title, insights, nodes, transcript, metadata, preface).Ok?
    ensures var doc := Article(title, insights, nodes, transcript, metadata, preface).value;
            var start := |Header(title, preface, insights)| + |Body(nodes)| + 2;
            && start <= |doc|
            && (StartsWith(doc[start..], TranscriptHeading) <==> Strip(transcript) != "")
            && StartsWith(doc[start..], TranscriptPart(transcript))
  {
    ArticleIs(title, insights, nodes, transcript, metadata, preface);
    var doc := Article(title, insights, nodes, transcript, metadata, preface).value;
    var h := Header(title, preface, insights);
    var link := LinkPart(metadata).value;
    var tail := TranscriptPart(transcript) + ("\n\n" + link);
    RegroupFront(h, Body(nodes), "\n\n", tail);
    PrefixOfConcat(h + Body(nodes) + "\n\n", tail);
    PrefixOfConcat(TranscriptPart(transcript), "\n\n" + link);
    if Strip(transcript) != "" {
      PrefixOfConcat(TranscriptHeading, transcript + ("\n\n" + link));
    } else {
      BlankTailIsNotHeading(transcript, link);
    }
  }

  /** After a blank transcript comes whitespace, never the `#` of a heading. */
  lemma BlankTailIsNotHeading(transcript: string, link: string)
    requires Strip(transcript) == ""
    ensures !StartsWith(TranscriptPart(transcript) + ("\n\n" + link), TranscriptHeading)
  {
    BlankIsAllSpace(transcript);
    SpaceLedIsNotHeading(transcript, "\n\n" + link);
  }

  /** A text that opens with whitespace does not open with the `#` of the transcript heading. */
  lemma SpaceLedIsNotHeading(lead: string, rest: string)
    requires AllSpace(lead) && rest != [] && IsSpace(rest[0])
    ensures !StartsWith(lead + rest, TranscriptHeading)
  {
    var text := lead + rest;
    assert IsSpace(text[0]) by {
      if lead == [] {
        assert text == rest;
      } else {
        assert text[0] == lead[0];
      }
    }
    assert TranscriptHeading[0] == '#' && !IsSpace('#');
    if |TranscriptHeading| <= |text| {
      assert text[..|TranscriptHeading|][0] == text[0];
    }
  }
}
