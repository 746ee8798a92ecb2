/**
 * `remove_json_markers` (utils.py, repeated verbatim in graph.py): drop a
 * leading "```json" and a trailing "```" from a model reply, each at most
 * once, then strip surrounding whitespace as Python's `str.strip()` does.
 */
module Text {

  const StartMarker := "```json"
  const EndMarker := "```"

  /** The characters Python's `str.isspace()` accepts, which `strip()` removes. */
  predicate IsSpace(c: char)
  {
    || ('\t' <= c <= '\r')                      // \t \n \v \f \r
    || ('\U{1C}' <= c <= '\U{1F}')               // file, group, record and unit separators
    || c == ' ' || c == '\U{85}' || c == '\U{A0}' || c == '\U{1680}'
    || ('\U{2000}' <= c <= '\U{200A}')           // the typographic spaces
    || c == '\U{2028}' || c == '\U{2029}' || c == '\U{202F}' || c == '\U{205F}' || c == '\U{3000}'
  }

  predicate AllSpace(s: string)
  {
    forall i :: 0 <= i < |s| ==> IsSpace(s[i])
  }

  /** Neither the first nor the last character is whitespace. */
  predicate NoOuterSpace(s: string)
  {
    s == [] || (!IsSpace(s[0]) && !IsSpace(s[|s| - 1]))
  }

  predicate StartsWith(s: string, prefix: string)
  {
    |prefix| <= |s| && s[..|prefix|] == prefix
  }

  predicate EndsWith(s: string, suffix: string)
  {
    |suffix| <= |s| && s[|s| - |suffix|..] == suffix
  }

  /** `s.lstrip()`: the longest suffix of `s` that does not start with whitespace. */
  function TrimStart(s: string): (r: string)
    ensures |r| <= |s| && r == s[|s| - |r|..]
    ensures r == [] || !IsSpace(r[0])
    ensures AllSpace(s[..|s| - |r|])
  {
    if s != [] && IsSpace(s[0]) then
      var back := s[1..];
      var r := TrimStart(back);
      assert back[|back| - |r|..] == s[|s| - |r|..];
      assert s[..|s| - |r|] == [s[0]] + back[..|back| - |r|];
      r
    else s
  }

  /** `s.rstrip()`: the longest prefix of `s` that does not end with whitespace. */
  function TrimEnd(s: string): (r: string)
    ensures |r| <= |s| && r == s[..|r|]
    ensures r == [] || !IsSpace(r[|r| - 1])
    ensures AllSpace(s[|r|..])
  {
    if s != [] && IsSpace(s[|s| - 1]) then
      var front := s[..|s| - 1];
      var r := TrimEnd(front);
      assert front[..|r|] == s[..|r|];
      assert s[|r|..] == front[|r|..] + [s[|s| - 1]];
      r
    else s
  }

  /** `s.strip()`: the middle of `s` once both whitespace runs are gone. */
  function Strip(s: string): (r: string)
    ensures |r| <= |s|
    ensures NoOuterSpace(r)
  {
    TrimEnd(TrimStart(s))
  }

  /** The prefix step: exactly "```json" is removed, once, and only at position 0. */
  function DropStartMarker(text: string): (r: string)
    ensures StartsWith(text, StartMarker) ==> text == StartMarker + r
    ensures !StartsWith(text, StartMarker) ==> r == text
  {
    if StartsWith(text, StartMarker) then text[|StartMarker|..] else text
  }

  /** The suffix step: exactly "```" is removed, once, from the end. */
  function DropEndMarker(text: string): (r: string)
    ensures EndsWith(text, EndMarker) ==> text == r + EndMarker
    ensures !EndsWith(text, EndMarker) ==> r == text
  {
    if EndsWith(text, EndMarker) then text[..|text| - |EndMarker|] else text
  }

  /** `remove_json_markers(text)`. */
  function RemoveJsonMarkers(text: string): (r: string)
    ensures NoOuterSpace(r)
    ensures |r| <= |text|
  {
    Strip(DropEndMarker(DropStartMarker(text)))
  }

  /** Whitespace before a word that does not start with whitespace is all `lstrip` removes. */
  lemma {:induction false} TrimStartPadded(pad: string, s: string)
    requires AllSpace(pad)
    requires s == [] || !IsSpace(s[0])
    ensures TrimStart(pad + s) == s
  {
    if pad != [] {
      assert (pad + s)[1..] == pad[1..] + s;
      TrimStartPadded(pad[1..], s);
    }
  }

  /** Whitespace after a word that does not end with whitespace is all `rstrip` removes. */
  lemma {:induction false} TrimEndPadded(s: string, pad: string)
    requires AllSpace(pad)
    requires s == [] || !IsSpace(s[|s| - 1])
    ensures TrimEnd(s + pad) == s
  {
    if pad != [] {
      assert (s + pad)[..|s + pad| - 1] == s + pad[..|pad| - 1];
      TrimEndPadded(s, pad[..|pad| - 1]);
    }
  }

  /** `strip()` returns exactly the word that whitespace surrounds. */
  lemma StripPadded(before: string, s: string, after: string)
    requires AllSpace(before) && AllSpace(after)
    requires NoOuterSpace(s)
    ensures Strip(before + s + after) == s
  {
    if s == [] {
      assert before + s + after == before + after;
      assert AllSpace(before + after);
      TrimStartPadded(before + after, []);
      assert before + after + [] == before + after;
    } else {
      assert before + s + after == before + (s + after);
      TrimStartPadded(before, s + after);
      TrimEndPadded(s, after);
    }
  }

  /** A string without surrounding whitespace is left as it is by `strip()`. */
  lemma StripKeepsTrimmed(s: string)
    requires NoOuterSpace(s)
    ensures Strip(s) == s
  {
    StripPadded([], s, []);
    assert [] + s + [] == s;
  }

  /**
   * Round trip: wrapping a JSON text without surrounding whitespace in a
   * "```json" fence and unwrapping it gives the text back.
   */
  lemma RoundTrip(s: string)
    requires NoOuterSpace(s)
    ensures RemoveJsonMarkers(StartMarker + "\n" + s + "\n" + EndMarker) == s
  {
    var fenced := StartMarker + "\n" + s + "\n" + EndMarker;
    assert fenced[..|StartMarker|] == StartMarker;
    var afterStart := "\n" + s + "\n" + EndMarker;
    assert fenced == StartMarker + afterStart;
    assert DropStartMarker(fenced) == afterStart;
    assert afterStart[|afterStart| - |EndMarker|..] == EndMarker;
    assert DropEndMarker(afterStart) == "\n" + s + "\n";
    StripPadded("\n", s, "\n");
  }

  /** A reply with neither marker is only stripped of whitespace. */
  lemma NoMarkersOnlyStrips(text: string)
    requires !StartsWith(text, StartMarker) && !EndsWith(text, EndMarker)
    ensures RemoveJsonMarkers(text) == Strip(text)
  {
  }

  /**
   * The prefix is only recognised at position 0: a reply that starts with
   * whitespace, or with a bare "```" fence, keeps its opening.
   */
  lemma OpeningNotAMarker(text: string)
    requires (text != [] && IsSpace(text[0])) || (StartsWith(text, EndMarker) && !StartsWith(text, StartMarker))
    ensures DropStartMarker(text) == text
  {
  }

  /**
   * A bare "```" opening survives: a reply that opens with a fence other
   * than "```json" still opens with "```" once the markers are removed,
   * whether or not it ends with a closing fence (as long as the closing
   * fence is not the opening one itself).
   */
  lemma BareFenceKept(text: string)
    requires StartsWith(text, EndMarker) && !StartsWith(text, StartMarker)
    requires !EndsWith(text, EndMarker) || |text| >= 2 * |EndMarker|
    ensures StartsWith(RemoveJsonMarkers(text), EndMarker)
  {
    var kept := DropEndMarker(text);
    assert DropStartMarker(text) == text;
    assert StartsWith(kept, EndMarker) by {
      if EndsWith(text, EndMarker) {
        assert kept[..|EndMarker|] == text[..|EndMarker|];
      }
    }
    FenceSurvivesStrip(kept);
  }

  /** `strip()` keeps a leading "```": none of its characters is whitespace. */
  lemma FenceSurvivesStrip(s: string)
    requires StartsWith(s, EndMarker)
    ensures StartsWith(Strip(s), EndMarker)
  {
    assert !IsSpace(s[0]) && !IsSpace(s[1]) && !IsSpace(s[2]) by {
      assert s[..|EndMarker|] == EndMarker;
    }
    assert TrimStart(s) == s;
    var r := TrimEnd(s);
    assert r[..|EndMarker|] == s[..|EndMarker|];
  }

}
