/**
 * The Item 1.01 ("Entry into a Material Definitive Agreement") section of a
 * Form 8-K, cut out of the filing's full text by `get_8k_content`: normalise
 * the whitespace, find the first "Item 1.01" (or else "ITEM 1.01"), and end
 * the section at the earliest "Item 2" ... "ITEM 9" marker found from eight
 * characters after its start.
 */
module Item101 {
  import opened Wrappers
  import opened PyStr
  import opened Whitespace

  /** The markers that end the section, in the order they are searched. */
  const NextItems: seq<string> := [
    "Item 2", "Item 3", "Item 4", "Item 5", "Item 6", "Item 7", "Item 8", "Item 9",
    "ITEM 2", "ITEM 3", "ITEM 4", "ITEM 5", "ITEM 6", "ITEM 7", "ITEM 8", "ITEM 9"]

  /** Some next-item marker starts at position `j` of `s`. */
  predicate MarkerAt(s: string, j: int) {
    exists k :: 0 <= k < |NextItems| && At(s, NextItems[k], j)
  }

  /** The first position at or after `j` where a next-item marker starts,
      or `|s|` when there is none: the reference definition of where the
      section ends, scanning positions rather than markers. */
  function NextItemStart(s: string, j: nat): (r: nat)
    decreases |s| - j
    ensures r <= |s|
    ensures j <= |s| ==> j <= r
    ensures forall k :: j <= k < r ==> !MarkerAt(s, k)
    ensures r < |s| ==> MarkerAt(s, r)
  {
    if j >= |s| then |s|
    else if MarkerAt(s, j) then j
    else NextItemStart(s, j + 1)
  }

  /** Where the section starts: the first "Item 1.01", or failing that the
      first "ITEM 1.01", or -1. */
  function SectionStart(content: string): int {
    var i := Find(content, "Item 1.01", 0);
    if i == -1 then Find(content, "ITEM 1.01", 0) else i
  }

  /** The value `get_8k_content` returns for a downloaded filing text. */
  function Item101Section(text: string): Option<string> {
    var content := Normalize(text);
    var start := SectionStart(content);
    if start == -1 then None
    else
      var extracted := Strip(Slice(content, start, NextItemStart(content, start + 8)));
      Some(Normalize(ReplaceChar(ReplaceChar(extracted, '\n', ' '), '\r', ' ')))
  }

  /** The `for item in next_items` loop: the least position, at or after
      `start + 8`, where one of the sixteen markers is found, else `|content|`. */
  method SectionEnd(content: string, start: nat) returns (end: nat)
    ensures end == NextItemStart(content, start + 8)
  {
    end := |content|;
    for n := 0 to |NextItems|
      invariant end <= |content|
      invariant end == |content| || (start + 8 <= end && MarkerAt(content, end))
      invariant forall k, j :: 0 <= k < n && start + 8 <= j < end ==> !At(content, NextItems[k], j)
    {
      var idx := Find(content, NextItems[n], start + 8);
      if idx != -1 {
        end := if idx < end then idx else end;
      }
    }
    NextItemStartUnique(content, start + 8, end);
  }

  /** `get_8k_content` once the filing's text has been downloaded; `None`
      stands for a missing `.txt` link or a failed request. */
  method Get8kContent(fetched: Option<string>) returns (item: Option<string>)
    ensures item == if fetched.None? then None else Item101Section(fetched.value)
  {
    if fetched.None? {
      return None;
    }
    var content := Normalize(fetched.value);
    var start := Find(content, "Item 1.01", 0);
    if start == -1 {
      start := Find(content, "ITEM 1.01", 0);
    }
    if start == -1 {
      return None;
    }
    var end := SectionEnd(content, start);
    var extracted := Strip(Slice(content, start, end));
    extracted := ReplaceChar(extracted, '\n', ' ');
    extracted := ReplaceChar(extracted, '\r', ' ');
    extracted := Normalize(extracted);
    return Some(extracted);
  }

  /** The end position is determined by its three defining properties. */
  lemma NextItemStartUnique(s: string, from: nat, r: nat)
    requires r <= |s|
    requires r == |s| || (from <= r && MarkerAt(s, r))
    requires forall k, j :: 0 <= k < |NextItems| && from <= j < r ==> !At(s, NextItems[k], j)
    ensures r == NextItemStart(s, from)
  {
    var e := NextItemStart(s, from);
    if r < e {
      assert false;
    } else if e < r {
      assert false;
    }
  }

  lemma MarkersStartWithI()
    ensures forall k :: 0 <= k < |NextItems| ==> |NextItems[k]| == 6 && NextItems[k][0] == 'I'
  {
  }

  /** No section is found exactly when neither "Item 1.01" nor "ITEM 1.01"
      occurs in the normalised text. */
  lemma SectionAbsent(text: string)
    ensures var c := Normalize(text);
      Item101Section(text).None? <==>
        (forall j :: !At(c, "Item 1.01", j)) && (forall j :: !At(c, "ITEM 1.01", j))
  {
  }

  /** The first "Item 1.01" is used whenever it occurs, even when an
      "ITEM 1.01" comes earlier; "ITEM 1.01" is used only in its absence. */
  lemma SectionStartChoice(c: string, j: int)
    ensures FirstAt(c, "Item 1.01", j) ==> SectionStart(c) == j
    ensures (forall k :: !At(c, "Item 1.01", k)) && FirstAt(c, "ITEM 1.01", j) ==> SectionStart(c) == j
  {
  }

  /** The section of a normal text begins at a full marker and runs past it. */
  lemma SectionBounds(c: string)
    requires SectionStart(c) != -1
    ensures var start := SectionStart(c);
      && 0 <= start && start + 9 <= NextItemStart(c, start + 8) <= |c|
      && (c[start..start + 9] == "Item 1.01" || c[start..start + 9] == "ITEM 1.01")
  {
    var start := SectionStart(c);
    assert At(c, "Item 1.01", start) || At(c, "ITEM 1.01", start);
    assert c[start + 8] == c[start..start + 9][8];
    var end := NextItemStart(c, start + 8);
    if end == start + 8 {
      assert MarkerAt(c, end);
      var k :| 0 <= k < |NextItems| && At(c, NextItems[k], end);
      MarkersStartWithI();
      assert false;
    }
  }

  /** Stripping a single-spaced string whose first and ninth characters are
      not whitespace keeps its first nine characters and yields a normal string. */
  lemma StripKeepsMarker(x: string)
    requires SingleSpaced(x)
    requires 9 <= |x| && !IsSpace(x[0]) && !IsSpace(x[8])
    ensures 9 <= |Strip(x)| && Strip(x)[..9] == x[..9]
    ensures Normal(Strip(x))
  {
    StripSingleSpaced(x);
    assert LStrip(x) == x;
    var r := RStrip(x);
    assert |r| > 8;
    assert r[..9] == x[..9];
  }

  /** The cut-out text for a normal content with a section start. */
  function Extracted(c: string): string
    requires SectionStart(c) != -1
  {
    var start := SectionStart(c);
    var extracted := Strip(Slice(c, start, NextItemStart(c, start + 8)));
    Normalize(ReplaceChar(ReplaceChar(extracted, '\n', ' '), '\r', ' '))
  }

  /** Stripping a slice of a normal string that runs from a non-space
      character over at least nine characters, the ninth non-space, keeps
      those nine characters in front and gives a normal string. */
  lemma StripSliceShape(c: string, start: nat, end: nat)
    requires Normal(c) && start + 9 <= end <= |c|
    requires !IsSpace(c[start]) && !IsSpace(c[start + 8])
    ensures var r := Strip(c[start..end]);
      9 <= |r| && r[..9] == c[start..start + 9] && Normal(r)
  {
    var x := c[start..end];
    assert SingleSpaced(x) by { SliceSingleSpaced(c, start, end); }
    assert x[..9] == c[start..start + 9];
    assert x[0] == c[start] && x[8] == c[start + 8];
    StripKeepsMarker(x);
  }

  /** The line-break replacements and re-normalisation leave a normal
      string as it is. */
  lemma CleanupUnchanged(r: string)
    requires Normal(r)
    ensures Normalize(ReplaceChar(ReplaceChar(r, '\n', ' '), '\r', ' ')) == r
  {
    assert ReplaceChar(ReplaceChar(r, '\n', ' '), '\r', ' ') == r by { NormalUntouched(r); }
    NormalizeFixpoint(r);
  }

  lemma ExtractedShape(c: string)
    requires Normal(c) && SectionStart(c) != -1
    ensures var start := SectionStart(c);
      var end := NextItemStart(c, start + 8);
      var r := Extracted(c);
      && 0 <= start && start + 9 <= end <= |c|
      && r == Strip(c[start..end])
      && 9 <= |r| && r[..9] == c[start..start + 9]
      && Normal(r)
  {
    var start := SectionStart(c);
    SectionBounds(c);
    var end := NextItemStart(c, start + 8);
    assert Slice(c, start, end) == c[start..end];
    assert !IsSpace(c[start]) && !IsSpace(c[start + 8]) by {
      assert c[start] == c[start..start + 9][0] && c[start + 8] == c[start..start + 9][8];
    }
    StripSliceShape(c, start, end);
    var r := Strip(c[start..end]);
    assert Extracted(c) == Normalize(ReplaceChar(ReplaceChar(r, '\n', ' '), '\r', ' '));
    CleanupUnchanged(r);
  }

  /** A found section is `content[start:end]` stripped and re-normalised,
      where `end` is the first marker position from `start + 8`; it begins
      with the matched "Item 1.01" or "ITEM 1.01", it is already in normal
      form, and no next-item marker starts between `start + 8` and `end`. */
  lemma SectionShape(text: string)
    requires Item101Section(text).Some?
    ensures var c := Normalize(text);
      var start := SectionStart(c);
      var end := NextItemStart(c, start + 8);
      var r := Item101Section(text).value;
      && 0 <= start && start + 9 <= end <= |c|
      && (c[start..start + 9] == "Item 1.01" || c[start..start + 9] == "ITEM 1.01")
      && r == Strip(c[start..end])
      && 9 <= |r| && r[..9] == c[start..start + 9]
      && Normal(r)
      && (forall j :: start + 8 <= j < end ==> !MarkerAt(c, j))
      && (end == |c| || MarkerAt(c, end))
  {
    var c := Normalize(text);
    assert Normal(c) by { NormalizeIsNormal(text); }
    SectionBounds(c);
    assert Item101Section(text).value == Extracted(c);
    ExtractedShape(c);
  }
}
