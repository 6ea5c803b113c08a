/**
  Splitting a document's text into one chunk per detected heading
  (`chunk_by_headings` in pipeline.py).  A heading says where its section starts;
  a section runs up to the next heading's start, and the last one to the end of
  the text.  Start positions come from a model's reply and are not checked, so the
  slice follows Python's rules: negative indices count from the end and every
  index is clamped to the text.
 */
module Chunking {
  import opened Text

  /** One entry of the heading list: its text, its level (1 to 3) and where it starts. */
  datatype Heading = Heading(text: string, level: int, startPosition: int)

  /** One chunk of the document: the heading it belongs to, that heading's level,
      the stripped text of its section and its index in the heading list. */
  datatype Chunk = Chunk(heading: string, level: int, content: string, position: nat)

  /** How Python normalises one slice bound `i` against a sequence of length `len`. */
  function SliceBound(i: int, len: nat): (r: nat)
    ensures r <= len
  {
    if i < 0 then (if i + len < 0 then 0 else i + len)
    else if i > len then len
    else i
  }

  /**
    Python's `s[start:end]` (step 1): a contiguous piece of `s` beginning at the
    normalised start, empty when the normalised end does not lie after it, and the
    plain Dafny slice whenever the bounds are already in order and inside `s`.
   */
  function PySlice(s: string, start: int, end: int): (r: string)
    ensures SliceBound(start, |s|) + |r| <= |s|
    ensures r == s[SliceBound(start, |s|)..SliceBound(start, |s|) + |r|]
    ensures 0 <= start <= end <= |s| ==> r == s[start..end]
    ensures SliceBound(end, |s|) <= SliceBound(start, |s|) ==> r == []
    ensures SliceBound(start, |s|) < SliceBound(end, |s|) ==> |r| == SliceBound(end, |s|) - SliceBound(start, |s|)
  {
    var lo, hi := SliceBound(start, |s|), SliceBound(end, |s|);
    if lo < hi then s[lo..hi] else []
  }

  /** Where section `i` ends: the next heading's start, or the end of the text for the last one. */
  function SectionEnd(text: string, headings: seq<Heading>, i: nat): int
    requires i < |headings|
  {
    if i < |headings| - 1 then headings[i + 1].startPosition else |text|
  }

  /** The raw (unstripped) text of section `i`. */
  function SectionText(text: string, headings: seq<Heading>, i: nat): string
    requires i < |headings|
  {
    PySlice(text, headings[i].startPosition, SectionEnd(text, headings, i))
  }

  /** Chunk `i` as `chunk_by_headings` builds it. */
  function ChunkAt(text: string, headings: seq<Heading>, i: nat): (c: Chunk)
    requires i < |headings|
  {
    Chunk(headings[i].text, headings[i].level, Strip(SectionText(text, headings, i)), i)
  }

  /**
    `chunk_by_headings`: exactly one chunk per heading, in heading order; chunk `i`
    carries heading `i`'s text and level, its index `i`, and the stripped text of
    section `i`.
   */
  method ChunkByHeadings(text: string, headings: seq<Heading>) returns (chunks: seq<Chunk>)
    ensures |chunks| == |headings|
    ensures forall i :: 0 <= i < |chunks| ==> chunks[i] == ChunkAt(text, headings, i)
  {
    chunks := [];
    var i := 0;
    while i < |headings|
      invariant 0 <= i <= |headings|
      invariant |chunks| == i
      invariant forall j :: 0 <= j < i ==> chunks[j] == ChunkAt(text, headings, j)
    {
      var end := SectionEnd(text, headings, i);
      var content := Strip(PySlice(text, headings[i].startPosition, end));
      var chunk := Chunk(headings[i].text, headings[i].level, content, i);
      ghost var before := chunks;
      chunks := chunks + [chunk];
      forall j | 0 <= j <= i
        ensures chunks[j] == ChunkAt(text, headings, j)
      {
        if j < i {
          assert chunks[j] == before[j];
        }
      }
      i := i + 1;
    }
  }

  /** Start positions that Python uses as they are: inside the text and in document order. */
  predicate InOrder(text: string, headings: seq<Heading>) {
    && (forall i :: 0 <= i < |headings| ==> 0 <= headings[i].startPosition <= |text|)
    && (forall i :: 0 <= i < |headings| - 1 ==> headings[i].startPosition <= headings[i + 1].startPosition)
  }

  /** The raw sections from heading `i` on, glued back together. */
  function SectionsFrom(text: string, headings: seq<Heading>, i: nat): string
    requires i <= |headings|
    decreases |headings| - i
  {
    if i == |headings| then [] else SectionText(text, headings, i) + SectionsFrom(text, headings, i + 1)
  }

  /**
    With start positions inside the text and in order, the sections tile the text:
    gluing the raw sections from heading `i` on gives back the text from heading
    `i`'s start to the end, so no character after the first heading is lost or repeated.
   */
  lemma {:induction false} SectionsTileText(text: string, headings: seq<Heading>, i: nat)
    requires InOrder(text, headings)
    requires i < |headings|
    ensures SectionsFrom(text, headings, i) == text[headings[i].startPosition..]
    decreases |headings| - i
  {
    var start := headings[i].startPosition;
    if i == |headings| - 1 {
      assert SectionText(text, headings, i) == text[start..|text|];
    } else {
      var next := headings[i + 1].startPosition;
      SectionsTileText(text, headings, i + 1);
      assert SectionText(text, headings, i) == text[start..next];
      assert text[start..next] + text[next..] == text[start..];
    }
  }
}
