/**
  Grouping a document's chunks into chapters (the loop in `process_document`,
  pipeline.py).  Chunks are visited in order; a level-1 chunk makes its heading the
  current chapter and (re)starts that chapter's list, and every chunk is appended to
  the current chapter's list when there is one.  "There is one" is Python
  truthiness: no chapter yet (`None`) and a chapter whose heading is the empty
  string both count as none.
 */
module Chapters {
  import opened Options
  import opened Seqs
  import opened Chunking

  /**
    The loop's variables: the chapter dictionary (a map plus the order in which
    Python's dict first received each key) and the current chapter.
   */
  datatype Grouping = Grouping(chapters: map<string, seq<Chunk>>, order: seq<string>, current: Option<string>)

  const Start := Grouping(map[], [], None)

  predicate IsOpener(c: Chunk) {
    c.level == 1
  }

  ghost predicate WellFormed(g: Grouping) {
    && (g.current.Some? ==> g.current.value in g.chapters)
    && NoDuplicates(g.order)
    && (forall k :: k in g.order <==> k in g.chapters)
  }

  /** One iteration of the loop, for chunk `c`. */
  function Step(g: Grouping, c: Chunk): (r: Grouping)
    requires WellFormed(g)
    ensures WellFormed(r)
  {
    var g' :=
      if IsOpener(c) then
        Grouping(g.chapters[c.heading := []],
                 if c.heading in g.chapters then g.order else g.order + [c.heading],
                 Some(c.heading))
      else g;
    match g'.current
    case Some(name) =>
      if name != "" then g'.(chapters := g'.chapters[name := g'.chapters[name] + [c]]) else g'
    case None => g'
  }

  /** The loop run over `cs`, starting from `g`. */
  function GroupFrom(g: Grouping, cs: seq<Chunk>): (r: Grouping)
    requires WellFormed(g)
    ensures WellFormed(r)
    decreases |cs|
  {
    if cs == [] then g else GroupFrom(Step(g, cs[0]), cs[1..])
  }

  /** The whole loop: the chapters of a document whose chunks are `cs`. */
  function GroupChapters(cs: seq<Chunk>): (r: Grouping)
    ensures WellFormed(r)
  {
    GroupFrom(Start, cs)
  }

  // ----- A direct description of the result, independent of the loop -----

  /** The longest prefix of `xs` that contains no level-1 chunk. */
  function Section(xs: seq<Chunk>): (r: seq<Chunk>)
    ensures |r| <= |xs| && r == xs[..|r|]
    ensures forall j :: 0 <= j < |r| ==> !IsOpener(r[j])
    ensures |r| == |xs| || IsOpener(xs[|r|])
  {
    if xs == [] || IsOpener(xs[0]) then [] else [xs[0]] + Section(xs[1..])
  }

  /** The chapter opened at index `i`: that chunk and the non-level-1 chunks after it. */
  function ChapterAt(cs: seq<Chunk>, i: nat): seq<Chunk>
    requires i < |cs|
  {
    [cs[i]] + Section(cs[i + 1..])
  }

  /** The index of the last level-1 chunk of `cs`, if any. */
  function LastOpener(cs: seq<Chunk>): (r: Option<nat>)
    ensures r.Some? ==> r.value < |cs| && IsOpener(cs[r.value])
    ensures r.Some? ==> forall j :: r.value < j < |cs| ==> !IsOpener(cs[j])
    ensures r.None? ==> forall j :: 0 <= j < |cs| ==> !IsOpener(cs[j])
  {
    if cs == [] then None
    else if IsOpener(cs[|cs| - 1]) then Some(|cs| - 1)
    else LastOpener(cs[..|cs| - 1])
  }

  /** The index of the last level-1 chunk of `cs` whose heading is `k`, if any. */
  function LastOpening(cs: seq<Chunk>, k: string): (r: Option<nat>)
    ensures r.Some? ==> r.value < |cs| && IsOpener(cs[r.value]) && cs[r.value].heading == k
    ensures r.Some? ==> forall j :: r.value < j < |cs| ==> !(IsOpener(cs[j]) && cs[j].heading == k)
    ensures r.None? ==> forall j :: 0 <= j < |cs| ==> !(IsOpener(cs[j]) && cs[j].heading == k)
  {
    if cs == [] then None
    else if IsOpener(cs[|cs| - 1]) && cs[|cs| - 1].heading == k then Some(|cs| - 1)
    else LastOpening(cs[..|cs| - 1], k)
  }

  /**
    What the loop is meant to compute for chunks `cs`: the current chapter is the
    heading of the last level-1 chunk; the chapters are exactly the headings of
    level-1 chunks; and chapter `k` holds the chunks from the LAST level-1 chunk
    named `k` up to (not including) the next level-1 chunk, or nothing at all when
    `k` is the empty heading.
   */
  ghost predicate Describes(cs: seq<Chunk>, g: Grouping) {
    && g.current == (if LastOpener(cs).Some? then Some(cs[LastOpener(cs).value].heading) else None)
    && (forall k :: k in g.chapters <==> LastOpening(cs, k).Some?)
    && (forall k :: k in g.chapters ==>
          g.chapters[k] == if k == "" then [] else ChapterAt(cs, LastOpening(cs, k).value))
  }

  /** The headings of the level-1 chunks of `cs`, in document order, repeats included. */
  function OpenerHeadings(cs: seq<Chunk>): seq<string> {
    if cs == [] then []
    else OpenerHeadings(cs[..|cs| - 1]) + (if IsOpener(cs[|cs| - 1]) then [cs[|cs| - 1].heading] else [])
  }

  // ----- Lemmas -----

  /** Running the loop over `xs + ys` is running it over `xs` and then over `ys`. */
  lemma {:induction false} GroupFromConcat(g: Grouping, xs: seq<Chunk>, ys: seq<Chunk>)
    requires WellFormed(g)
    ensures GroupFrom(g, xs + ys) == GroupFrom(GroupFrom(g, xs), ys)
    decreases |xs|
  {
    if xs == [] {
      assert xs + ys == ys;
    } else {
      assert (xs + ys)[0] == xs[0];
      assert (xs + ys)[1..] == xs[1..] + ys;
      assert GroupFrom(g, xs + ys) == GroupFrom(Step(g, xs[0]), xs[1..] + ys);
      GroupFromConcat(Step(g, xs[0]), xs[1..], ys);
    }
  }

  /** Appending one chunk to a document adds one iteration at the end. */
  lemma GroupChaptersSnoc(cs: seq<Chunk>, c: Chunk)
    ensures GroupChapters(cs + [c]) == Step(GroupChapters(cs), c)
  {
    GroupFromConcat(Start, cs, [c]);
    assert GroupFrom(Step(GroupChapters(cs), c), []) == Step(GroupChapters(cs), c);
  }

  /** A level-1 chunk at the end does not change where an earlier section stops. */
  lemma {:induction false} SectionSnocOpener(xs: seq<Chunk>, c: Chunk)
    requires IsOpener(c)
    ensures Section(xs + [c]) == Section(xs)
    decreases |xs|
  {
    if xs != [] && !IsOpener(xs[0]) {
      assert (xs + [c])[1..] == xs[1..] + [c];
      SectionSnocOpener(xs[1..], c);
    }
  }

  /** Chunks appended after a level-1 chunk do not change where a section stops. */
  lemma {:induction false} SectionStops(xs: seq<Chunk>, m: nat, c: Chunk)
    requires m < |xs| && IsOpener(xs[m])
    ensures Section(xs + [c]) == Section(xs)
    decreases |xs|
  {
    if !IsOpener(xs[0]) {
      assert (xs + [c])[1..] == xs[1..] + [c];
      SectionStops(xs[1..], m - 1, c);
    }
  }

  /** A run of chunks with no level-1 chunk is one whole section. */
  lemma {:induction false} SectionOfPlain(xs: seq<Chunk>)
    requires forall j :: 0 <= j < |xs| ==> !IsOpener(xs[j])
    ensures Section(xs) == xs
    decreases |xs|
  {
    if xs != [] {
      SectionOfPlain(xs[1..]);
    }
  }

  /** What one iteration does for a level-1 chunk. */
  lemma StepOpener(g: Grouping, c: Chunk)
    requires WellFormed(g) && IsOpener(c)
    ensures Step(g, c).current == Some(c.heading)
    ensures Step(g, c).chapters == g.chapters[c.heading := if c.heading == "" then [] else [c]]
  {
    var m := g.chapters[c.heading := []];
    assert [] + [c] == [c];
    assert m[c.heading := [c]] == g.chapters[c.heading := [c]];
  }

  /** What one iteration does for a chunk below level 1. */
  lemma StepPlain(g: Grouping, c: Chunk)
    requires WellFormed(g) && !IsOpener(c)
    ensures Step(g, c).current == g.current
    ensures Step(g, c).chapters ==
      if g.current.Some? && g.current.value != "" then g.chapters[g.current.value := g.chapters[g.current.value] + [c]]
      else g.chapters
  {
  }

  /** How the last level-1 chunk moves when one chunk is appended. */
  lemma LastOpenerSnoc(prefix: seq<Chunk>, c: Chunk)
    ensures LastOpener(prefix + [c]) == if IsOpener(c) then Some(|prefix|) else LastOpener(prefix)
  {
    assert (prefix + [c])[..|prefix|] == prefix;
  }

  /** How the last level-1 chunk named `k` moves when one chunk is appended. */
  lemma LastOpeningSnoc(prefix: seq<Chunk>, c: Chunk, k: string)
    ensures LastOpening(prefix + [c], k) ==
      if IsOpener(c) && c.heading == k then Some(|prefix|) else LastOpening(prefix, k)
  {
    assert (prefix + [c])[..|prefix|] == prefix;
  }

  /** A chapter opened inside `prefix`, seen in `prefix + [c]`. */
  lemma ChapterAtSnoc(prefix: seq<Chunk>, c: Chunk, i: nat)
    requires i < |prefix|
    ensures ChapterAt(prefix + [c], i) == [prefix[i]] + Section(prefix[i + 1..] + [c])
  {
    assert (prefix + [c])[i + 1..] == prefix[i + 1..] + [c];
  }

  /** The loop computes what `Describes` says, for every list of chunks. */
  lemma {:induction false} GroupChaptersDescribed(cs: seq<Chunk>)
    ensures Describes(cs, GroupChapters(cs))
    decreases |cs|
  {
    if cs == [] {
      return;
    }
    var prefix, c := cs[..|cs| - 1], cs[|cs| - 1];
    assert cs == prefix + [c];
    GroupChaptersDescribed(prefix);
    GroupChaptersSnoc(prefix, c);
    if IsOpener(c) {
      OpenerStep(prefix, c, GroupChapters(prefix));
    } else {
      PlainStep(prefix, c, GroupChapters(prefix));
    }
  }

  /**
    The dictionary's insertion order lists the level-1 headings, each once, in the
    order in which they first occur; a heading that opens again keeps its place.
   */
  lemma {:induction false} GroupChaptersOrder(cs: seq<Chunk>)
    ensures GroupChapters(cs).order == Dedup(OpenerHeadings(cs))
    decreases |cs|
  {
    if cs == [] {
      return;
    }
    var prefix, c := cs[..|cs| - 1], cs[|cs| - 1];
    assert cs == prefix + [c];
    GroupChaptersOrder(prefix);
    GroupChaptersSnoc(prefix, c);
    var g := GroupChapters(prefix);
    if IsOpener(c) {
      var hs := OpenerHeadings(prefix) + [c.heading];
      assert OpenerHeadings(cs) == hs;
      assert hs[..|hs| - 1] == OpenerHeadings(prefix);
      assert c.heading in g.chapters <==> c.heading in g.order;
    } else {
      assert OpenerHeadings(cs) == OpenerHeadings(prefix);
    }
  }

  /** The induction step of `GroupChaptersDescribed` for a level-1 chunk. */
  lemma OpenerStep(prefix: seq<Chunk>, c: Chunk, g: Grouping)
    requires IsOpener(c)
    requires WellFormed(g) && Describes(prefix, g)
    ensures Describes(prefix + [c], Step(g, c))
  {
    var g' := Step(g, c);
    var cs := prefix + [c];
    StepOpener(g, c);
    LastOpenerSnoc(prefix, c);
    assert cs[|prefix|] == c;
    forall k
      ensures k in g'.chapters <==> LastOpening(cs, k).Some?
    {
      LastOpeningSnoc(prefix, c, k);
    }
    forall k | k in g'.chapters
      ensures g'.chapters[k] == if k == "" then [] else ChapterAt(cs, LastOpening(cs, k).value)
    {
      OpenerChapter(prefix, c, g, k);
    }
  }

  /** One chapter in the induction step for a level-1 chunk `c`. */
  lemma OpenerChapter(prefix: seq<Chunk>, c: Chunk, g: Grouping, k: string)
    requires IsOpener(c)
    requires WellFormed(g) && Describes(prefix, g)
    requires k in Step(g, c).chapters
    ensures Step(g, c).chapters[k] == if k == "" then [] else ChapterAt(prefix + [c], LastOpening(prefix + [c], k).value)
  {
    StepOpener(g, c);
    LastOpeningSnoc(prefix, c, k);
    if k == c.heading {
      assert (prefix + [c])[|prefix| + 1..] == [];
    } else if k != "" {
      OpenerKeepsChapter(prefix, c, LastOpening(prefix, k).value, g.chapters[k], Step(g, c).chapters[k]);
    }
  }

  /** A chapter opened inside `prefix` is closed by the level-1 chunk `c` and keeps its chunks. */
  lemma OpenerKeepsChapter(prefix: seq<Chunk>, c: Chunk, i: nat, before: seq<Chunk>, after: seq<Chunk>)
    requires IsOpener(c) && i < |prefix|
    requires before == ChapterAt(prefix, i) && after == before
    ensures after == ChapterAt(prefix + [c], i)
  {
    ChapterAtSnoc(prefix, c, i);
    SectionSnocOpener(prefix[i + 1..], c);
  }

  /** The induction step of `GroupChaptersDescribed` for a chunk that is not level 1. */
  lemma PlainStep(prefix: seq<Chunk>, c: Chunk, g: Grouping)
    requires !IsOpener(c)
    requires WellFormed(g) && Describes(prefix, g)
    ensures Describes(prefix + [c], Step(g, c))
  {
    var g' := Step(g, c);
    var cs := prefix + [c];
    StepPlain(g, c);
    LastOpenerSnoc(prefix, c);
    forall k
      ensures k in g'.chapters <==> LastOpening(cs, k).Some?
    {
      LastOpeningSnoc(prefix, c, k);
    }
    forall k | k in g'.chapters
      ensures g'.chapters[k] == if k == "" then [] else ChapterAt(cs, LastOpening(cs, k).value)
    {
      PlainChapter(prefix, c, g, k);
    }
  }

  /** One chapter in the induction step for a chunk `c` below level 1. */
  lemma PlainChapter(prefix: seq<Chunk>, c: Chunk, g: Grouping, k: string)
    requires !IsOpener(c)
    requires WellFormed(g) && Describes(prefix, g)
    requires k in Step(g, c).chapters
    ensures Step(g, c).chapters[k] == if k == "" then [] else ChapterAt(prefix + [c], LastOpening(prefix + [c], k).value)
  {
    StepPlain(g, c);
    LastOpeningSnoc(prefix, c, k);
    if k != "" {
      var j := LastOpening(prefix, k).value;
      var last := LastOpener(prefix).value;
      PlainStepChapter(prefix, c, j, last, g.chapters[k], Step(g, c).chapters[k], g.current == Some(k));
    }
  }

  /**
    One chapter in the induction step for a chunk `c` below level 1: the chapter
    opened at `j` either is the current one (it grows by `c`) or was closed by the
    later level-1 chunk at `last` (it stays as it was).
   */
  lemma PlainStepChapter(prefix: seq<Chunk>, c: Chunk, j: nat, last: nat,
                         before: seq<Chunk>, after: seq<Chunk>, isCurrent: bool)
    requires !IsOpener(c)
    requires j <= last < |prefix| && IsOpener(prefix[j]) && IsOpener(prefix[last])
    requires forall i :: last < i < |prefix| ==> !IsOpener(prefix[i])
    requires isCurrent <==> j == last
    requires before == ChapterAt(prefix, j)
    requires after == if isCurrent then before + [c] else before
    ensures after == ChapterAt(prefix + [c], j)
  {
    ChapterAtSnoc(prefix, c, j);
    if j == last {
      SectionOfPlain(prefix[j + 1..]);
      SectionOfPlain(prefix[j + 1..] + [c]);
    } else {
      SectionStops(prefix[j + 1..], last - (j + 1), c);
    }
  }

  /**
    Chunks before the first level-1 chunk belong to no chapter: removing them from
    the front of the document changes nothing in the result.
   */
  lemma LeadingChunksInNoChapter(lead: seq<Chunk>, rest: seq<Chunk>)
    requires forall j :: 0 <= j < |lead| ==> !IsOpener(lead[j])
    ensures GroupChapters(lead + rest) == GroupChapters(rest)
  {
    GroupFromConcat(Start, lead, rest);
    LeadIsIdle(lead);
  }

  lemma {:induction false} LeadIsIdle(lead: seq<Chunk>)
    requires forall j :: 0 <= j < |lead| ==> !IsOpener(lead[j])
    ensures GroupFrom(Start, lead) == Start
    decreases |lead|
  {
    if lead != [] {
      assert Step(Start, lead[0]) == Start;
      LeadIsIdle(lead[1..]);
    }
  }

  /**
    A level-1 chunk whose heading repeats an earlier chapter replaces that chapter's
    list with a fresh one holding just itself (or nothing, for the empty heading), and
    leaves every other chapter as it was.
   */
  lemma ReopeningReplaces(cs: seq<Chunk>, c: Chunk)
    requires IsOpener(c)
    ensures var g, g' := GroupChapters(cs), GroupChapters(cs + [c]);
      && c.heading in g'.chapters
      && g'.chapters[c.heading] == (if c.heading == "" then [] else [c])
      && (forall k :: k in g.chapters && k != c.heading ==> k in g'.chapters && g'.chapters[k] == g.chapters[k])
      && g'.order == (if c.heading in g.chapters then g.order else g.order + [c.heading])
  {
    GroupChaptersSnoc(cs, c);
    StepOpener(GroupChapters(cs), c);
  }

  /**
    Every chapter with a non-empty heading starts with the level-1 chunk that named
    it, and all its other chunks are below level 1; the empty heading's chapter is empty.
   */
  lemma ChapterShape(cs: seq<Chunk>, k: string)
    requires k in GroupChapters(cs).chapters
    ensures var ch := GroupChapters(cs).chapters[k];
      && (k == "" ==> ch == [])
      && (k != "" ==> |ch| >= 1 && IsOpener(ch[0]) && ch[0].heading == k
                      && forall j :: 1 <= j < |ch| ==> !IsOpener(ch[j]))
  {
    GroupChaptersDescribed(cs);
  }
}
