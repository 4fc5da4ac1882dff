/** The auto and sections chunkers over whole documents (src/alvis/chunk/auto.py, src/alvis/chunk/sections.py). */
module Chunkers {
  import opened Wrappers
  import opened Models
  import opened Text
  import opened AutoChunk
  import opened SplitFacts
  import opened Markdown

  // A chunk of a document, with the metadata the chunkers give it.
  datatype DocChunk = DocChunk(text: string, uri: Uri, title: string, heading: string)

  function HeadingLine(heading: string): string {
    "# " + heading
  }

  // The line put in front of a section reads back as a heading of the first level with that title.
  lemma HeadingLineIsRead(heading: string)
    requires heading != "" && Strip(heading) == heading
    ensures HeadingLine(heading) == "#" + " " + heading
    ensures IsHeading(HeadingLine(heading)) && HeadingLevel(HeadingLine(heading)) == Some(1)
    ensures TitleOf(HeadingLine(heading)) == heading
  {
    StripIsEmptyIffBlank(heading);
    LineIsStripped(heading);
    FirstLevelLine(HeadingLine(heading), heading);
  }

  lemma FirstLevelLine(line: string, heading: string)
    requires line == HeadingLine(heading) && Strip(line) == line && !Blank(heading)
    ensures HeadingLevel(line) == Some(1) && IsHeading(line) && TitleOf(line) == Strip(heading)
  {
    LineOfOneHash(heading);
    TitleIsRead("", 1, heading);
  }

  lemma LineOfOneHash(heading: string)
    ensures "" + (Repeat('#', 1) + (" " + heading)) == HeadingLine(heading)
  {
    assert Repeat('#', 1) == "#";
  }

  lemma LineIsStripped(heading: string)
    requires heading != "" && Strip(heading) == heading
    ensures Strip(HeadingLine(heading)) == HeadingLine(heading)
  {
    var line := HeadingLine(heading);
    StripEndsSolid(heading);
    assert line[0] == '#' && line[|line| - 1] == heading[|heading| - 1];
    StripIsCore("", line, "");
    assert "" + line + "" == line;
  }

  function SectionText(s: Section): string {
    if s.body == "" then "" else if s.heading == "" then s.body else HeadingLine(s.heading) + "\n\n" + s.body
  }

  lemma JoinSectionLines(line: string, lines: seq<string>)
    requires lines != []
    ensures Join([line, ""] + lines, "\n") == line + "\n\n" + Join(lines, "\n")
    ensures Join([""] + lines, "\n") == "\n" + Join(lines, "\n")
  {
    var rest := [""] + lines;
    assert ([line, ""] + lines)[1..] == rest && rest[1..] == lines;
    assert Join(rest, "\n") == "" + "\n" + Join(lines, "\n");
  }

  lemma BodyIsStripped(body: string)
    requires body != "" && Strip(body) == body
    ensures Strip("\n" + body) == body
  {
    StripEndsSolid(body);
    StripIsCore("\n", body, "");
    assert "\n" + body + "" == "\n" + body;
  }

  // A section's text is Markdown that extraction reads back as the same section.
  lemma SectionTextReadsBack(s: Section, lines: seq<string>)
    requires s.heading != "" && Strip(s.heading) == s.heading && s.body != "" && Strip(s.body) == s.body
    requires NoHeading(lines) && Join(lines, "\n") == s.body
    ensures Join([HeadingLine(s.heading), ""] + lines, "\n") == SectionText(s)
    ensures Extract([HeadingLine(s.heading), ""] + lines) == [s]
  {
    assert lines != [];
    JoinSectionLines(HeadingLine(s.heading), lines);
    HeadingLineIsRead(s.heading);
    BodyIsStripped(s.body);
    OneSection(HeadingLine(s.heading), lines);
  }

  lemma OneSection(line: string, lines: seq<string>)
    requires IsHeading(line) && NoHeading(lines)
    ensures Extract([line, ""] + lines) == [Section(TitleOf(line), Strip(Join([""] + lines, "\n")))]
  {
    var rest := [""] + lines;
    EmptyIsNoHeading();
    assert forall i :: 1 <= i < |rest| ==> rest[i] == lines[i - 1];
    ExtractSectionBySection([], line, rest);
    assert [] + [line] + rest == [line, ""] + lines;
    assert [] + [Section(TitleOf(line), Strip(Join(rest, "\n")))]
        == [Section(TitleOf(line), Strip(Join(rest, "\n")))];
  }

  lemma EmptyIsNoHeading()
    ensures !IsHeading("")
  {
    StripIsEmptyIffBlank("");
  }

  function Labelled(d: Document, s: Section, parts: seq<string>): (chunks: seq<DocChunk>)
    ensures |chunks| == |parts|
    ensures forall i :: 0 <= i < |parts| ==> chunks[i] == DocChunk(parts[i], d.uri, d.title, s.heading)
  {
    seq(|parts|, i requires 0 <= i < |parts| => DocChunk(parts[i], d.uri, d.title, s.heading))
  }

  /* AutoChunker. */

  function AutoParts(s: Section, maxTokens: int, overlap: int): seq<string> {
    KeepText(SplitText(SectionText(s), maxTokens, overlap))
  }

  function AutoChunks(d: Document, sections: seq<Section>, maxTokens: int, overlap: int): seq<DocChunk> {
    if sections == [] then []
    else
      var last := sections[|sections| - 1];
      AutoChunks(d, sections[..|sections| - 1], maxTokens, overlap)
        + Labelled(d, last, AutoParts(last, maxTokens, overlap))
  }

  method AutoChunkDocument(d: Document, maxTokens: int, overlap: int) returns (chunks: seq<DocChunk>)
    ensures chunks == AutoChunks(d, d.sections, maxTokens, Min(overlap, maxTokens))
  {
    var carried := Min(overlap, maxTokens);
    chunks := [];
    for i := 0 to |d.sections|
      invariant chunks == AutoChunks(d, d.sections[..i], maxTokens, carried)
    {
      assert d.sections[..i + 1][..i] == d.sections[..i];
      var parts := SplitTextLoop(SectionText(d.sections[i]), maxTokens, carried);
      var kept := LabelWithText(d, d.sections[i], parts);
      chunks := chunks + kept;
    }
    assert d.sections[..|d.sections|] == d.sections;
  }

  method LabelWithText(d: Document, s: Section, parts: seq<string>) returns (chunks: seq<DocChunk>)
    ensures chunks == Labelled(d, s, KeepText(parts))
  {
    chunks := [];
    for i := 0 to |parts|
      invariant chunks + Labelled(d, s, KeepText(parts[i..])) == Labelled(d, s, KeepText(parts))
    {
      assert parts[i..][1..] == parts[i + 1..];
      if Blank(parts[i]) {
        continue;
      }
      ghost var rest := KeepText(parts[i + 1..]);
      assert Labelled(d, s, [parts[i]] + rest)
        == [DocChunk(parts[i], d.uri, d.title, s.heading)] + Labelled(d, s, rest);
      chunks := chunks + [DocChunk(parts[i], d.uri, d.title, s.heading)];
    }
    assert parts[|parts|..] == [];
  }

  /* SectionsChunker. */

  predicate StartsWith(text: string, prefix: string) {
    prefix <= text
  }

  // A continuation gets its heading line back unless it already starts with it.
  function Continued(s: Section, index: nat, part: string): string {
    if index > 0 && s.heading != "" && !StartsWith(part, HeadingLine(s.heading))
    then HeadingLine(s.heading) + "\n\n" + part else part
  }

  function SectionParts(s: Section, maxTokens: int, overlap: int): (parts: seq<string>)
    ensures |parts| == |SplitText(SectionText(s), maxTokens, overlap)|
  {
    var pieces := SplitText(SectionText(s), maxTokens, overlap);
    seq(|pieces|, i requires 0 <= i < |pieces| => Continued(s, i, pieces[i]))
  }

  function SectionChunks(d: Document, sections: seq<Section>, maxTokens: int, overlap: int): seq<DocChunk> {
    if sections == [] then []
    else
      var last := sections[|sections| - 1];
      SectionChunks(d, sections[..|sections| - 1], maxTokens, overlap)
        + Labelled(d, last, SectionParts(last, maxTokens, overlap))
  }

  method SectionChunkDocument(d: Document, maxTokens: int, overlap: int) returns (chunks: seq<DocChunk>)
    ensures chunks == SectionChunks(d, d.sections, maxTokens, Min(overlap, maxTokens))
  {
    var carried := Min(overlap, maxTokens);
    chunks := [];
    for i := 0 to |d.sections|
      invariant chunks == SectionChunks(d, d.sections[..i], maxTokens, carried)
    {
      assert d.sections[..i + 1][..i] == d.sections[..i];
      var parts := SplitTextLoop(SectionText(d.sections[i]), maxTokens, carried);
      var labelled := LabelContinued(d, d.sections[i], parts);
      assert labelled == Labelled(d, d.sections[i], SectionParts(d.sections[i], maxTokens, carried));
      chunks := chunks + labelled;
    }
    assert d.sections[..|d.sections|] == d.sections;
  }

  method LabelContinued(d: Document, s: Section, parts: seq<string>) returns (chunks: seq<DocChunk>)
    ensures |chunks| == |parts|
    ensures forall i :: 0 <= i < |parts| ==> chunks[i] == DocChunk(Continued(s, i, parts[i]), d.uri, d.title, s.heading)
  {
    chunks := [];
    for index := 0 to |parts|
      invariant |chunks| == index
      invariant forall i :: 0 <= i < index ==>
                  chunks[i] == DocChunk(Continued(s, i, parts[i]), d.uri, d.title, s.heading)
    {
      var part := parts[index];
      if index > 0 && s.heading != "" && !StartsWith(part, HeadingLine(s.heading)) {
        part := HeadingLine(s.heading) + "\n\n" + part;
      }
      chunks := chunks + [DocChunk(part, d.uri, d.title, s.heading)];
    }
  }

  /* Words reach chunks under their own heading. */

  lemma {:induction false} WordInSome(parts: seq<string>, word: string) returns (i: nat)
    requires word in AllWords(parts)
    ensures i < |parts| && word in Words(parts[i])
  {
    if word in Words(parts[0]) {
      i := 0;
    } else {
      i := WordInSome(parts[1..], word);
      i := i + 1;
    }
  }

  // Every word of a section's body is in some part of its split text.
  lemma BodyWordIsSplit(s: Section, maxTokens: int, overlap: int, word: string) returns (i: nat)
    requires word in Words(s.body)
    ensures i < |SplitText(SectionText(s), maxTokens, overlap)|
            && word in Words(SplitText(SectionText(s), maxTokens, overlap)[i])
  {
    var text := SectionText(s);
    SplitKeepsWords(text, maxTokens, overlap);
    if s.heading != "" {
      WordsAcrossBreak(HeadingLine(s.heading), s.body);
    }
    assert word in Words(text);
    var cuts := Cuts(text, maxTokens, overlap);
    i := WordInSome(Added(cuts), word);
    assert word in Words(cuts[i].added);
  }

  predicate Holds(chunks: seq<DocChunk>, t: Tagged) {
    exists c :: 0 <= c < |chunks| && chunks[c].heading == t.heading && t.word in Words(chunks[c].text)
  }

  lemma HoldsConcat(a: seq<DocChunk>, b: seq<DocChunk>, t: Tagged)
    requires Holds(a, t) || Holds(b, t)
    ensures Holds(a + b, t)
  {
    if Holds(a, t) {
      var c :| 0 <= c < |a| && a[c].heading == t.heading && t.word in Words(a[c].text);
      assert (a + b)[c] == a[c];
    } else {
      var c :| 0 <= c < |b| && b[c].heading == t.heading && t.word in Words(b[c].text);
      assert (a + b)[|a| + c] == b[c];
    }
  }

  lemma {:induction false} AutoChunksHold(d: Document, sections: seq<Section>, maxTokens: int, overlap: int, t: Tagged)
    requires t in WordsOfSections(sections)
    ensures Holds(AutoChunks(d, sections, maxTokens, overlap), t)
  {
    var rest, last := sections[..|sections| - 1], sections[|sections| - 1];
    var earlier, added :=
      AutoChunks(d, rest, maxTokens, overlap), Labelled(d, last, AutoParts(last, maxTokens, overlap));
    if t in WordsOfSections(rest) {
      AutoChunksHold(d, rest, maxTokens, overlap, t);
    } else {
      var i := BodyWordIsSplit(last, maxTokens, overlap, t.word);
      var pieces := SplitText(SectionText(last), maxTokens, overlap);
      KeepTextKeepsWords(Texts(Cuts(SectionText(last), maxTokens, overlap)));
      NothingToFilter(pieces);
      assert added[i].heading == t.heading && t.word in Words(added[i].text);
    }
    HoldsConcat(earlier, added, t);
  }

  lemma {:induction false} SectionChunksHold(d: Document, sections: seq<Section>, maxTokens: int, overlap: int,
                                             t: Tagged)
    requires t in WordsOfSections(sections)
    ensures Holds(SectionChunks(d, sections, maxTokens, overlap), t)
  {
    var rest, last := sections[..|sections| - 1], sections[|sections| - 1];
    var earlier, added :=
      SectionChunks(d, rest, maxTokens, overlap), Labelled(d, last, SectionParts(last, maxTokens, overlap));
    if t in WordsOfSections(rest) {
      SectionChunksHold(d, rest, maxTokens, overlap, t);
    } else {
      var i := BodyWordIsSplit(last, maxTokens, overlap, t.word);
      var piece := SplitText(SectionText(last), maxTokens, overlap)[i];
      WordsAcrossBreak(HeadingLine(last.heading), piece);
      assert t.word in Words(Continued(last, i, piece));
      assert added[i].heading == t.heading && t.word in Words(added[i].text);
    }
    HoldsConcat(earlier, added, t);
  }

  // From lines to chunks, with either chunker: every word of every line that is not a heading ends up in a
  // chunk labelled with the nearest heading before it.
  lemma MarkdownWordsReachChunks(d: Document, lines: seq<string>, maxTokens: int, overlap: int)
    ensures forall t :: t in WordsUnderHeadings(lines) ==>
              && Holds(AutoChunks(d, Extract(lines), maxTokens, overlap), t)
              && Holds(SectionChunks(d, Extract(lines), maxTokens, overlap), t)
  {
    ExtractKeepsWords(lines);
    forall t | t in WordsUnderHeadings(lines)
      ensures Holds(AutoChunks(d, Extract(lines), maxTokens, overlap), t)
      ensures Holds(SectionChunks(d, Extract(lines), maxTokens, overlap), t)
    {
      AutoChunksHold(d, Extract(lines), maxTokens, overlap, t);
      SectionChunksHold(d, Extract(lines), maxTokens, overlap, t);
    }
  }

  /* The same as an equality: what the chunks add, word by word and heading by heading. */

  // A piece of a section's split text, with the section's heading.
  datatype HeadedCut = HeadedCut(cut: Cut, heading: string)

  function Headed(cuts: seq<Cut>, heading: string): (headed: seq<HeadedCut>)
    ensures |headed| == |cuts| && forall i :: 0 <= i < |cuts| ==> headed[i] == HeadedCut(cuts[i], heading)
  {
    seq(|cuts|, i requires 0 <= i < |cuts| => HeadedCut(cuts[i], heading))
  }

  function HeadedCuts(sections: seq<Section>, maxTokens: int, overlap: int): seq<HeadedCut> {
    if sections == [] then []
    else
      var last := sections[|sections| - 1];
      HeadedCuts(sections[..|sections| - 1], maxTokens, overlap)
        + Headed(Cuts(SectionText(last), maxTokens, overlap), last.heading)
  }

  // The words each piece adds to what it carries, under its heading.
  function AddedWords(headed: seq<HeadedCut>): seq<Tagged> {
    if headed == [] then []
    else
      var last := headed[|headed| - 1];
      AddedWords(headed[..|headed| - 1]) + Tag(Words(last.cut.added), last.heading)
  }

  // The words of a section's heading line, which stands in front of its body when it has one.
  function TitleWords(s: Section): seq<string> {
    if s.body == "" || s.heading == "" then [] else Words(HeadingLine(s.heading))
  }

  function WordsWithTitles(sections: seq<Section>): seq<Tagged> {
    if sections == [] then []
    else
      var last := sections[|sections| - 1];
      WordsWithTitles(sections[..|sections| - 1]) + Tag(TitleWords(last), last.heading)
        + Tag(Words(last.body), last.heading)
  }

  lemma {:induction false} AddedWordsConcat(a: seq<HeadedCut>, b: seq<HeadedCut>)
    ensures AddedWords(a + b) == AddedWords(a) + AddedWords(b)
  {
    if b == [] {
      assert a + b == a;
    } else {
      AddedWordsConcat(a, b[..|b| - 1]);
      assert (a + b)[..|a + b| - 1] == a + b[..|b| - 1];
      Associate(AddedWords(a), AddedWords(b[..|b| - 1]), Tag(Words(b[|b| - 1].cut.added), b[|b| - 1].heading));
    }
  }

  lemma {:induction false} AddedWordsUnder(cuts: seq<Cut>, heading: string)
    ensures AddedWords(Headed(cuts, heading)) == Tag(AllWords(Added(cuts)), heading)
  {
    if cuts == [] {
    } else {
      var rest, last := cuts[..|cuts| - 1], cuts[|cuts| - 1];
      AddedWordsUnder(rest, heading);
      assert Headed(cuts, heading)[..|cuts| - 1] == Headed(rest, heading);
      AddedConcat(rest, [last]);
      assert cuts == rest + [last] && Added([last]) == [last.added];
      assert AllWords([last.added]) == Words(last.added) + AllWords([]);
      TagConcat(AllWords(Added(rest)), Words(last.added), heading);
    }
  }

  lemma SectionWords(s: Section)
    ensures Words(SectionText(s)) == TitleWords(s) + Words(s.body)
  {
    if s.body != "" && s.heading != "" {
      WordsAcrossBreak(HeadingLine(s.heading), s.body);
    } else {
      assert [] + Words(s.body) == Words(s.body);
    }
  }

  // The chunks add exactly the words of the heading lines and bodies, in order, each under its heading.
  lemma {:induction false} ChunksAddEveryWord(sections: seq<Section>, maxTokens: int, overlap: int)
    ensures AddedWords(HeadedCuts(sections, maxTokens, overlap)) == WordsWithTitles(sections)
  {
    if sections == [] {
    } else {
      var rest, last := sections[..|sections| - 1], sections[|sections| - 1];
      var cuts := Cuts(SectionText(last), maxTokens, overlap);
      ChunksAddEveryWord(rest, maxTokens, overlap);
      AddedWordsConcat(HeadedCuts(rest, maxTokens, overlap), Headed(cuts, last.heading));
      AddedWordsUnder(cuts, last.heading);
      SplitKeepsWords(SectionText(last), maxTokens, overlap);
      SectionWords(last);
      TagConcat(TitleWords(last), Words(last.body), last.heading);
      Associate(WordsWithTitles(rest), Tag(TitleWords(last), last.heading), Tag(Words(last.body), last.heading));
    }
  }

  lemma AutoPartsAreCuts(s: Section, maxTokens: int, overlap: int)
    ensures AutoParts(s, maxTokens, overlap) == Texts(Cuts(SectionText(s), maxTokens, overlap))
  {
    ChunksAreCuts(SectionText(s), maxTokens, overlap);
    KeepTextKeepsWords(Texts(Cuts(SectionText(s), maxTokens, overlap)));
    NothingToFilter(SplitText(SectionText(s), maxTokens, overlap));
  }

  // The chunks of the auto chunker are those pieces, labelled.
  lemma {:induction false} AutoChunksAreCuts(d: Document, sections: seq<Section>, maxTokens: int, overlap: int)
    ensures var chunks, headed := AutoChunks(d, sections, maxTokens, overlap), HeadedCuts(sections, maxTokens, overlap);
            |chunks| == |headed|
            && forall i :: 0 <= i < |chunks| ==>
                 chunks[i] == DocChunk(TextOf(headed[i].cut), d.uri, d.title, headed[i].heading)
  {
    if sections == [] {
    } else {
      AutoChunksAreCuts(d, sections[..|sections| - 1], maxTokens, overlap);
      AutoPartsAreCuts(sections[|sections| - 1], maxTokens, overlap);
    }
  }

  // Those of the sections chunker are the same, except that continuations may get their heading line back.
  lemma {:induction false} SectionChunksAreCuts(d: Document, sections: seq<Section>, maxTokens: int, overlap: int)
    ensures var chunks, headed :=
              SectionChunks(d, sections, maxTokens, overlap), HeadedCuts(sections, maxTokens, overlap);
            |chunks| == |headed|
            && forall i :: 0 <= i < |chunks| ==>
                 && chunks[i].heading == headed[i].heading
                 && (chunks[i].text == TextOf(headed[i].cut)
                     || chunks[i].text == HeadingLine(headed[i].heading) + "\n\n" + TextOf(headed[i].cut))
  {
    if sections == [] {
    } else {
      SectionChunksAreCuts(d, sections[..|sections| - 1], maxTokens, overlap);
      ChunksAreCuts(SectionText(sections[|sections| - 1]), maxTokens, overlap);
    }
  }

  // What the pieces of one section add, word by word.
  function PieceWords(s: Section, maxTokens: int, overlap: int): seq<string> {
    AllWords(Added(Cuts(SectionText(s), maxTokens, overlap)))
  }

  lemma PiecesAddTitleAndBody(s: Section, maxTokens: int, overlap: int)
    ensures PieceWords(s, maxTokens, overlap) == TitleWords(s) + Words(s.body)
  {
    SplitKeepsWords(SectionText(s), maxTokens, overlap);
    SectionWords(s);
  }

  function Behind(words: seq<string>, n: nat): seq<string> {
    if n <= |words| then words[n..] else []
  }

  // What the pieces of all sections add behind the heading lines they start with, each word under its heading.
  function WordsBehindTitles(sections: seq<Section>, maxTokens: int, overlap: int): seq<Tagged> {
    if sections == [] then []
    else
      var last := sections[|sections| - 1];
      WordsBehindTitles(sections[..|sections| - 1], maxTokens, overlap)
      + Tag(Behind(PieceWords(last, maxTokens, overlap), |TitleWords(last)|), last.heading)
  }

  lemma {:induction false} BehindTitlesAreBodies(sections: seq<Section>, maxTokens: int, overlap: int)
    ensures WordsBehindTitles(sections, maxTokens, overlap) == WordsOfSections(sections)
  {
    if sections == [] {
    } else {
      var last := sections[|sections| - 1];
      BehindTitlesAreBodies(sections[..|sections| - 1], maxTokens, overlap);
      PiecesAddTitleAndBody(last, maxTokens, overlap);
      assert Behind(TitleWords(last) + Words(last.body), |TitleWords(last)|) == Words(last.body);
    }
  }

  // From lines to chunks: what the pieces add behind their heading lines is, word by word, what stands in the lines
  // that are not headings: nothing is lost, doubled, reordered or moved under another heading.
  lemma MarkdownWordsAreChunked(lines: seq<string>, maxTokens: int, overlap: int)
    ensures WordsBehindTitles(Extract(lines), maxTokens, overlap) == WordsUnderHeadings(lines)
    ensures forall s :: s in Extract(lines) ==> TitleWords(s) <= PieceWords(s, maxTokens, overlap)
  {
    BehindTitlesAreBodies(Extract(lines), maxTokens, overlap);
    ExtractKeepsWords(lines);
    forall s | s in Extract(lines) ensures TitleWords(s) <= PieceWords(s, maxTokens, overlap) {
      PiecesAddTitleAndBody(s, maxTokens, overlap);
    }
  }
}
