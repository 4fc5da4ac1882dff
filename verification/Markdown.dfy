/** Markdown extraction into heading-anchored sections (src/alvis/extract/markdown.py). The lines come from
    str.splitlines, which only cuts at whitespace. */
module Markdown {
  import opened Wrappers
  import opened Text
  import opened AutoChunk
  import opened SplitFacts

  // The number of leading '#' characters.
  function Hashes(line: string): (n: nat)
    ensures n <= |line| && forall i :: 0 <= i < n ==> line[i] == '#'
    ensures n < |line| ==> line[n] != '#'
  {
    if line == "" || line[0] != '#' then 0 else 1 + Hashes(line[1..])
  }

  // One to six '#' characters followed by a space.
  function HeadingLevel(line: string): Option<nat> {
    var hashes := Hashes(line);
    if 1 <= hashes <= 6 && |line| > hashes && line[hashes] == ' ' then Some(hashes) else None
  }

  // Exactly which lines are headings of a level.
  lemma HeadingLevelIff(line: string, level: nat)
    ensures HeadingLevel(line) == Some(level)
            <==> 1 <= level <= 6 && level < |line| && line[level] == ' '
                 && forall i :: 0 <= i < level ==> line[i] == '#'
  {
    if level < |line| && line[level] == ' ' && forall i :: 0 <= i < level ==> line[i] == '#' {
      assert !(level < Hashes(line)) && !(Hashes(line) < level);
    }
  }

  method HeadingLevelLoop(line: string) returns (level: Option<nat>)
    ensures level == HeadingLevel(line)
  {
    var hashes := 0;
    while hashes < |line| && line[hashes] == '#'
      invariant hashes <= |line| && forall i :: 0 <= i < hashes ==> line[i] == '#'
    {
      hashes := hashes + 1;
    }
    assert !(hashes < Hashes(line)) && !(Hashes(line) < hashes);
    level := if 1 <= hashes <= 6 && |line| > hashes && line[hashes] == ' ' then Some(hashes) else None;
  }

  predicate IsHeading(line: string) {
    HeadingLevel(Strip(line)).Some?
  }

  function TitleOf(line: string): string
    requires IsHeading(line)
  {
    Strip(Strip(line)[HeadingLevel(Strip(line)).value..])
  }

  // The sections finished so far, and the one being read.
  datatype Reading = Reading(sections: seq<Section>, heading: string, body: seq<string>)

  function Current(r: Reading): Section {
    Section(r.heading, Strip(Join(r.body, "\n")))
  }

  function Read(lines: seq<string>): Reading {
    if lines == [] then Reading([], "", [])
    else ReadLine(Read(lines[..|lines| - 1]), lines[|lines| - 1])
  }

  function ReadLine(r: Reading, line: string): Reading {
    if IsHeading(line) then
      Reading(if r.heading != "" || r.body != [] then r.sections + [Current(r)] else r.sections, TitleOf(line), [])
    else
      r.(body := r.body + [line])
  }

  function Extract(lines: seq<string>): (sections: seq<Section>)
    ensures sections != []
  {
    var r := Read(lines);
    r.sections + [Current(r)]
  }

  method ExtractLoop(lines: seq<string>) returns (sections: seq<Section>)
    ensures sections == Extract(lines)
  {
    sections := [];
    var currentHeading := "";
    var currentBody: seq<string> := [];
    for i := 0 to |lines|
      invariant Read(lines[..i]) == Reading(sections, currentHeading, currentBody)
    {
      assert lines[..i + 1][..i] == lines[..i];
      sections, currentHeading, currentBody := Step(sections, currentHeading, currentBody, lines[i]);
    }
    assert lines[..|lines|] == lines;
    sections := sections + [Section(currentHeading, Strip(Join(currentBody, "\n")))];
  }

  // One turn of the loop over the lines.
  method Step(sections: seq<Section>, heading: string, body: seq<string>, line: string)
    returns (sections': seq<Section>, heading': string, body': seq<string>)
    ensures Reading(sections', heading', body') == ReadLine(Reading(sections, heading, body), line)
  {
    sections', heading', body' := sections, heading, body;
    var stripped := Strip(line);
    var level := HeadingLevelLoop(stripped);
    if level.Some? {
      if heading != "" || body != [] {
        sections' := sections + [Section(heading, Strip(Join(body, "\n")))];
      }
      heading' := Strip(stripped[level.value..]);
      body' := [];
    } else {
      body' := body + [line];
    }
  }

  /* Every word keeps its nearest heading. */

  datatype Tagged = Tagged(word: string, heading: string)

  function Tag(words: seq<string>, heading: string): (tagged: seq<Tagged>)
    ensures |tagged| == |words| && forall i :: 0 <= i < |words| ==> tagged[i] == Tagged(words[i], heading)
  {
    seq(|words|, i requires 0 <= i < |words| => Tagged(words[i], heading))
  }

  // The title of the last heading line.
  function NearestHeading(lines: seq<string>): string {
    if lines == [] then ""
    else
      var last := lines[|lines| - 1];
      if IsHeading(last) then TitleOf(last) else NearestHeading(lines[..|lines| - 1])
  }

  // The words of the lines that are not headings, each with the heading it stands under.
  function WordsUnderHeadings(lines: seq<string>): seq<Tagged> {
    if lines == [] then []
    else
      var rest, last := lines[..|lines| - 1], lines[|lines| - 1];
      if IsHeading(last) then WordsUnderHeadings(rest)
      else WordsUnderHeadings(rest) + Tag(Words(last), NearestHeading(rest))
  }

  function WordsOfSections(sections: seq<Section>): seq<Tagged> {
    if sections == [] then []
    else
      var last := sections[|sections| - 1];
      WordsOfSections(sections[..|sections| - 1]) + Tag(Words(last.body), last.heading)
  }

  lemma {:induction false} WordsOfLines(lines: seq<string>)
    ensures Words(Join(lines, "\n")) == AllWords(lines)
  {
    if |lines| == 1 {
      assert AllWords(lines) == Words(lines[0]) + AllWords([]);
    } else if |lines| > 1 {
      WordsOfLines(lines[1..]);
      var rest := Join(lines[1..], "\n");
      assert Join(lines, "\n") == lines[0] + ("\n" + rest);
      WordsConcat(lines[0], "\n" + rest);
      assert ("\n" + rest)[1..] == rest;
    }
  }

  lemma CurrentWords(r: Reading)
    ensures Words(Current(r).body) == AllWords(r.body)
  {
    StripKeepsWords(Join(r.body, "\n"));
    WordsOfLines(r.body);
  }

  lemma SectionAppended(sections: seq<Section>, last: Section)
    ensures WordsOfSections(sections + [last]) == WordsOfSections(sections) + Tag(Words(last.body), last.heading)
  {
    assert (sections + [last])[..|sections|] == sections;
  }

  lemma TagConcat(a: seq<string>, b: seq<string>, heading: string)
    ensures Tag(a + b, heading) == Tag(a, heading) + Tag(b, heading)
  {
  }

  lemma HeadingKeepsWords(r: Reading)
    ensures WordsOfSections(if r.heading != "" || r.body != [] then r.sections + [Current(r)] else r.sections)
         == WordsOfSections(r.sections) + Tag(AllWords(r.body), r.heading)
  {
    if r.heading != "" || r.body != [] {
      CurrentWords(r);
      SectionAppended(r.sections, Current(r));
    } else {
      assert AllWords(r.body) == [];
      assert Tag([], r.heading) == [];
    }
  }

  lemma BodyKeepsWords(before: seq<Tagged>, body: seq<string>, heading: string, line: string)
    ensures before + Tag(AllWords(body + [line]), heading)
         == before + Tag(AllWords(body), heading) + Tag(Words(line), heading)
  {
    AllWordsConcat(body, [line]);
    assert AllWords([line]) == Words(line) + AllWords([]);
    TagConcat(AllWords(body), Words(line), heading);
    Associate(before, Tag(AllWords(body), heading), Tag(Words(line), heading));
  }

  lemma ReadLineKeepsWords(r: Reading, line: string)
    ensures var before, next := WordsOfSections(r.sections) + Tag(AllWords(r.body), r.heading), ReadLine(r, line);
            WordsOfSections(next.sections) + Tag(AllWords(next.body), next.heading)
            == if IsHeading(line) then before else before + Tag(Words(line), r.heading)
  {
    var next := ReadLine(r, line);
    if IsHeading(line) {
      HeadingKeepsWords(r);
      assert Tag(AllWords(next.body), next.heading) == [];
    } else {
      BodyKeepsWords(WordsOfSections(r.sections), r.body, r.heading, line);
    }
  }

  lemma {:induction false} ReadKeepsWords(lines: seq<string>)
    ensures var r := Read(lines);
            && r.heading == NearestHeading(lines)
            && WordsOfSections(r.sections) + Tag(AllWords(r.body), r.heading) == WordsUnderHeadings(lines)
  {
    if lines == [] {
    } else {
      var rest, last := lines[..|lines| - 1], lines[|lines| - 1];
      ReadKeepsWords(rest);
      ReadLineKeepsWords(Read(rest), last);
    }
  }

  // Extraction keeps every word of every line that is not a heading, in order, in a section under the
  // nearest heading before it.
  lemma ExtractKeepsWords(lines: seq<string>)
    ensures WordsOfSections(Extract(lines)) == WordsUnderHeadings(lines)
  {
    var r := Read(lines);
    ReadKeepsWords(lines);
    CurrentWords(r);
    SectionAppended(r.sections, Current(r));
  }

  /* What headings and bodies are, character by character. */

  lemma HashesThen(n: nat, rest: string)
    requires rest != "" && rest[0] != '#'
    ensures Hashes(Repeat('#', n) + rest) == n
  {
    var line := Repeat('#', n) + rest;
    assert line[n] == rest[0];
    assert !(Hashes(line) < n) && !(Hashes(line) > n);
  }

  // A line of one to six hashes, a space and a text, indented or not, is a heading unless the text is blank, and
  // its title is the text stripped.
  lemma HeadingIsRead(indent: string, n: nat, text: string)
    requires Blank(indent) && 1 <= n <= 6
    ensures var line := indent + (Repeat('#', n) + (" " + text));
            if Blank(text) then !IsHeading(line)
            else IsHeading(line) && HeadingLevel(Strip(line)) == Some(n) && TitleOf(line) == Strip(text)
  {
    var line, hashes := indent + (Repeat('#', n) + (" " + text)), Repeat('#', n);
    assert hashes != "" && hashes[0] == '#' && hashes[n - 1] == '#';
    if Blank(text) {
      StripIsCore(indent, hashes, " " + text);
      Associate(indent, hashes, " " + text);
      assert Strip(line) == hashes;
      assert !HeadingLevel(hashes).Some?;
    } else {
      TitleIsRead(indent, n, text);
    }
  }

  lemma TitleIsRead(indent: string, n: nat, text: string)
    requires Blank(indent) && 1 <= n <= 6 && !Blank(text)
    ensures var line := indent + (Repeat('#', n) + (" " + text));
            HeadingLevel(Strip(line)) == Some(n) && TitleOf(line) == Strip(text)
  {
    StripIsEmptyIffBlank(text);
    var before, title, after := CoreOf(text);
    TitleAround(indent, n, text, before, title, after);
  }

  lemma CoreOf(text: string) returns (before: string, core: string, after: string)
    requires Strip(text) != ""
    ensures core == Strip(text) && text == before + core + after && Blank(before) && Blank(after)
    ensures core != "" && !IsSpace(core[0]) && !IsSpace(core[|core| - 1])
  {
    core := Strip(text);
    StripEndsSolid(text);
    before, after := StripSplits(text);
  }

  lemma TitleAround(indent: string, n: nat, text: string, before: string, title: string, after: string)
    requires Blank(indent) && Blank(before) && Blank(after) && 1 <= n <= 6 && text == before + title + after
    requires title != "" && !IsSpace(title[0]) && !IsSpace(title[|title| - 1])
    ensures var line := indent + (Repeat('#', n) + (" " + text));
            HeadingLevel(Strip(line)) == Some(n) && TitleOf(line) == title
  {
    SplitLine(indent, Repeat('#', n), before, title, after);
    TitleBetween(indent, n, before, title, after);
  }

  lemma TitleBetween(indent: string, n: nat, before: string, title: string, after: string)
    requires Blank(indent) && Blank(before) && Blank(after) && 1 <= n <= 6
    requires title != "" && !IsSpace(title[0]) && !IsSpace(title[|title| - 1])
    ensures var line := indent + (Repeat('#', n) + (" " + (before + title))) + after;
            HeadingLevel(Strip(line)) == Some(n) && TitleOf(line) == title
  {
    var hashes := Repeat('#', n);
    var core := hashes + (" " + (before + title));
    assert hashes[0] == '#';
    StrippedLine(indent, hashes, before, title, after);
    HashesThen(n, " " + (before + title));
    TitleOfCore(hashes, before, title);
    TitleByLevel(indent + core + after, core, n);
  }

  lemma TitleByLevel(line: string, core: string, n: nat)
    requires Strip(line) == core && 1 <= n <= 6 && Hashes(core) == n < |core| && core[n] == ' '
    ensures HeadingLevel(Strip(line)) == Some(n) && TitleOf(line) == Strip(core[n..])
  {
  }

  lemma StrippedLine(indent: string, hashes: string, before: string, title: string, after: string)
    requires Blank(indent) && Blank(after) && hashes != "" && !IsSpace(hashes[0])
    requires title != "" && !IsSpace(title[|title| - 1])
    ensures Strip(indent + (hashes + (" " + (before + title))) + after) == hashes + (" " + (before + title))
  {
    var core := hashes + (" " + (before + title));
    assert core[0] == hashes[0] && core[|core| - 1] == title[|title| - 1];
    StripIsCore(indent, core, after);
  }

  lemma SplitLine(indent: string, hashes: string, before: string, title: string, after: string)
    ensures indent + (hashes + (" " + (before + title + after)))
         == indent + (hashes + (" " + (before + title))) + after
  {
  }

  lemma TitleOfCore(hashes: string, before: string, title: string)
    requires Blank(before) && title != "" && !IsSpace(title[0]) && !IsSpace(title[|title| - 1])
    ensures Strip((hashes + (" " + (before + title)))[|hashes|..]) == title
  {
    StripIsCore(" " + before, title, "");
    assert (hashes + (" " + (before + title)))[|hashes|..] == " " + before + title + "";
  }

  predicate NoHeading(lines: seq<string>) {
    forall i :: 0 <= i < |lines| ==> !IsHeading(lines[i])
  }

  lemma ReadMore(lines: seq<string>, line: string)
    ensures Read(lines + [line]) == ReadLine(Read(lines), line)
  {
    assert (lines + [line])[..|lines|] == lines;
  }

  lemma ReadLastLine(before: seq<string>, body: seq<string>)
    requires body != [] && !IsHeading(body[|body| - 1])
    requires var rest := body[..|body| - 1];
             Read(before + rest) == Read(before).(body := Read(before).body + rest)
    ensures Read(before + body) == Read(before).(body := Read(before).body + body)
  {
    var rest, last := body[..|body| - 1], body[|body| - 1];
    ReadMore(before + rest, last);
    SplitLast(before, body);
    SplitLast(Read(before).body, body);
  }

  lemma SplitLast(before: seq<string>, body: seq<string>)
    requires body != []
    ensures before + body[..|body| - 1] + [body[|body| - 1]] == before + body
  {
  }

  lemma {:induction false} ReadBody(before: seq<string>, body: seq<string>)
    requires NoHeading(body)
    ensures Read(before + body) == Read(before).(body := Read(before).body + body)
  {
    if body == [] {
      assert before + body == before;
      assert Read(before).body + body == Read(before).body;
    } else {
      ReadBody(before, body[..|body| - 1]);
      ReadLastLine(before, body);
    }
  }

  // Titles are not empty, so after any line at all there is a section being read.
  lemma {:induction false} SomethingIsRead(lines: seq<string>)
    requires lines != []
    ensures Read(lines).heading != "" || Read(lines).body != []
  {
    var last := lines[|lines| - 1];
    if IsHeading(last) {
      TitleIsNotEmpty(last);
    }
  }

  lemma TitleIsNotEmpty(line: string)
    requires IsHeading(line)
    ensures TitleOf(line) != ""
  {
    var core := Strip(line);
    if core != "" {
      StripEndsSolid(line);
    }
    EndIsNotBlank(core, HeadingLevel(core).value);
  }

  lemma EndIsNotBlank(s: string, n: nat)
    requires n < |s| && !IsSpace(s[|s| - 1])
    ensures Strip(s[n..]) != ""
  {
    assert s[n..][|s[n..]| - 1] == s[|s| - 1];
    StripIsEmptyIffBlank(s[n..]);
  }

  // The sections of a text, exactly: a heading line and the lines up to the next one make one section more, its
  // body those lines with their line breaks, stripped as a whole.
  lemma ExtractSectionBySection(before: seq<string>, heading: string, body: seq<string>)
    requires IsHeading(heading) && NoHeading(body)
    ensures Extract(before + [heading] + body)
         == (if before == [] then [] else Extract(before)) + [Section(TitleOf(heading), Strip(Join(body, "\n")))]
  {
    ReadBody(before + [heading], body);
    ReadMore(before, heading);
    assert [] + body == body;
    HeadingClosesSection(before, heading);
  }

  // A heading line finishes the section being read, if any line has been read at all.
  lemma HeadingClosesSection(before: seq<string>, heading: string)
    requires IsHeading(heading)
    ensures ReadLine(Read(before), heading)
         == Reading(if before == [] then [] else Extract(before), TitleOf(heading), [])
  {
    if before != [] {
      SomethingIsRead(before);
    }
  }

  // Lines before any heading make one section without a title.
  lemma ExtractWithoutHeadings(body: seq<string>)
    requires NoHeading(body)
    ensures Extract(body) == [Section("", Strip(Join(body, "\n")))]
  {
    ReadBody([], body);
    assert [] + body == body;
    assert Read([]).body + body == body;
  }
}
