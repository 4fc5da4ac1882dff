/** When every chunk of a headed section starts with its heading line (src/alvis/chunk/sections.py): the exact
    condition for any heading, and its plain form for headings that do not end in whitespace. */
module Headings {
  import opened Text
  import opened AutoChunk
  import opened SplitFacts
  import opened Chunkers

  function JoinBreaks(paragraphs: seq<string>): string {
    Join(paragraphs, "\n\n")
  }

  // The first few paragraphs, joined, fit the budget and start with this line.
  predicate Opens(paragraphs: seq<string>, head: string, budget: int) {
    exists m :: 1 <= m <= |paragraphs| && OpensWith(paragraphs, head, budget, m)
  }

  predicate OpensWith(paragraphs: seq<string>, head: string, budget: int, m: nat)
    requires m <= |paragraphs|
  {
    head <= JoinBreaks(paragraphs[..m]) && |JoinBreaks(paragraphs[..m])| <= budget
  }

  lemma JoinBreaksFirst(parts: seq<string>)
    requires |parts| > 1
    ensures JoinBreaks(parts) == parts[0] + "\n\n" + JoinBreaks(parts[1..])
  {
  }

  lemma {:induction false} JoinBreaksSnoc(paragraphs: seq<string>, last: string)
    requires paragraphs != []
    ensures JoinBreaks(paragraphs + [last]) == JoinBreaks(paragraphs) + "\n\n" + last
  {
    JoinBreaksFirst(paragraphs + [last]);
    assert (paragraphs + [last])[1..] == paragraphs[1..] + [last];
    if |paragraphs| <= 1 {
    } else {
      JoinBreaksSnoc(paragraphs[1..], last);
      JoinBreaksFirst(paragraphs);
      var first, rest := paragraphs[0] + "\n\n", JoinBreaks(paragraphs[1..]);
      Associate(first, rest, "\n\n");
      Associate(first, rest + "\n\n", last);
    }
  }

  // A chunk being filled from nothing holds the first j paragraphs.
  predicate HoldsFirst(current: Cut, paragraphs: seq<string>, j: nat) {
    1 <= j <= |paragraphs| && current == Cut("", JoinBreaks(paragraphs[..j])) && current.added != ""
  }

  lemma HoldsOneMore(current: Cut, paragraphs: seq<string>, j: nat)
    requires HoldsFirst(current, paragraphs, j) && j < |paragraphs|
    ensures HoldsFirst(Extend(current, paragraphs[j]), paragraphs, j + 1)
    ensures |JoinBreaks(paragraphs[..j + 1])| == |TextOf(current)| + 2 + |paragraphs[j]|
  {
    assert paragraphs[..j + 1] == paragraphs[..j] + [paragraphs[j]];
    JoinBreaksSnoc(paragraphs[..j], paragraphs[j]);
  }

  // The first chunk is the first few paragraphs, as many as fit, joined.
  lemma {:induction false} FirstCutFills(paragraphs: seq<string>, budget: int, overlap: int, current: Cut, j: nat)
    returns (m: nat)
    requires HoldsFirst(current, paragraphs, j) && |TextOf(current)| <= budget
    ensures j <= m <= |paragraphs| && |JoinBreaks(paragraphs[..m])| <= budget
    ensures Pack(paragraphs[j..], budget, overlap, current) != []
    ensures TextOf(Pack(paragraphs[j..], budget, overlap, current)[0]) == JoinBreaks(paragraphs[..m])
    ensures m < |paragraphs| ==> |JoinBreaks(paragraphs[..m + 1])| > budget
    decreases |paragraphs| - j
  {
    m := j;
    if j == |paragraphs| {
    } else {
      HoldsOneMore(current, paragraphs, j);
      assert paragraphs[j..][1..] == paragraphs[j + 1..];
      if |TextOf(current)| + 2 + |paragraphs[j]| <= budget {
        m := FirstCutFills(paragraphs, budget, overlap, Extend(current, paragraphs[j]), j + 1);
      }
    }
  }

  lemma {:induction false} JoinBreaksGrows(paragraphs: seq<string>, i: nat, j: nat)
    requires i <= j <= |paragraphs|
    ensures JoinBreaks(paragraphs[..i]) <= JoinBreaks(paragraphs[..j])
  {
    if 0 < i < j {
      JoinBreaksGrows(paragraphs, i, j - 1);
      assert paragraphs[..j] == paragraphs[..j - 1] + [paragraphs[j - 1]];
      JoinBreaksSnoc(paragraphs[..j - 1], paragraphs[j - 1]);
    }
  }

  lemma PrefixOfPrefix(a: string, b: string, c: string)
    requires a <= b <= c
    ensures a <= c
  {
  }

  // The first paragraph of a headed section: it starts the heading line and is no longer.
  lemma FirstParagraph(s: Section)
    requires s.body != "" && s.heading != ""
    ensures Paragraphs(SectionText(s)) != [] && Paragraphs(SectionText(s))[0] != ""
    ensures Paragraphs(SectionText(s))[0] <= HeadingLine(s.heading)
  {
    var head, text := HeadingLine(s.heading), SectionText(s);
    assert text[|head|] == '\n' && text[|head| + 1] == '\n';
    assert text[0] == '#' && text[1] == ' ';
    var i := FindBreak(text);
    assert 0 < i <= |head|;
    assert !IsSpace(text[..i][0]) && !Blank(text[..i]);
    assert text[..i] == head[..i];
  }

  // The first chunk when the first paragraph is within the budget.
  lemma FirstChunkFills(paragraphs: seq<string>, budget: int, overlap: int) returns (m: nat)
    requires paragraphs != [] && 0 < |paragraphs[0]| <= budget
    ensures 1 <= m <= |paragraphs| && |JoinBreaks(paragraphs[..m])| <= budget
    ensures Pack(paragraphs, budget, overlap, NOTHING) != []
    ensures TextOf(Pack(paragraphs, budget, overlap, NOTHING)[0]) == JoinBreaks(paragraphs[..m])
    ensures m < |paragraphs| ==> |JoinBreaks(paragraphs[..m + 1])| > budget
  {
    var first := Cut("", paragraphs[0]);
    assert paragraphs[..1] == [paragraphs[0]];
    m := FirstCutFills(paragraphs, budget, overlap, first, 1);
    assert Pack(paragraphs, budget, overlap, NOTHING) == Pack(paragraphs[1..], budget, overlap, first);
  }

  // A line of several words does not start the first chunk when the first paragraph alone is too long.
  lemma LongStartBreaks(paragraphs: seq<string>, budget: int, overlap: int, head: string)
    requires paragraphs != [] && !Blank(paragraphs[0]) && |paragraphs[0]| > budget
    requires |head| >= |paragraphs[0]| && |head| > 1 && IsSpace(head[1])
    ensures Pack(paragraphs, budget, overlap, NOTHING) != []
    ensures !(head <= TextOf(Pack(paragraphs, budget, overlap, NOTHING)[0]))
  {
    var pieces := HardSplit(paragraphs[0], budget);
    HardSplitKeepsWords(paragraphs[0], budget);
    BlankIffNoWords(paragraphs[0]);
    assert pieces != [];
    assert Emit(NOTHING) + Uncarried(pieces) == Uncarried(pieces);
    assert Pack(paragraphs, budget, overlap, NOTHING)[0] == Cut("", pieces[0]);
    OneWordIsSolid(pieces[0]);
  }

  lemma OneWordIsSolid(word: string)
    ensures Words(word) == [word] ==> Solid(word)
  {
    if Words(word) == [word] {
      assert Solid(Words(word)[0]);
    }
  }

  lemma OpeningFits(paragraphs: seq<string>, head: string, budget: int)
    requires Opens(paragraphs, head, budget)
    ensures |paragraphs[0]| <= budget
  {
    var m :| 1 <= m <= |paragraphs| && OpensWith(paragraphs, head, budget, m);
    JoinBreaksGrows(paragraphs, 1, m);
    assert paragraphs[..1] == [paragraphs[0]];
  }

  // As many paragraphs as fit open with a line exactly when some do.
  lemma MostOpen(paragraphs: seq<string>, head: string, budget: int, n: nat)
    requires 1 <= n <= |paragraphs| && |JoinBreaks(paragraphs[..n])| <= budget
    requires n < |paragraphs| ==> |JoinBreaks(paragraphs[..n + 1])| > budget
    ensures Opens(paragraphs, head, budget) <==> head <= JoinBreaks(paragraphs[..n])
  {
    if m :| 1 <= m <= |paragraphs| && OpensWith(paragraphs, head, budget, m) {
      NoMoreFit(paragraphs, budget, n, m);
      JoinBreaksGrows(paragraphs, m, n);
      PrefixOfPrefix(head, JoinBreaks(paragraphs[..m]), JoinBreaks(paragraphs[..n]));
    }
    if head <= JoinBreaks(paragraphs[..n]) {
      assert OpensWith(paragraphs, head, budget, n);
    }
  }

  lemma NoMoreFit(paragraphs: seq<string>, budget: int, n: nat, m: nat)
    requires n <= |paragraphs| && m <= |paragraphs| && |JoinBreaks(paragraphs[..m])| <= budget
    requires n < |paragraphs| ==> |JoinBreaks(paragraphs[..n + 1])| > budget
    ensures m <= n
  {
    if m > n {
      JoinBreaksGrows(paragraphs, n + 1, m);
      assert false;
    }
  }

  // When the first chunk starts with a line that the first paragraph begins.
  lemma PackStartsIff(paragraphs: seq<string>, budget: int, overlap: int, head: string)
    requires paragraphs != [] && !Blank(paragraphs[0]) && paragraphs[0] <= head && |head| > 1 && IsSpace(head[1])
    ensures Pack(paragraphs, budget, overlap, NOTHING) != []
    ensures head <= TextOf(Pack(paragraphs, budget, overlap, NOTHING)[0]) <==> Opens(paragraphs, head, budget)
  {
    if |paragraphs[0]| > budget {
      LongStartBreaks(paragraphs, budget, overlap, head);
      assert !Opens(paragraphs, head, budget) by {
        if Opens(paragraphs, head, budget) {
          OpeningFits(paragraphs, head, budget);
        }
      }
    } else {
      var n := FirstChunkFills(paragraphs, budget, overlap);
      MostOpen(paragraphs, head, budget, n);
    }
  }

  lemma FirstChunkIsFirstCut(text: string, maxTokens: int, overlap: int)
    ensures Pack(Paragraphs(text), maxTokens * 4, overlap * 4, NOTHING) != [] ==>
              && |SplitText(text, maxTokens, overlap)| > 0
              && SplitText(text, maxTokens, overlap)[0]
                   == TextOf(Pack(Paragraphs(text), maxTokens * 4, overlap * 4, NOTHING)[0])
  {
    ChunksAreCuts(text, maxTokens, overlap);
  }

  lemma ParagraphsUnbroken(text: string)
    ensures AllUnbroken(Paragraphs(text)) && NoneBlank(Paragraphs(text))
  {
    SplitBreaksUnbroken(text);
    KeepTextUnbroken(SplitBreaks(text));
    KeepTextKeepsWords(SplitBreaks(text));
  }

  // When the first chunk starts with the heading line.
  lemma FirstChunkStartsIff(s: Section, maxTokens: int, overlap: int)
    requires s.body != "" && s.heading != ""
    ensures |SplitText(SectionText(s), maxTokens, overlap)| > 0
    ensures HeadingLine(s.heading) <= SplitText(SectionText(s), maxTokens, overlap)[0]
            <==> Opens(Paragraphs(SectionText(s)), HeadingLine(s.heading), maxTokens * 4)
  {
    FirstParagraph(s);
    ParagraphsUnbroken(SectionText(s));
    assert HeadingLine(s.heading)[1] == ' ';
    PackStartsIff(Paragraphs(SectionText(s)), maxTokens * 4, overlap * 4, HeadingLine(s.heading));
    FirstChunkIsFirstCut(SectionText(s), maxTokens, overlap);
  }

  // Every chunk of a headed section starts with `# heading` exactly when the paragraphs the section opens with
  // spell that line and fit the budget together. Blank parts inside a heading are dropped, so the line may not
  // be spelled at all.
  lemma ChunksStartWithHeadingIff(s: Section, maxTokens: int, overlap: int)
    requires s.heading != ""
    ensures (forall i :: 0 <= i < |SectionParts(s, maxTokens, overlap)| ==>
               StartsWith(SectionParts(s, maxTokens, overlap)[i], HeadingLine(s.heading)))
            <==> s.body == "" || Opens(Paragraphs(SectionText(s)), HeadingLine(s.heading), maxTokens * 4)
  {
    var parts, pieces := SectionParts(s, maxTokens, overlap), SplitText(SectionText(s), maxTokens, overlap);
    if s.body != "" {
      FirstChunkStartsIff(s, maxTokens, overlap);
      assert parts[0] == pieces[0];
      forall i | 0 < i < |parts| ensures StartsWith(parts[i], HeadingLine(s.heading)) {
        assert parts[i] == Continued(s, i, pieces[i]);
      }
    }
  }

  /* Headings without whitespace at their end, as the extractors that strip them make them. */

  // A part that a blank line ends: no break in it, nor across its end.
  predicate Closed(part: string) {
    FindBreak(part) == -1 && (part == "" || part[|part| - 1] != '\n')
  }

  predicate AllClosed(parts: seq<string>) {
    forall i :: 0 <= i < |parts| - 1 ==> Closed(parts[i])
  }

  lemma FirstBreak(part: string, rest: string)
    requires Closed(part)
    ensures FindBreak(part + "\n\n" + rest) == |part|
  {
    var text := part + "\n\n" + rest;
    assert text[|part|] == '\n' && text[|part| + 1] == '\n';
    forall j | 0 <= j < |part| ensures !(text[j] == '\n' && text[j + 1] == '\n') {
      if j + 1 < |part| {
        assert text[j] == part[j] && text[j + 1] == part[j + 1];
      } else {
        assert text[j] == part[|part| - 1];
      }
    }
  }

  lemma BreakIsClosed(text: string)
    requires FindBreak(text) >= 0
    ensures Closed(text[..FindBreak(text)]) && text == text[..FindBreak(text)] + "\n\n" + text[FindBreak(text) + 2..]
  {
    var i := FindBreak(text);
    var part := text[..i];
    forall j | 0 <= j < |part| - 1 ensures !(part[j] == '\n' && part[j + 1] == '\n') {
      assert part[j] == text[j] && part[j + 1] == text[j + 1];
    }
    assert part == "" || (part[i - 1] == text[i - 1] && text[i] == '\n');
  }

  lemma {:induction false} SplitBreaksFacts(text: string)
    ensures AllClosed(SplitBreaks(text)) && JoinBreaks(SplitBreaks(text)) == text
    decreases |text|
  {
    var i := FindBreak(text);
    if i < 0 {
    } else {
      BreakIsClosed(text);
      SplitBreaksFacts(text[i + 2..]);
      assert SplitBreaks(text)[1..] == SplitBreaks(text[i + 2..]);
    }
  }

  lemma SplitBreaksFirst(part: string, rest: string)
    requires Closed(part)
    ensures SplitBreaks(part + "\n\n" + rest) == [part] + SplitBreaks(rest)
  {
    var text := part + "\n\n" + rest;
    FirstBreak(part, rest);
    assert text[..|part|] == part && text[|part| + 2..] == rest;
  }

  // Cutting at blank lines distributes over a blank line that does not follow a line end.
  lemma {:induction false} SplitBreaksConcat(head: string, body: string)
    requires head == "" || head[|head| - 1] != '\n'
    ensures SplitBreaks(head + "\n\n" + body) == SplitBreaks(head) + SplitBreaks(body)
    decreases |head|
  {
    var i := FindBreak(head);
    if i < 0 {
      SplitBreaksFirst(head, body);
    } else {
      BreakIsClosed(head);
      BreakInTheMiddle(head[..i], head[i + 2..], body);
      SplitBreaksConcat(head[i + 2..], body);
      Associate([head[..i]], SplitBreaks(head[i + 2..]), SplitBreaks(body));
    }
  }

  lemma BreakInTheMiddle(part: string, rest: string, body: string)
    requires Closed(part)
    ensures SplitBreaks(part + "\n\n" + rest + "\n\n" + body) == [part] + SplitBreaks(rest + "\n\n" + body)
  {
    SplitBreaksFirst(part, rest + "\n\n" + body);
    assert part + "\n\n" + rest + "\n\n" + body == part + "\n\n" + (rest + "\n\n" + body);
  }

  lemma {:induction false} KeepTextConcat(a: seq<string>, b: seq<string>)
    ensures KeepText(a + b) == KeepText(a) + KeepText(b)
  {
    if a == [] {
      assert a + b == b;
    } else {
      KeepTextConcat(a[1..], b);
      assert (a + b)[1..] == a[1..] + b;
    }
  }

  lemma {:induction false} KeepTextStaysClosed(parts: seq<string>)
    requires AllClosed(parts)
    ensures AllClosed(KeepText(parts))
  {
    if |parts| <= 1 {
    } else {
      assert AllClosed(parts[1..]) by {
        assert forall i :: 0 <= i < |parts[1..]| - 1 ==> parts[1..][i] == parts[i + 1];
      }
      KeepTextStaysClosed(parts[1..]);
    }
  }

  lemma HeadedParagraphs(s: Section)
    requires s.body != "" && s.heading != "" && !IsSpace(s.heading[|s.heading| - 1])
    ensures Paragraphs(SectionText(s)) == KeepText(SplitBreaks(HeadingLine(s.heading))) + Paragraphs(s.body)
    ensures AllClosed(Paragraphs(SectionText(s)))
  {
    var head := HeadingLine(s.heading);
    assert head[|head| - 1] == s.heading[|s.heading| - 1];
    SplitBreaksConcat(head, s.body);
    KeepTextConcat(SplitBreaks(head), SplitBreaks(s.body));
    SplitBreaksFacts(SectionText(s));
    KeepTextStaysClosed(SplitBreaks(SectionText(s)));
  }

  // The first break of a text is that of every prefix that holds it.
  lemma SameFirstBreak(short: string, long: string)
    requires short <= long && FindBreak(short) >= 0
    ensures FindBreak(long) == FindBreak(short)
  {
    var i := FindBreak(short);
    assert long[i] == short[i] && long[i + 1] == short[i + 1];
    forall j | 0 <= j < i ensures !(long[j] == '\n' && long[j + 1] == '\n') {
      assert short[j] == long[j] && short[j + 1] == long[j + 1];
    }
  }

  predicate AllUnbroken(parts: seq<string>) {
    forall i :: 0 <= i < |parts| ==> FindBreak(parts[i]) == -1
  }

  predicate NoneBlank(parts: seq<string>) {
    forall i :: 0 <= i < |parts| ==> !Blank(parts[i])
  }

  // These paragraphs, joined, start with the joined parts of a line that does not end in a blank part.
  predicate Spells(kept: seq<string>, parts: seq<string>) {
    && parts != [] && !Blank(parts[|parts| - 1]) && AllClosed(parts)
    && kept != [] && AllClosed(kept) && AllUnbroken(kept) && NoneBlank(kept)
    && JoinBreaks(parts) <= JoinBreaks(kept)
  }

  lemma FirstParts(part: string, rest: string, other: string, more: string)
    requires Closed(part) && Closed(other)
    ensures part + "\n\n" + rest <= other + "\n\n" + more ==> part == other && rest <= more
  {
    var short, long, n := part + "\n\n" + rest, other + "\n\n" + more, |part|;
    if short <= long {
      FirstBreak(part, rest);
      FirstBreak(other, more);
      SameFirstBreak(short, long);
      assert part == short[..n] == long[..n] == other;
      assert rest == short[n + 2..] && more == long[n + 2..];
    }
  }

  lemma OnlyPartHasNoBreak(part: string, rest: string, other: string)
    requires Closed(part) && FindBreak(other) == -1
    ensures !(part + "\n\n" + rest <= other)
  {
    if part + "\n\n" + rest <= other {
      FirstBreak(part, rest);
      SameFirstBreak(part + "\n\n" + rest, other);
    }
  }

  lemma DropFirst(parts: seq<string>)
    ensures |parts| > 1 && AllClosed(parts) ==> Closed(parts[0]) && AllClosed(parts[1..])
    ensures parts != [] && AllUnbroken(parts) && NoneBlank(parts) ==> AllUnbroken(parts[1..]) && NoneBlank(parts[1..])
  {
  }

  // Both start with the same part, and the rest spells the rest.
  lemma SameFirstPart(kept: seq<string>, parts: seq<string>)
    ensures Spells(kept, parts) && |parts| > 1 ==> |kept| > 1 && kept[0] == parts[0] && Spells(kept[1..], parts[1..])
  {
    if Spells(kept, parts) && |parts| > 1 {
      DropFirst(parts);
      DropFirst(kept);
      JoinBreaksFirst(parts);
      if |kept| == 1 {
        OnlyPartHasNoBreak(parts[0], JoinBreaks(parts[1..]), kept[0]);
      } else {
        JoinBreaksFirst(kept);
        FirstParts(parts[0], JoinBreaks(parts[1..]), kept[0], JoinBreaks(kept[1..]));
      }
    }
  }

  // A heading is spelled by the paragraphs kept from its parts only when none of them is dropped.
  lemma {:induction false} SpelledKeepsAll(kept: seq<string>, parts: seq<string>)
    ensures Spells(kept, parts) ==> KeepText(parts) == parts
    decreases |parts|
  {
    if Spells(kept, parts) && |parts| > 1 {
      SameFirstPart(kept, parts);
      SpelledKeepsAll(kept[1..], parts[1..]);
    }
  }

  lemma {:induction false} SplitBreaksUnbroken(text: string)
    ensures AllUnbroken(SplitBreaks(text))
    decreases |text|
  {
    var i := FindBreak(text);
    if i < 0 {
    } else {
      BreakIsClosed(text);
      SplitBreaksUnbroken(text[i + 2..]);
    }
  }

  lemma {:induction false} KeepTextUnbroken(parts: seq<string>)
    requires AllUnbroken(parts)
    ensures AllUnbroken(KeepText(parts))
  {
    if parts == [] {
    } else {
      KeepTextUnbroken(parts[1..]);
    }
  }

  lemma {:induction false} LastPartEnds(text: string)
    requires text != "" && !IsSpace(text[|text| - 1])
    ensures !Blank(SplitBreaks(text)[|SplitBreaks(text)| - 1])
    decreases |text|
  {
    var i := FindBreak(text);
    if i < 0 {
    } else {
      var rest := text[i + 2..];
      assert i + 1 < |text| - 1 && rest[|rest| - 1] == text[|text| - 1];
      LastPartEnds(rest);
      assert SplitBreaks(text)[1..] == SplitBreaks(rest);
    }
  }

  lemma StrippedOpens(s: Section, budget: int)
    requires s.body != "" && s.heading != "" && !IsSpace(s.heading[|s.heading| - 1])
    ensures Opens(Paragraphs(SectionText(s)), HeadingLine(s.heading), budget) ==>
              && |HeadingLine(s.heading)| <= budget
              && KeepText(SplitBreaks(HeadingLine(s.heading))) == SplitBreaks(HeadingLine(s.heading))
  {
    var head, paragraphs := HeadingLine(s.heading), Paragraphs(SectionText(s));
    if m :| 1 <= m <= |paragraphs| && OpensWith(paragraphs, head, budget, m) {
      HeadedParagraphs(s);
      assert head[|head| - 1] == s.heading[|s.heading| - 1];
      ParagraphsUnbroken(SectionText(s));
      SplitBreaksFacts(head);
      LastPartEnds(head);
      assert Spells(paragraphs[..m], SplitBreaks(head));
      SpelledKeepsAll(paragraphs[..m], SplitBreaks(head));
    }
  }

  // For a heading that does not end in whitespace: exactly when its line fits the budget and no blank line
  // inside it is dropped.
  lemma StrippedHeadingStartsIff(s: Section, maxTokens: int, overlap: int)
    requires s.body != "" && s.heading != "" && !IsSpace(s.heading[|s.heading| - 1])
    ensures (forall i :: 0 <= i < |SectionParts(s, maxTokens, overlap)| ==>
               StartsWith(SectionParts(s, maxTokens, overlap)[i], HeadingLine(s.heading)))
            <==> |HeadingLine(s.heading)| <= maxTokens * 4
                 && KeepText(SplitBreaks(HeadingLine(s.heading))) == SplitBreaks(HeadingLine(s.heading))
  {
    var head, paragraphs := HeadingLine(s.heading), Paragraphs(SectionText(s));
    ChunksStartWithHeadingIff(s, maxTokens, overlap);
    StrippedOpens(s, maxTokens * 4);
    if |head| <= maxTokens * 4 && KeepText(SplitBreaks(head)) == SplitBreaks(head) {
      HeadedParagraphs(s);
      SplitBreaksFacts(head);
      var m := |SplitBreaks(head)|;
      assert paragraphs[..m] == SplitBreaks(head);
      assert OpensWith(paragraphs, head, maxTokens * 4, m);
    }
  }

  // A heading with an empty paragraph in it, as an HTML heading can have.
  function BrokenHeading(a: string, b: string): string {
    a + "\n\n" + ("" + "\n\n" + b)
  }

  lemma BrokenHeadingParts(a: string, b: string)
    requires Closed(HeadingLine(a))
    ensures SplitBreaks(HeadingLine(BrokenHeading(a, b))) == [HeadingLine(a)] + ([""] + SplitBreaks(b))
  {
    assert HeadingLine(BrokenHeading(a, b)) == HeadingLine(a) + "\n\n" + ("" + "\n\n" + b);
    SplitBreaksFirst(HeadingLine(a), "" + "\n\n" + b);
    SplitBreaksFirst("", b);
  }

  // Such a heading is never kept, however much room there is: some chunk does not start with its line. "A" and
  // "B" make one of eight characters.
  lemma BrokenHeadingWitness(a: string, b: string, body: string, maxTokens: int, overlap: int)
    requires Closed(HeadingLine(a)) && b != "" && !IsSpace(b[|b| - 1]) && body != ""
    ensures var s := Section(BrokenHeading(a, b), body);
            exists i :: 0 <= i < |SectionParts(s, maxTokens, overlap)|
                        && !StartsWith(SectionParts(s, maxTokens, overlap)[i], HeadingLine(s.heading))
  {
    var parts := SplitBreaks(HeadingLine(BrokenHeading(a, b)));
    BrokenHeadingParts(a, b);
    KeepTextKeepsWords(parts);
    assert Blank(parts[1]);
    assert BrokenHeading(a, b)[|BrokenHeading(a, b)| - 1] == b[|b| - 1];
    StrippedHeadingStartsIff(Section(BrokenHeading(a, b), body), maxTokens, overlap);
  }

  lemma ShortBrokenHeading()
    ensures Closed(HeadingLine("A")) && |HeadingLine(BrokenHeading("A", "B"))| == 8
  {
    assert HeadingLine("A") == ['#', ' ', 'A'];
    assert HeadingLine("A")[1..] == [' ', 'A'] && HeadingLine("A")[1..][1..] == ['A'];
    assert FindBreak(['A']) == -1;
  }
}
