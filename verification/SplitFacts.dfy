/** What paragraph packing promises: every word kept in order, carried text repeated and nothing else,
    and a size bound that holds exactly when some overlap is asked for. */
module SplitFacts {
  import opened Text
  import opened AutoChunk

  lemma StripIsEmptyIffBlank(s: string)
    ensures Strip(s) == "" <==> Blank(s)
  {
    StripKeepsWords(s);
    BlankIffNoWords(s);
    BlankIffNoWords(Strip(s));
  }

  function Added(cuts: seq<Cut>): (texts: seq<string>)
    ensures |texts| == |cuts|
  {
    seq(|cuts|, i requires 0 <= i < |cuts| => cuts[i].added)
  }

  lemma {:induction false} AllWordsConcat(a: seq<string>, b: seq<string>)
    ensures AllWords(a + b) == AllWords(a) + AllWords(b)
  {
    if a == [] {
      assert a + b == b;
    } else {
      AllWordsConcat(a[1..], b);
      assert (a + b)[1..] == a[1..] + b;
      Associate(Words(a[0]), AllWords(a[1..]), AllWords(b));
    }
  }

  // Text glued together by a blank line keeps its words apart.
  lemma WordsAcrossBreak(a: string, b: string)
    ensures Words(a + "\n\n" + b) == Words(a) + Words(b)
  {
    assert a + "\n\n" + b == a + ("\n\n" + b);
    WordsConcat(a, "\n\n" + b);
    WordsAfterSpace("\n\n" + b);
    WordsAfterSpace("\n" + b);
    assert ("\n\n" + b)[1..] == "\n" + b && ("\n" + b)[1..] == b;
  }

  lemma {:induction false} SplitBreaksKeepsWords(text: string)
    ensures AllWords(SplitBreaks(text)) == Words(text)
    decreases |text|
  {
    var i := FindBreak(text);
    if i < 0 {
    } else {
      SplitBreaksKeepsWords(text[i + 2..]);
      WordsAcrossBreak(text[..i], text[i + 2..]);
      assert text == text[..i] + "\n\n" + text[i + 2..];
    }
  }

  lemma {:induction false} KeepTextKeepsWords(parts: seq<string>)
    ensures AllWords(KeepText(parts)) == AllWords(parts)
    ensures forall i :: 0 <= i < |KeepText(parts)| ==> !Blank(KeepText(parts)[i])
  {
    if parts == [] {
    } else {
      KeepTextKeepsWords(parts[1..]);
      BlankIffNoWords(parts[0]);
    }
  }

  lemma ParagraphsKeepWords(text: string)
    ensures AllWords(Paragraphs(text)) == Words(text)
    ensures forall i :: 0 <= i < |Paragraphs(text)| ==> !Blank(Paragraphs(text)[i])
  {
    SplitBreaksKeepsWords(text);
    KeepTextKeepsWords(SplitBreaks(text));
  }

  lemma AddedConcat(a: seq<Cut>, b: seq<Cut>)
    ensures AllWords(Added(a + b)) == AllWords(Added(a)) + AllWords(Added(b))
  {
    assert Added(a + b) == Added(a) + Added(b);
    AllWordsConcat(Added(a), Added(b));
  }

  lemma AddedByEmit(current: Cut)
    ensures AllWords(Added(Emit(current))) == Words(current.added)
  {
    if TextOf(current) != "" {
      assert Added([current]) == [current.added];
      assert AllWords([current.added]) == Words(current.added) + AllWords([]);
    }
  }

  lemma AddedByHardSplit(paragraph: string, budget: int)
    ensures AllWords(Added(Uncarried(HardSplit(paragraph, budget)))) == Words(paragraph)
  {
    HardSplitKeepsWords(paragraph, budget);
    assert Added(Uncarried(HardSplit(paragraph, budget))) == HardSplit(paragraph, budget);
  }

  // What the chunks add, in order, is every word of the paragraphs.
  lemma {:induction false} PackKeepsWords(paragraphs: seq<string>, budget: int, overlap: int, current: Cut)
    ensures AllWords(Added(Pack(paragraphs, budget, overlap, current))) == Words(current.added) + AllWords(paragraphs)
    decreases |paragraphs|
  {
    AddedByEmit(current);
    if paragraphs == [] {
    } else {
      var paragraph, rest := paragraphs[0], paragraphs[1..];
      Associate(Words(current.added), Words(paragraph), AllWords(rest));
      if |paragraph| > budget {
        PackKeepsWords(rest, budget, overlap, NOTHING);
        AddedByHardSplit(paragraph, budget);
        var pieces, after := Uncarried(HardSplit(paragraph, budget)), Pack(rest, budget, overlap, NOTHING);
        AddedConcat(Emit(current) + pieces, after);
        AddedConcat(Emit(current), pieces);
        assert Words("") == [] && [] + AllWords(rest) == AllWords(rest);
      } else if TextOf(current) != "" && |TextOf(current)| + 2 + |paragraph| > budget {
        var next := Cut(Tail(TextOf(current), overlap), paragraph);
        PackKeepsWords(rest, budget, overlap, next);
        AddedConcat([current], Pack(rest, budget, overlap, next));
      } else {
        ExtendKeepsWords(current, paragraph);
        PackKeepsWords(rest, budget, overlap, Extend(current, paragraph));
      }
    }
  }

  lemma ExtendKeepsWords(current: Cut, paragraph: string)
    ensures Words(Extend(current, paragraph).added) == Words(current.added) + Words(paragraph)
  {
    WordsAcrossBreak(current.added, paragraph);
  }

  predicate IsSuffix(s: string, text: string) {
    |s| <= |text| && text[|text| - |s|..] == s
  }

  lemma SuffixOfSuffix(s: string, middle: string, text: string)
    requires IsSuffix(s, middle) && IsSuffix(middle, text)
    ensures IsSuffix(s, text)
  {
    assert middle[|middle| - |s|..] == text[|text| - |s|..];
  }

  lemma FromFacts(text: string, i: int)
    ensures IsSuffix(From(text, i), text)
    ensures i < 0 ==> |From(text, i)| <= -i
  {
  }

  lemma DropIsSuffix(s: string, k: nat)
    requires k <= |s|
    ensures IsSuffix(s[k..], s)
  {
  }

  lemma LStripIsSuffix(s: string)
    ensures IsSuffix(LStrip(s), s)
  {
    var before := LeadingBlanks(s);
    assert s[|before|..] == LStrip(s);
  }

  lemma WordCutFacts(window: string, boundary: nat)
    requires boundary <= |window|
    ensures IsSuffix(LStrip(window[boundary..]), window)
  {
    DropIsSuffix(window, boundary);
    LStripIsSuffix(window[boundary..]);
    SuffixOfSuffix(LStrip(window[boundary..]), window[boundary..], window);
  }

  // The window a tail is taken from: the end of the text, no longer than a positive budget.
  lemma WindowIsSuffix(text: string, chars: int)
    requires |text| > chars
    ensures IsSuffix(LStrip(From(text, -chars)), text)
    ensures chars >= 1 ==> |LStrip(From(text, -chars))| <= chars
  {
    FromFacts(text, -chars);
    LStripIsSuffix(From(text, -chars));
    SuffixOfSuffix(LStrip(From(text, -chars)), From(text, -chars), text);
  }

  // What is carried over is always the end of the chunk before, and with a positive budget no longer than it.
  lemma TailFacts(text: string, chars: int)
    ensures IsSuffix(Tail(text, chars), text)
    ensures chars >= 1 ==> |Tail(text, chars)| <= chars
  {
    if |text| > chars {
      var window := LStrip(From(text, -chars));
      WindowIsSuffix(text, chars);
      if Find(window, ' ') > 0 {
        WordCutFacts(window, Find(window, ' '));
        SuffixOfSuffix(Tail(text, chars), window, text);
      }
    }
  }

  lemma WordsAfterGap(before: string, gap: string, tail: string)
    requires gap != "" && IsSpace(gap[|gap| - 1])
    ensures Words(before + (gap + tail)) == Words(before + gap) + Words(tail)
  {
    Associate(before, gap, tail);
    WordsConcat(before + gap, tail);
  }

  // Stripping what follows a text at a space leaves a tail that starts at a word.
  lemma DropToWord(before: string, rest: string) returns (head: string)
    requires rest != "" && IsSpace(rest[0])
    ensures before + rest == head + LStrip(rest)
    ensures Words(before + rest) == Words(head) + Words(LStrip(rest))
  {
    var gap := LeadingBlanks(rest);
    head := before + gap;
    Associate(before, gap, LStrip(rest));
    WordsAfterGap(before, gap, LStrip(rest));
  }

  lemma WordsFromSpace(window: string, boundary: nat)
    requires boundary < |window| && window[boundary] == ' '
    ensures Words(window) == Words(window[..boundary]) + Words(LStrip(window[boundary..]))
  {
    assert window == window[..boundary] + window[boundary..];
    WordsConcat(window[..boundary], window[boundary..]);
    LStripKeepsWords(window[boundary..]);
  }

  lemma SuffixSplits(s: string, text: string) returns (before: string)
    requires IsSuffix(s, text)
    ensures text == before + s
  {
    before := text[..|text| - |s|];
  }

  // What stands after the first space of a suffix, stripped, starts at a word.
  lemma AfterFirstSpace(text: string, window: string, boundary: nat) returns (head: string)
    requires IsSuffix(window, text) && boundary < |window| && window[boundary] == ' '
    ensures text == head + LStrip(window[boundary..])
    ensures Words(text) == Words(head) + Words(LStrip(window[boundary..]))
  {
    var rest := window[boundary..];
    DropIsSuffix(window, boundary);
    SuffixOfSuffix(rest, window, text);
    var before := SuffixSplits(rest, text);
    head := DropToWord(before, rest);
  }

  // The end of a text that its tail is cut from.
  function Window(text: string, chars: int): string {
    LStrip(From(text, -chars))
  }

  // The carried tail is the end of the window without what stands before its first space, so it starts at a
  // word of the chunk; a window without a space is carried whole.
  lemma TailStartsAtWord(text: string, chars: int) returns (head: string)
    requires |text| > chars
    ensures var window, tail := Window(text, chars), Tail(text, chars);
            if ' ' in window then
              && Words(window) == Words(window[..Find(window, ' ')]) + Words(tail)
              && text == head + tail && Words(text) == Words(head) + Words(tail)
            else tail == window
  {
    var window := Window(text, chars);
    head := "";
    if ' ' in window {
      WindowIsSuffix(text, chars);
      head := AfterFirstSpace(text, window, Find(window, ' '));
      WordsFromSpace(window, Find(window, ' '));
    }
  }

  // Each chunk starts with nothing or with the tail of the chunk before it.
  predicate Chained(cuts: seq<Cut>, overlap: int) {
    forall i :: 1 <= i < |cuts| ==> cuts[i].carried == "" || cuts[i].carried == Tail(TextOf(cuts[i - 1]), overlap)
  }

  predicate AllHaveText(cuts: seq<Cut>) {
    forall i :: 0 <= i < |cuts| ==> !Blank(cuts[i].added)
  }

  lemma ChainedConcat(a: seq<Cut>, b: seq<Cut>, overlap: int)
    requires Chained(a, overlap) && Chained(b, overlap) && (b != [] ==> b[0].carried == "")
    ensures Chained(a + b, overlap)
  {
  }

  lemma ExtendHasText(current: Cut, paragraph: string)
    requires !Blank(paragraph)
    ensures !Blank(Extend(current, paragraph).added)
  {
    ExtendKeepsWords(current, paragraph);
    BlankIffNoWords(paragraph);
    BlankIffNoWords(Extend(current, paragraph).added);
  }

  lemma HardSplitHasText(paragraph: string, budget: int)
    ensures AllHaveText(Uncarried(HardSplit(paragraph, budget)))
  {
    var groups := Fill(Words(paragraph), budget, []);
    FillFits(Words(paragraph), budget, []);
    FillSolid(Words(paragraph), budget, []);
    forall i | 0 <= i < |groups| ensures !Blank(Join(groups[i], " ")) {
      WordsOfJoin(groups[i]);
      BlankIffNoWords(Join(groups[i], " "));
    }
  }

  // What packing promises about its chunks, next to each other and one by one.
  predicate ChainedFrom(cuts: seq<Cut>, overlap: int, carried: string) {
    Chained(cuts, overlap) && AllHaveText(cuts) && (cuts != [] ==> cuts[0].carried == carried)
  }

  lemma EmitChains(current: Cut, overlap: int)
    requires current == NOTHING || !Blank(current.added)
    ensures ChainedFrom(Emit(current), overlap, current.carried)
  {
  }

  // An oversized paragraph between a finished chunk and the rest.
  lemma PiecesChain(current: Cut, paragraph: string, after: seq<Cut>, budget: int, overlap: int)
    requires current == NOTHING || !Blank(current.added)
    requires ChainedFrom(after, overlap, "")
    ensures ChainedFrom(Emit(current) + Uncarried(HardSplit(paragraph, budget)) + after, overlap, current.carried)
  {
    var pieces := Uncarried(HardSplit(paragraph, budget));
    EmitChains(current, overlap);
    HardSplitHasText(paragraph, budget);
    ChainedConcat(Emit(current), pieces, overlap);
    ChainedConcat(Emit(current) + pieces, after, overlap);
  }

  lemma {:induction false} PackChains(paragraphs: seq<string>, budget: int, overlap: int, current: Cut)
    requires forall i :: 0 <= i < |paragraphs| ==> !Blank(paragraphs[i])
    requires current == NOTHING || !Blank(current.added)
    ensures ChainedFrom(Pack(paragraphs, budget, overlap, current), overlap, current.carried)
    decreases |paragraphs|
  {
    if paragraphs == [] {
      EmitChains(current, overlap);
    } else {
      var paragraph, rest := paragraphs[0], paragraphs[1..];
      if |paragraph| > budget {
        PackChains(rest, budget, overlap, NOTHING);
        PiecesChain(current, paragraph, Pack(rest, budget, overlap, NOTHING), budget, overlap);
      } else if TextOf(current) != "" && |TextOf(current)| + 2 + |paragraph| > budget {
        PackChains(rest, budget, overlap, Cut(Tail(TextOf(current), overlap), paragraph));
      } else {
        ExtendHasText(current, paragraph);
        PackChains(rest, budget, overlap, Extend(current, paragraph));
      }
    }
  }

  lemma WordsOfCut(c: Cut)
    ensures Words(TextOf(c)) == Words(c.carried) + Words(c.added)
  {
    if c.carried == "" {
      assert [] + Words(c.added) == Words(c.added);
    } else {
      WordsAcrossBreak(c.carried, c.added);
    }
  }

  lemma {:induction false} NothingToFilter(parts: seq<string>)
    requires forall i :: 0 <= i < |parts| ==> !Blank(parts[i])
    ensures KeepText(parts) == parts
  {
    if parts == [] {
    } else {
      NothingToFilter(parts[1..]);
    }
  }

  // The final filter drops nothing.
  lemma ChunksAreCuts(text: string, maxTokens: int, overlap: int)
    ensures SplitText(text, maxTokens, overlap) == Texts(Cuts(text, maxTokens, overlap))
    ensures Chained(Cuts(text, maxTokens, overlap), overlap * 4)
    ensures Cuts(text, maxTokens, overlap) != [] ==> Cuts(text, maxTokens, overlap)[0].carried == ""
  {
    var cuts := Cuts(text, maxTokens, overlap);
    ParagraphsKeepWords(text);
    PackChains(Paragraphs(text), maxTokens * 4, overlap * 4, NOTHING);
    forall i | 0 <= i < |cuts| ensures !Blank(TextOf(cuts[i])) {
      WordsOfCut(cuts[i]);
      BlankIffNoWords(cuts[i].added);
      BlankIffNoWords(TextOf(cuts[i]));
    }
    NothingToFilter(Texts(cuts));
  }

  lemma WordsOfCuts(cuts: seq<Cut>)
    ensures forall i :: 0 <= i < |cuts| ==> Words(TextOf(cuts[i])) == Words(cuts[i].carried) + Words(cuts[i].added)
  {
    forall i | 0 <= i < |cuts| ensures Words(TextOf(cuts[i])) == Words(cuts[i].carried) + Words(cuts[i].added) {
      WordsOfCut(cuts[i]);
    }
  }

  lemma CarriedAreSuffixes(cuts: seq<Cut>, overlap: int)
    requires Chained(cuts, overlap)
    ensures forall i :: 1 <= i < |cuts| ==> IsSuffix(cuts[i].carried, TextOf(cuts[i - 1]))
  {
    forall i | 1 <= i < |cuts| ensures IsSuffix(cuts[i].carried, TextOf(cuts[i - 1])) {
      TailFacts(TextOf(cuts[i - 1]), overlap);
    }
  }

  // One of the runs of words an oversized paragraph is cut into.
  predicate IsPiece(paragraphs: seq<string>, budget: int, c: Cut) {
    && c.carried == ""
    && exists k :: 0 <= k < |paragraphs| && |paragraphs[k]| > budget && c.added in HardSplit(paragraphs[k], budget)
  }

  // The chunk carries the tail of the one before, which was closed only because the next paragraph did not fit.
  predicate Continues(before: Cut, c: Cut, budget: int, overlap: int) {
    c.carried == Tail(TextOf(before), overlap) && |TextOf(before)| + 2 + |c.added| > budget
  }

  // Each element stands in this relation to the one before it.
  predicate Linked<T>(xs: seq<T>, link: (T, T) -> bool) {
    forall i :: 1 <= i < |xs| ==> link(xs[i - 1], xs[i])
  }

  lemma LinkedConcat<T>(a: seq<T>, b: seq<T>, link: (T, T) -> bool)
    requires Linked(a, link) && Linked(b, link)
    requires a != [] && b != [] ==> link(a[|a| - 1], b[0])
    ensures Linked(a + b, link)
  {
    forall i | 1 <= i < |a + b| ensures link((a + b)[i - 1], (a + b)[i]) {
      if i > |a| {
        assert (a + b)[i - 1] == b[i - 1 - |a|] && (a + b)[i] == b[i - |a|];
      }
    }
  }

  // Chunks that stand next to each other: a piece of an oversized paragraph is among them, or the second
  // continues the first.
  function Adjoins(paragraphs: seq<string>, budget: int, overlap: int): (Cut, Cut) -> bool {
    (before: Cut, c: Cut) =>
      IsPiece(paragraphs, budget, before) || IsPiece(paragraphs, budget, c) || Continues(before, c, budget, overlap)
  }

  predicate FullAndCarried(cuts: seq<Cut>, paragraphs: seq<string>, budget: int, overlap: int) {
    Linked(cuts, Adjoins(paragraphs, budget, overlap))
  }

  predicate AllPieces(cuts: seq<Cut>, paragraphs: seq<string>, budget: int) {
    forall i :: 0 <= i < |cuts| ==> IsPiece(paragraphs, budget, cuts[i])
  }

  lemma PiecesBetween(a: seq<Cut>, pieces: seq<Cut>, b: seq<Cut>, paragraphs: seq<string>, budget: int, overlap: int)
    requires |a| <= 1 && pieces != [] && AllPieces(pieces, paragraphs, budget)
    requires FullAndCarried(b, paragraphs, budget, overlap)
    ensures FullAndCarried(a + pieces + b, paragraphs, budget, overlap)
  {
    var link := Adjoins(paragraphs, budget, overlap);
    LinkedConcat(a, pieces, link);
    assert (a + pieces)[|a + pieces| - 1] == pieces[|pieces| - 1];
    LinkedConcat(a + pieces, b, link);
  }

  lemma ParagraphPieces(paragraphs: seq<string>, budget: int, k: nat)
    requires k < |paragraphs| && |paragraphs[k]| > budget && !Blank(paragraphs[k])
    ensures var pieces := Uncarried(HardSplit(paragraphs[k], budget));
            pieces != [] && AllPieces(pieces, paragraphs, budget)
  {
    var split := HardSplit(paragraphs[k], budget);
    HardSplitKeepsWords(paragraphs[k], budget);
    BlankIffNoWords(paragraphs[k]);
    assert AllWords([]) == [];
    forall i | 0 <= i < |split| ensures IsPiece(paragraphs, budget, Uncarried(split)[i]) {
      assert split[i] in split;
    }
  }

  // The first chunk to come out holds at least what is being filled.
  predicate StartsFrom(cuts: seq<Cut>, current: Cut) {
    current != NOTHING ==> cuts != [] && cuts[0].carried == current.carried && |cuts[0].added| >= |current.added|
  }

  lemma {:induction false} PackIsFull(paragraphs: seq<string>, j: nat, budget: int, overlap: int, current: Cut)
    requires j <= |paragraphs| && forall i :: 0 <= i < |paragraphs| ==> !Blank(paragraphs[i])
    requires current == NOTHING || current.added != ""
    ensures FullAndCarried(Pack(paragraphs[j..], budget, overlap, current), paragraphs, budget, overlap)
    ensures StartsFrom(Pack(paragraphs[j..], budget, overlap, current), current)
    decreases |paragraphs| - j
  {
    if j == |paragraphs| {
    } else {
      var paragraph := paragraphs[j];
      assert paragraphs[j..][1..] == paragraphs[j + 1..];
      if |paragraph| > budget {
        PackIsFull(paragraphs, j + 1, budget, overlap, NOTHING);
        ParagraphPieces(paragraphs, budget, j);
        PiecesBetween(Emit(current), Uncarried(HardSplit(paragraph, budget)),
                      Pack(paragraphs[j + 1..], budget, overlap, NOTHING), paragraphs, budget, overlap);
      } else if TextOf(current) != "" && |TextOf(current)| + 2 + |paragraph| > budget {
        var next := Cut(Tail(TextOf(current), overlap), paragraph);
        PackIsFull(paragraphs, j + 1, budget, overlap, next);
        LinkedConcat([current], Pack(paragraphs[j + 1..], budget, overlap, next), Adjoins(paragraphs, budget, overlap));
      } else {
        PackIsFull(paragraphs, j + 1, budget, overlap, Extend(current, paragraph));
      }
    }
  }

  // Chunks are as full as paragraphs allow and each carries the tail of the one before, except around the
  // pieces of a paragraph that does not fit by itself.
  lemma ChunksAreFullAndCarried(text: string, maxTokens: int, overlap: int)
    ensures FullAndCarried(Cuts(text, maxTokens, overlap), Paragraphs(text), maxTokens * 4, overlap * 4)
    ensures SplitText(text, maxTokens, overlap) == Texts(Cuts(text, maxTokens, overlap))
  {
    ParagraphsKeepWords(text);
    ChunksAreCuts(text, maxTokens, overlap);
    PackIsFull(Paragraphs(text), 0, maxTokens * 4, overlap * 4, NOTHING);
    assert Paragraphs(text)[0..] == Paragraphs(text);
  }

  lemma AddedIsText(text: string, maxTokens: int, overlap: int)
    ensures AllWords(Added(Cuts(text, maxTokens, overlap))) == Words(text)
  {
    ParagraphsKeepWords(text);
    PackKeepsWords(Paragraphs(text), maxTokens * 4, overlap * 4, NOTHING);
    assert [] + Words(text) == Words(text);
  }

  // Splitting loses, reorders and fuses no words. Each chunk is a carried part, which ends the chunk before
  // it, and an added part; the added parts hold exactly the words of the text, in order.
  lemma SplitKeepsWords(text: string, maxTokens: int, overlap: int)
    ensures var cuts, chunks := Cuts(text, maxTokens, overlap), SplitText(text, maxTokens, overlap);
            && chunks == Texts(cuts)
            && AllWords(Added(cuts)) == Words(text)
            && (forall i :: 0 <= i < |chunks| ==> Words(chunks[i]) == Words(cuts[i].carried) + Words(cuts[i].added))
            && (chunks != [] ==> cuts[0].carried == "")
            && (forall i :: 1 <= i < |chunks| ==> IsSuffix(cuts[i].carried, chunks[i - 1]))
  {
    var cuts := Cuts(text, maxTokens, overlap);
    AddedIsText(text, maxTokens, overlap);
    ChunksAreCuts(text, maxTokens, overlap);
    WordsOfCuts(cuts);
    CarriedAreSuffixes(cuts, overlap * 4);
  }

  /* The size bound. */

  // A chunk within `bound` characters, or one oversized word on its own.
  predicate Sized(chunk: string, budget: int, bound: int) {
    |chunk| <= bound || (Words(chunk) == [chunk] && |chunk| > budget)
  }

  predicate AllSized(chunks: seq<string>, maxTokens: int, overlap: int) {
    forall i :: 0 <= i < |chunks| ==> Sized(chunks[i], 4 * maxTokens, 4 * maxTokens + 4 * overlap + 2)
  }

  lemma {:induction false} PackIsSized(paragraphs: seq<string>, budget: int, overlap: int, current: Cut)
    requires overlap >= 1 && |TextOf(current)| <= budget + overlap + 2
    ensures forall i :: 0 <= i < |Pack(paragraphs, budget, overlap, current)| ==>
              Sized(TextOf(Pack(paragraphs, budget, overlap, current)[i]), budget, budget + overlap + 2)
    decreases |paragraphs|
  {
    if paragraphs == [] {
    } else {
      var paragraph, rest := paragraphs[0], paragraphs[1..];
      if |paragraph| > budget {
        HardSplitKeepsWords(paragraph, budget);
        var pieces := HardSplit(paragraph, budget);
        forall i | 0 <= i < |pieces| ensures Sized(TextOf(Uncarried(pieces)[i]), budget, budget + overlap + 2) {
          assert TextOf(Uncarried(pieces)[i]) == pieces[i];
        }
        PackIsSized(rest, budget, overlap, NOTHING);
      } else if TextOf(current) != "" && |TextOf(current)| + 2 + |paragraph| > budget {
        TailFacts(TextOf(current), overlap);
        PackIsSized(rest, budget, overlap, Cut(Tail(TextOf(current), overlap), paragraph));
      } else {
        PackIsSized(rest, budget, overlap, Extend(current, paragraph));
      }
    }
  }

  lemma OverlapBoundsSize(text: string, maxTokens: int, overlap: int)
    requires maxTokens >= 0 && overlap >= 1
    ensures AllSized(SplitText(text, maxTokens, overlap), maxTokens, overlap)
  {
    ChunksAreCuts(text, maxTokens, overlap);
    PackIsSized(Paragraphs(text), maxTokens * 4, overlap * 4, NOTHING);
  }

  function Repeat(c: char, n: nat): (s: string)
    ensures |s| == n && forall i :: 0 <= i < n ==> s[i] == c
  {
    seq(n, _ => c)
  }

  // Two paragraphs of one word each, both filling the budget exactly.
  function TwoFullWords(maxTokens: nat): string {
    Repeat('a', 4 * maxTokens) + "\n\n" + Repeat('a', 4 * maxTokens)
  }

  lemma FullWordsSplit(maxTokens: nat)
    requires maxTokens >= 1
    ensures Paragraphs(TwoFullWords(maxTokens)) == [Repeat('a', 4 * maxTokens), Repeat('a', 4 * maxTokens)]
  {
    var word, text := Repeat('a', 4 * maxTokens), TwoFullWords(maxTokens);
    var i := FindBreak(text);
    assert text[|word|] == '\n' && text[|word| + 1] == '\n';
    assert i == |word|;
    assert text[..i] == word && text[i + 2..] == word;
    assert FindBreak(word) == -1;
    assert SplitBreaks(word) == [word];
    assert !IsSpace(word[0]) && !Blank(word);
    assert KeepText([word]) == [word] + KeepText([]);
    assert KeepText([word, word]) == [word] + KeepText([word]);
  }

  lemma WholeTail(word: string)
    requires word != "" && !IsSpace(word[0]) && ' ' !in word
    ensures Tail(word, 0) == word
  {
  }

  lemma FullWordsCuts(maxTokens: nat)
    requires maxTokens >= 1
    ensures var word := Repeat('a', 4 * maxTokens);
            Cuts(TwoFullWords(maxTokens), maxTokens, 0) == [Cut("", word), Cut(word, word)]
  {
    var word, budget := Repeat('a', 4 * maxTokens), maxTokens * 4;
    FullWordsSplit(maxTokens);
    WholeTail(word);
    assert [word, word][1..] == [word] && [word][1..] == [];
    assert Pack([], budget, 0, Cut(word, word)) == [Cut(word, word)];
    assert Pack([word], budget, 0, Cut("", word)) == [Cut("", word)] + [Cut(word, word)];
  }

  lemma PairIsOversized(word: string)
    requires Solid(word)
    ensures !Sized(word + "\n\n" + word, |word|, |word| + 2)
  {
    WordsAcrossBreak(word, word);
    SolidIsOneWord(word);
    assert |Words(word + "\n\n" + word)| == 2;
  }

  // With zero overlap the whole previous chunk is carried, so some text breaks the bound.
  lemma ZeroOverlapBreaksBound(maxTokens: nat)
    requires maxTokens >= 1
    ensures !AllSized(SplitText(TwoFullWords(maxTokens), maxTokens, 0), maxTokens, 0)
  {
    var word, chunks := Repeat('a', 4 * maxTokens), SplitText(TwoFullWords(maxTokens), maxTokens, 0);
    FullWordsCuts(maxTokens);
    ChunksAreCuts(TwoFullWords(maxTokens), maxTokens, 0);
    PairIsOversized(word);
    assert |chunks| == 2 && chunks[1] == word + "\n\n" + word;
  }

  ghost predicate BoundsEveryText(maxTokens: nat, overlap: nat) {
    forall text :: AllSized(SplitText(text, maxTokens, overlap), maxTokens, overlap)
  }

  // Exactly when the size bound holds for every text: when some overlap is asked for.
  lemma SizeBoundIffOverlap(maxTokens: nat, overlap: nat)
    requires maxTokens >= 1
    ensures BoundsEveryText(maxTokens, overlap) <==> overlap >= 1
  {
    if overlap == 0 {
      ZeroOverlapBreaksBound(maxTokens);
    } else {
      forall text {
        OverlapBoundsSize(text, maxTokens, overlap);
      }
    }
  }
}
