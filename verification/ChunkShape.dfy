/** The exact shape of a split text: where it is cut into paragraphs, which of them each chunk adds, and what each
    carries from the one before (src/alvis/chunk/auto.py). */
module ChunkShape {
  import opened Text
  import opened AutoChunk
  import opened SplitFacts

  /* What is carried, and where chunks end, character by character. */

  // The first character from a position on that is not whitespace.
  predicate FirstSolid(text: string, from: nat, to: nat) {
    && from <= to <= |text|
    && (forall k :: from <= k < to ==> IsSpace(text[k])) && (to < |text| ==> !IsSpace(text[to]))
  }

  // The word starting the text behind `from` stands at a, the first space behind it at b, the next word at c.
  predicate EndStarts(text: string, from: nat, a: nat, b: nat, c: nat) {
    && FirstSolid(text, from, a) && a <= b <= |text| && ' ' !in text[a..b]
    && if b == |text| then c == a else text[b] == ' ' && FirstSolid(text, b, c)
  }

  // What a chunk hands on: nothing when it is within the budget; otherwise what follows the first space among
  // its last words, or all of them when there is no space between them.
  ghost predicate CarriesEnd(before: string, carried: string, chars: nat) {
    if |before| <= chars then carried == ""
    else LastWords(before, |before| - chars, carried)
  }

  ghost predicate LastWords(text: string, from: nat, words: string) {
    exists a: nat, b: nat, c: nat :: EndStarts(text, from, a, b, c) && c <= |text| && words == text[c..]
  }

  lemma StrippedFrom(text: string, from: nat) returns (to: nat)
    requires from <= |text|
    ensures FirstSolid(text, from, to) && LStrip(text[from..]) == text[to..]
  {
    var before := LeadingBlanks(text[from..]);
    to := from + |before|;
    SolidBehind(text, from, before, LStrip(text[from..]));
  }

  lemma SolidBehind(text: string, from: nat, before: string, rest: string)
    requires from <= |text| && text[from..] == before + rest && Blank(before) && (rest != "" ==> !IsSpace(rest[0]))
    ensures FirstSolid(text, from, from + |before|) && rest == text[from + |before|..]
  {
    var tail, to := text[from..], from + |before|;
    assert tail[|before|..] == rest && tail[|before|..] == text[to..];
    forall k | from <= k < to ensures IsSpace(text[k]) {
      assert text[k] == tail[k - from] == before[k - from];
    }
    assert rest != "" ==> text[to] == rest[0];
  }

  lemma TailBehindSpace(text: string, chars: nat, a: nat, b: nat)
    requires 1 <= chars < |text| && FirstSolid(text, |text| - chars, a) && Window(text, chars) == text[a..]
    requires ' ' in text[a..] && b == a + Find(text[a..], ' ')
    ensures LastWords(text, |text| - chars, Tail(text, chars))
  {
    var c := StrippedFrom(text, b);
    SpaceAt(text, a, b);
    TailFromSpace(text, chars, a, b);
    assert EndStarts(text, |text| - chars, a, b, c);
  }

  lemma TailFromSpace(text: string, chars: nat, a: nat, b: nat)
    requires chars < |text| && a < b <= |text| && Window(text, chars) == text[a..] && b == a + Find(text[a..], ' ')
    ensures Tail(text, chars) == LStrip(text[b..])
  {
    assert text[a..][b - a..] == text[b..];
  }

  lemma SpaceAt(text: string, a: nat, b: nat)
    requires a <= |text| && ' ' in text[a..] && b == a + Find(text[a..], ' ')
    ensures a <= b < |text| && text[b] == ' ' && ' ' !in text[a..b]
  {
    assert text[a..b] == text[a..][..b - a];
  }

  lemma NoSpaceFrom(text: string, from: nat, a: nat)
    requires FirstSolid(text, from, a) && ' ' !in text[a..]
    ensures LastWords(text, from, text[a..])
  {
    assert text[a..|text|] == text[a..];
    assert EndStarts(text, from, a, |text|, a);
  }

  lemma WindowFrom(text: string, chars: nat) returns (a: nat)
    requires 1 <= chars < |text|
    ensures FirstSolid(text, |text| - chars, a) && Window(text, chars) == text[a..]
  {
    a := StrippedFrom(text, |text| - chars);
    assert From(text, -(chars as int)) == text[|text| - chars..];
  }

  lemma TailIsEnd(text: string, chars: nat)
    requires chars >= 1
    ensures CarriesEnd(text, Tail(text, chars), chars)
  {
    if |text| > chars {
      var a := WindowFrom(text, chars);
      if ' ' in text[a..] {
        TailBehindSpace(text, chars, a, a + Find(text[a..], ' '));
      } else {
        NoSpaceFrom(text, |text| - chars, a);
      }
    }
  }

  // What a chunk carries, given the chunk before: nothing of a short one and never the whole of it, but its last
  // words; or nothing, where one of the two is a piece of an oversized paragraph.
  ghost predicate CarriesRightly(before: Cut, c: Cut, paragraphs: seq<string>, budget: int, chars: nat) {
    && |c.carried| < |TextOf(before)|
    && (|TextOf(before)| <= chars ==> c.carried == "")
    && (CarriesEnd(TextOf(before), c.carried, chars)
        || (c.carried == "" && (IsPiece(paragraphs, budget, before) || IsPiece(paragraphs, budget, c))))
  }

  lemma AdjoiningCarries(before: Cut, c: Cut, paragraphs: seq<string>, budget: int, chars: nat)
    requires chars >= 1 && TextOf(before) != "" && Adjoins(paragraphs, budget, chars)(before, c)
    requires c.carried == "" || c.carried == Tail(TextOf(before), chars)
    ensures CarriesRightly(before, c, paragraphs, budget, chars)
  {
    TailIsShorter(TextOf(before), chars);
  }

  lemma CarriedIsEnd(text: string, maxTokens: int, overlap: nat, i: nat)
    requires overlap >= 1 && 1 <= i < |SplitText(text, maxTokens, overlap)|
    ensures SplitText(text, maxTokens, overlap) == Texts(Cuts(text, maxTokens, overlap))
    ensures var cuts := Cuts(text, maxTokens, overlap);
            CarriesRightly(cuts[i - 1], cuts[i], Paragraphs(text), maxTokens * 4, overlap * 4)
  {
    var cuts := Cuts(text, maxTokens, overlap);
    ChunksAreCuts(text, maxTokens, overlap);
    ChunksAreFullAndCarried(text, maxTokens, overlap);
    ChunkIsNotEmpty(text, maxTokens, overlap, i - 1);
    AdjoiningCarries(cuts[i - 1], cuts[i], Paragraphs(text), maxTokens * 4, overlap * 4);
  }

  lemma TailIsShorter(text: string, chars: nat)
    requires chars >= 1 && text != ""
    ensures |Tail(text, chars)| < |text| && (|text| <= chars ==> Tail(text, chars) == "")
    ensures CarriesEnd(text, Tail(text, chars), chars)
  {
    TailFacts(text, chars);
    TailIsEnd(text, chars);
  }

  lemma {:induction false} KeptHaveText(parts: seq<string>, i: nat)
    requires i < |KeepText(parts)|
    ensures !Blank(KeepText(parts)[i])
  {
    var kept := !Blank(parts[0]);
    if kept && i == 0 {
    } else {
      KeptHaveText(parts[1..], if kept then i - 1 else i);
    }
  }

  lemma ChunkIsNotEmpty(text: string, maxTokens: int, overlap: int, i: nat)
    requires i < |SplitText(text, maxTokens, overlap)|
    ensures SplitText(text, maxTokens, overlap)[i] != ""
  {
    KeptHaveText(Texts(Cuts(text, maxTokens, overlap)), i);
  }

  // The pieces of an oversized paragraph, one chunk each.
  predicate ArePieces(cuts: seq<Cut>, pieces: seq<string>) {
    |pieces| <= |cuts| && forall i :: 0 <= i < |pieces| ==> cuts[i] == Cut("", pieces[i])
  }

  // A chunk adds the paragraphs from s to e, with blank lines between them. It holds more than one only within
  // the budget, and ends only where the next paragraph does not fit or is oversized itself.
  predicate IsFilled(c: Cut, paragraphs: seq<string>, budget: int, s: nat, e: nat) {
    && s < e <= |paragraphs| && c.added == Join(paragraphs[s..e], "\n\n")
    && (forall m :: s <= m < e ==> |paragraphs[m]| <= budget)
    && (e - s > 1 ==> |TextOf(c)| <= budget)
    && (e < |paragraphs| ==> |paragraphs[e]| > budget || |TextOf(c)| + 2 + |paragraphs[e]| > budget)
  }

  // The chunks tile the paragraphs from s on.
  predicate Tiles(cuts: seq<Cut>, paragraphs: seq<string>, budget: int, s: nat)
    requires s <= |paragraphs|
    decreases |paragraphs| - s
  {
    if s == |paragraphs| then cuts == []
    else if |paragraphs[s]| > budget then
      var pieces := HardSplit(paragraphs[s], budget);
      ArePieces(cuts, pieces) && Tiles(cuts[|pieces|..], paragraphs, budget, s + 1)
    else
      cuts != []
      && exists e :: s < e <= |paragraphs| && IsFilled(cuts[0], paragraphs, budget, s, e)
                     && Tiles(cuts[1..], paragraphs, budget, e)
  }

  // A chunk being filled with the paragraphs from s to j.
  predicate Filling(current: Cut, paragraphs: seq<string>, budget: int, s: nat, j: nat) {
    && s <= j <= |paragraphs|
    && if s == j then current == NOTHING
       else
         && current.added == Join(paragraphs[s..j], "\n\n") && current.added != ""
         && (forall m :: s <= m < j ==> |paragraphs[m]| <= budget)
         && (j - s > 1 ==> |TextOf(current)| <= budget)
  }

  lemma FillingGrows(current: Cut, paragraphs: seq<string>, budget: int, s: nat, j: nat)
    requires Filling(current, paragraphs, budget, s, j) && j < |paragraphs| && paragraphs[j] != ""
    requires |paragraphs[j]| <= budget
    requires TextOf(current) == "" || |TextOf(current)| + 2 + |paragraphs[j]| <= budget
    ensures Filling(Extend(current, paragraphs[j]), paragraphs, budget, s, j + 1)
  {
    JoinNext(paragraphs, s, j);
  }

  lemma JoinNext(paragraphs: seq<string>, s: nat, j: nat)
    requires s <= j < |paragraphs|
    ensures Join(paragraphs[s..j + 1], "\n\n")
         == if s == j then paragraphs[j] else Join(paragraphs[s..j], "\n\n") + "\n\n" + paragraphs[j]
  {
    assert paragraphs[s..j + 1] == paragraphs[s..j] + [paragraphs[j]];
    JoinSnoc(paragraphs[s..j], paragraphs[j], "\n\n");
  }

  lemma ClosedTiles(current: Cut, rest: seq<Cut>, paragraphs: seq<string>, budget: int, s: nat, j: nat)
    requires Filling(current, paragraphs, budget, s, j) && s < j && Tiles(rest, paragraphs, budget, j)
    requires j < |paragraphs| ==> |paragraphs[j]| > budget || |TextOf(current)| + 2 + |paragraphs[j]| > budget
    ensures Tiles([current] + rest, paragraphs, budget, s)
  {
    assert IsFilled(current, paragraphs, budget, s, j);
    assert ([current] + rest)[1..] == rest;
  }

  lemma PiecesTile(rest: seq<Cut>, paragraphs: seq<string>, budget: int, j: nat)
    requires j < |paragraphs| && |paragraphs[j]| > budget && Tiles(rest, paragraphs, budget, j + 1)
    ensures Tiles(Uncarried(HardSplit(paragraphs[j], budget)) + rest, paragraphs, budget, j)
  {
    var pieces := HardSplit(paragraphs[j], budget);
    assert (Uncarried(pieces) + rest)[|pieces|..] == rest;
  }

  lemma OversizedTiles(current: Cut, rest: seq<Cut>, paragraphs: seq<string>, budget: int, s: nat, j: nat)
    requires Filling(current, paragraphs, budget, s, j)
    requires j < |paragraphs| && |paragraphs[j]| > budget && Tiles(rest, paragraphs, budget, j + 1)
    ensures Tiles(Emit(current) + Uncarried(HardSplit(paragraphs[j], budget)) + rest, paragraphs, budget, s)
  {
    var pieces := Uncarried(HardSplit(paragraphs[j], budget));
    PiecesTile(rest, paragraphs, budget, j);
    Associate(Emit(current), pieces, rest);
    if s < j {
      assert Emit(current) == [current];
      ClosedTiles(current, pieces + rest, paragraphs, budget, s, j);
    } else {
      assert Emit(current) == [];
      assert [] + (pieces + rest) == pieces + rest;
    }
  }

  lemma OneFilled(paragraphs: seq<string>, budget: int, j: nat, carried: string)
    requires j < |paragraphs| && |paragraphs[j]| <= budget && paragraphs[j] != ""
    ensures Filling(Cut(carried, paragraphs[j]), paragraphs, budget, j, j + 1)
  {
    assert paragraphs[j..j + 1] == [paragraphs[j]];
  }

  lemma FullTiles(current: Cut, rest: seq<Cut>, paragraphs: seq<string>, budget: int, s: nat, j: nat)
    requires Filling(current, paragraphs, budget, s, j) && j < |paragraphs| && Tiles(rest, paragraphs, budget, j)
    requires TextOf(current) != "" && |TextOf(current)| + 2 + |paragraphs[j]| > budget
    ensures Tiles([current] + rest, paragraphs, budget, s)
  {
    assert s < j;
    ClosedTiles(current, rest, paragraphs, budget, s, j);
  }

  lemma EndTiles(current: Cut, paragraphs: seq<string>, budget: int, s: nat)
    requires Filling(current, paragraphs, budget, s, |paragraphs|)
    ensures Tiles(Emit(current), paragraphs, budget, s)
  {
    if s < |paragraphs| {
      ClosedTiles(current, [], paragraphs, budget, s, |paragraphs|);
      assert Emit(current) == [current] + [];
    }
  }

  predicate AllNonEmpty(paragraphs: seq<string>) {
    forall i :: 0 <= i < |paragraphs| ==> paragraphs[i] != ""
  }

  // Packing from a chunk that holds the paragraphs from s to j tiles everything from s on.
  lemma {:induction false} PackTiles(paragraphs: seq<string>, s: nat, j: nat, budget: int, overlap: int, current: Cut)
    requires Filling(current, paragraphs, budget, s, j) && AllNonEmpty(paragraphs)
    ensures Tiles(Pack(paragraphs[j..], budget, overlap, current), paragraphs, budget, s)
    decreases |paragraphs| - j, 1
  {
    if j == |paragraphs| {
      assert paragraphs[|paragraphs|..] == [];
      EndTiles(current, paragraphs, budget, s);
    } else if |paragraphs[j]| > budget {
      PackOversized(paragraphs, s, j, budget, overlap, current);
    } else if TextOf(current) != "" && |TextOf(current)| + 2 + |paragraphs[j]| > budget {
      PackFull(paragraphs, s, j, budget, overlap, current);
    } else {
      PackMore(paragraphs, s, j, budget, overlap, current);
    }
  }

  lemma {:induction false} PackOversized(paragraphs: seq<string>, s: nat, j: nat, budget: int, overlap: int,
                                         current: Cut)
    requires Filling(current, paragraphs, budget, s, j) && AllNonEmpty(paragraphs)
    requires j < |paragraphs| && |paragraphs[j]| > budget
    ensures Tiles(Pack(paragraphs[j..], budget, overlap, current), paragraphs, budget, s)
    decreases |paragraphs| - j, 0
  {
    PackTiles(paragraphs, j + 1, j + 1, budget, overlap, NOTHING);
    PackFrom(paragraphs, j, budget, overlap, current);
    OversizedTiles(current, Pack(paragraphs[j + 1..], budget, overlap, NOTHING), paragraphs, budget, s, j);
  }

  lemma {:induction false} PackFull(paragraphs: seq<string>, s: nat, j: nat, budget: int, overlap: int, current: Cut)
    requires Filling(current, paragraphs, budget, s, j) && AllNonEmpty(paragraphs)
    requires j < |paragraphs| && |paragraphs[j]| <= budget
    requires TextOf(current) != "" && |TextOf(current)| + 2 + |paragraphs[j]| > budget
    ensures Tiles(Pack(paragraphs[j..], budget, overlap, current), paragraphs, budget, s)
    decreases |paragraphs| - j, 0
  {
    var next := Cut(Tail(TextOf(current), overlap), paragraphs[j]);
    OneFilled(paragraphs, budget, j, next.carried);
    PackTiles(paragraphs, j, j + 1, budget, overlap, next);
    PackFrom(paragraphs, j, budget, overlap, current);
    FullTiles(current, Pack(paragraphs[j + 1..], budget, overlap, next), paragraphs, budget, s, j);
  }

  lemma {:induction false} PackMore(paragraphs: seq<string>, s: nat, j: nat, budget: int, overlap: int, current: Cut)
    requires Filling(current, paragraphs, budget, s, j) && AllNonEmpty(paragraphs)
    requires j < |paragraphs| && |paragraphs[j]| <= budget
    requires TextOf(current) == "" || |TextOf(current)| + 2 + |paragraphs[j]| <= budget
    ensures Tiles(Pack(paragraphs[j..], budget, overlap, current), paragraphs, budget, s)
    decreases |paragraphs| - j, 0
  {
    FillingGrows(current, paragraphs, budget, s, j);
    PackTiles(paragraphs, s, j + 1, budget, overlap, Extend(current, paragraphs[j]));
    PackFrom(paragraphs, j, budget, overlap, current);
  }

  // Which paragraphs each chunk of a text adds, exactly.
  lemma ChunksTileParagraphs(text: string, maxTokens: int, overlap: int)
    ensures Tiles(Cuts(text, maxTokens, overlap), Paragraphs(text), maxTokens * 4, 0)
  {
    ParagraphsKeepWords(text);
    PackTiles(Paragraphs(text), 0, 0, maxTokens * 4, overlap * 4, NOTHING);
    assert Paragraphs(text)[0..] == Paragraphs(text);
  }

  // Filtering goes part by part: a blank part is dropped, any other kept as it is.
  lemma {:induction false} KeptPartByPart(before: seq<string>, part: string, after: seq<string>)
    ensures KeepText(before + [part] + after)
         == KeepText(before) + (if Blank(part) then [] else [part]) + KeepText(after)
  {
    var all := before + [part] + after;
    if before == [] {
      assert all[1..] == after;
    } else {
      KeptPartByPart(before[1..], part, after);
      assert all[1..] == before[1..] + [part] + after;
    }
  }

  // No blank line in a text.
  predicate NoBreak(text: string) {
    forall j :: 0 <= j < |text| - 1 ==> !(text[j] == '\n' && text[j + 1] == '\n')
  }

  // A part before a blank line neither holds one nor completes one.
  predicate EndsAtBreak(part: string) {
    NoBreak(part) && (part != "" ==> part[|part| - 1] != '\n')
  }

  predicate AtBreaks(parts: seq<string>) {
    && (forall i :: 0 <= i < |parts| - 1 ==> EndsAtBreak(parts[i]))
    && (parts != [] ==> NoBreak(parts[|parts| - 1]))
  }

  lemma FirstBreakEnds(text: string, i: nat)
    requires FindBreak(text) == i
    ensures EndsAtBreak(text[..i]) && text == text[..i] + "\n\n" + text[i + 2..]
  {
    assert i > 0 ==> text[i] == '\n';
  }

  lemma MoreBreaks(first: string, rest: seq<string>)
    requires rest != [] && AtBreaks(rest) && EndsAtBreak(first)
    ensures AtBreaks([first] + rest)
    ensures Join([first] + rest, "\n\n") == first + "\n\n" + Join(rest, "\n\n")
  {
    var parts := [first] + rest;
    assert parts[1..] == rest && parts[|parts| - 1] == rest[|rest| - 1];
    forall i | 0 <= i < |parts| - 1 ensures EndsAtBreak(parts[i]) {
      if i > 0 {
        assert parts[i] == rest[i - 1];
      }
    }
  }

  // Cutting at blank lines, leftmost first, is undone by joining.
  lemma {:induction false} BreaksRejoin(text: string)
    ensures Join(SplitBreaks(text), "\n\n") == text && AtBreaks(SplitBreaks(text))
    decreases |text|
  {
    var i := FindBreak(text);
    if i < 0 {
    } else {
      BreaksRejoin(text[i + 2..]);
      FirstBreakEnds(text, i);
      MoreBreaks(text[..i], SplitBreaks(text[i + 2..]));
    }
  }
}
