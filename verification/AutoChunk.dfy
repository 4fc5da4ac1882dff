/** Paragraph-aware chunking under a token budget (src/alvis/chunk/auto.py). */
module AutoChunk {
  import opened Models
  import opened Text

  datatype Section = Section(heading: string, body: string)

  datatype Document = Document(uri: Uri, title: string, sections: seq<Section>)

  /* Splitting one oversized paragraph into runs of words. */

  // The greedy filling of pieces, starting from a piece already being filled.
  function Fill(words: seq<string>, budget: int, current: seq<string>): seq<seq<string>>
    decreases |words|
  {
    if words == [] then
      if current == [] then [] else [current]
    else if current != [] && |Join(current, " ")| + 1 + |words[0]| > budget then
      [current] + Fill(words[1..], budget, [words[0]])
    else
      Fill(words[1..], budget, current + [words[0]])
  }

  function Joined(groups: seq<seq<string>>): (pieces: seq<string>)
    ensures |pieces| == |groups|
  {
    seq(|groups|, i requires 0 <= i < |groups| => Join(groups[i], " "))
  }

  function HardSplit(text: string, budget: int): seq<string> {
    Joined(Fill(Words(text), budget, []))
  }

  method HardSplitLoop(text: string, budget: int) returns (pieces: seq<string>)
    ensures pieces == HardSplit(text, budget)
  {
    pieces := [];
    var current := "";
    var words := Words(text);
    ghost var done, filling: seq<string> := [], [];
    for i := 0 to |words|
      invariant Fill(words, budget, []) == done + Fill(words[i..], budget, filling)
      invariant pieces == Joined(done) && current == Join(filling, " ")
      invariant AllSolid(filling) && (current == "" <==> filling == [])
    {
      var word := words[i];
      assert words[i..][0] == word && words[i..][1..] == words[i + 1..];
      if current != "" && |current| + 1 + |word| > budget {
        pieces := pieces + [current];
        assert done + ([filling] + Fill(words[i + 1..], budget, [word]))
          == (done + [filling]) + Fill(words[i + 1..], budget, [word]);
        done, filling := done + [filling], [word];
        current := word;
      } else {
        if filling != [] {
          JoinSnoc(filling, word, " ");
        }
        filling := filling + [word];
        current := if current != "" then current + " " + word else word;
      }
    }
    assert words[|words|..] == [];
    if current != "" {
      pieces := pieces + [current];
    }
  }

  // A piece is a single word or stays within the budget.
  predicate Fits(group: seq<string>, budget: int) {
    |group| <= 1 || |Join(group, " ")| <= budget
  }

  predicate AllFit(groups: seq<seq<string>>, budget: int) {
    forall i :: 0 <= i < |groups| ==> Fits(groups[i], budget)
  }

  // No word is lost, reordered or fused.
  lemma {:induction false} FillKeepsWords(words: seq<string>, budget: int, current: seq<string>)
    ensures Flatten(Fill(words, budget, current)) == current + words
    decreases |words|
  {
    if words == [] {
    } else if current != [] && |Join(current, " ")| + 1 + |words[0]| > budget {
      FillKeepsWords(words[1..], budget, [words[0]]);
      assert current + words == current + ([words[0]] + words[1..]);
    } else {
      FillKeepsWords(words[1..], budget, current + [words[0]]);
      assert current + words == current + [words[0]] + words[1..];
    }
  }

  // No piece is empty or oversized.
  lemma {:induction false} FillFits(words: seq<string>, budget: int, current: seq<string>)
    requires Fits(current, budget)
    ensures AllFit(Fill(words, budget, current), budget)
    ensures forall i :: 0 <= i < |Fill(words, budget, current)| ==> Fill(words, budget, current)[i] != []
    decreases |words|
  {
    if words == [] {
    } else if current != [] && |Join(current, " ")| + 1 + |words[0]| > budget {
      FillFits(words[1..], budget, [words[0]]);
    } else {
      JoinSnoc(current, words[0], " ");
      FillFits(words[1..], budget, current + [words[0]]);
    }
  }

  lemma {:induction false} FillSolid(words: seq<string>, budget: int, current: seq<string>)
    requires AllSolid(words) && AllSolid(current)
    ensures forall i :: 0 <= i < |Fill(words, budget, current)| ==> AllSolid(Fill(words, budget, current)[i])
    decreases |words|
  {
    if words == [] {
    } else {
      if current != [] && |Join(current, " ")| + 1 + |words[0]| > budget {
        FillSolid(words[1..], budget, [words[0]]);
      } else {
        FillSolid(words[1..], budget, current + [words[0]]);
      }
    }
  }

  // The words of the pieces, in order, are the words of the text.
  lemma HardSplitKeepsWords(text: string, budget: int)
    ensures AllWords(HardSplit(text, budget)) == Words(text)
    ensures forall i :: 0 <= i < |HardSplit(text, budget)| ==>
              var piece := HardSplit(text, budget)[i];
              piece != "" && (|piece| <= budget || Words(piece) == [piece])
  {
    var groups := Fill(Words(text), budget, []);
    FillKeepsWords(Words(text), budget, []);
    FillFits(Words(text), budget, []);
    FillSolid(Words(text), budget, []);
    forall i | 0 <= i < |groups|
      ensures Words(Join(groups[i], " ")) == groups[i] && Join(groups[i], " ") != ""
    {
      WordsOfJoin(groups[i]);
    }
    WordsOfGroups(groups);
  }

  function AllWords(parts: seq<string>): seq<string> {
    if parts == [] then [] else Words(parts[0]) + AllWords(parts[1..])
  }

  lemma {:induction false} WordsOfGroups(groups: seq<seq<string>>)
    requires forall i :: 0 <= i < |groups| ==> Words(Join(groups[i], " ")) == groups[i]
    ensures AllWords(Joined(groups)) == Flatten(groups)
  {
    if groups == [] {
    } else {
      WordsOfGroups(groups[1..]);
      assert Joined(groups)[1..] == Joined(groups[1..]);
    }
  }

  // A split of the words into groups loses its first k words.
  function DropWords(groups: seq<seq<string>>, k: nat): seq<seq<string>>
    requires k <= |Flatten(groups)|
  {
    if k == 0 then groups
    else if |groups[0]| <= k then DropWords(groups[1..], k - |groups[0]|)
    else [groups[0][k..]] + groups[1..]
  }

  lemma {:induction false} JoinOfSuffix(words: seq<string>, k: nat)
    requires k <= |words|
    ensures |Join(words[k..], " ")| <= |Join(words, " ")|
  {
    if k == 0 {
    } else {
      JoinOfSuffix(words[1..], k - 1);
      assert words[1..][k - 1..] == words[k..];
    }
  }

  lemma {:induction false} JoinOfPrefix(words: seq<string>, k: nat)
    requires k <= |words|
    ensures |Join(words[..k], " ")| <= |Join(words, " ")|
  {
    if 0 < k < |words| {
      JoinOfPrefix(words[1..], k - 1);
      assert words[1..][..k - 1] == words[..k][1..];
    } else if k == |words| {
      assert words[..k] == words;
    }
  }

  lemma {:induction false} DropWordsFacts(groups: seq<seq<string>>, k: nat, budget: int)
    requires k <= |Flatten(groups)| && AllFit(groups, budget)
    ensures Flatten(DropWords(groups, k)) == Flatten(groups)[k..]
    ensures AllFit(DropWords(groups, k), budget) && |DropWords(groups, k)| <= |groups|
    decreases |groups|
  {
    if k == 0 {
    } else {
      if |groups[0]| <= k {
        DropWordsFacts(groups[1..], k - |groups[0]|, budget);
      } else {
        JoinOfSuffix(groups[0], k);
      }
    }
  }

  // Greedy filling is optimal: no split of the same words into consecutive fitting pieces is shorter.
  lemma {:induction false} FillIsOptimal(words: seq<string>, budget: int, current: seq<string>, other: seq<seq<string>>)
    requires AllFit(other, budget) && Flatten(other) == current + words
    ensures |Fill(words, budget, current)| <= |other|
    decreases |words|, |other|
  {
    if words == [] {
    } else if current != [] && |Join(current, " ")| + 1 + |words[0]| > budget {
      FirstGroupIsShort(words, budget, current, other);
      var k := |current| - |other[0]|;
      assert Flatten(other[1..]) == (current + words)[|other[0]|..];
      DropWordsFacts(other[1..], k, budget);
      assert (current + words)[|other[0]|..][k..] == words == [words[0]] + words[1..];
      FillIsOptimal(words[1..], budget, [words[0]], DropWords(other[1..], k));
    } else {
      assert current + words == (current + [words[0]]) + words[1..];
      FillIsOptimal(words[1..], budget, current + [words[0]], other);
    }
  }

  lemma LongPrefixDoesNotFit(group: seq<string>, n: nat, budget: int)
    requires 2 <= n <= |group| && |Join(group[..n], " ")| > budget
    ensures !Fits(group, budget)
  {
    JoinOfPrefix(group, n);
  }

  lemma PrefixOfConcat(a: seq<string>, b: seq<string>, x: seq<string>, y: seq<string>)
    requires a + b == x + y && |x| <= |a|
    ensures a[..|x|] == x
  {
    assert a[..|x|] == (a + b)[..|x|] == (x + y)[..|x|] == x;
  }

  // A first group longer than the words of one piece starts with them and the next word.
  lemma LongerGroupStarts(words: seq<string>, current: seq<string>, first: seq<string>, rest: seq<string>)
    requires first + rest == current + words && words != [] && |first| > |current|
    ensures first[..|current| + 1] == current + [words[0]]
  {
    var longer := current + [words[0]];
    assert current + words == longer + words[1..];
    PrefixOfConcat(first, rest, longer, words[1..]);
  }

  lemma FirstGroupIsShort(words: seq<string>, budget: int, current: seq<string>, other: seq<seq<string>>)
    requires AllFit(other, budget) && Flatten(other) == current + words
    requires words != [] && current != [] && |Join(current, " ")| + 1 + |words[0]| > budget
    ensures other != [] && |other[0]| <= |current|
  {
    if |other[0]| > |current| {
      LongerGroupStarts(words, current, other[0], Flatten(other[1..]));
      JoinSnoc(current, words[0], " ");
      LongPrefixDoesNotFit(other[0], |current| + 1, budget);
      assert false;
    }
  }

  lemma HardSplitIsOptimal(text: string, budget: int, other: seq<seq<string>>)
    requires Flatten(other) == Words(text) && AllFit(other, budget)
    ensures |HardSplit(text, budget)| <= |other|
  {
    assert Flatten(other) == [] + Words(text);
    FillIsOptimal(Words(text), budget, [], other);
  }

  // Each group was closed only because the next word did not fit.
  predicate FullGroups(groups: seq<seq<string>>, budget: int) {
    && (forall i :: 0 <= i < |groups| ==> groups[i] != [])
    && forall i :: 0 <= i < |groups| - 1 ==> |Join(groups[i], " ")| + 1 + |groups[i + 1][0]| > budget
  }

  lemma {:induction false} FillIsFull(words: seq<string>, budget: int, current: seq<string>)
    ensures FullGroups(Fill(words, budget, current), budget)
    ensures current != [] ==> Fill(words, budget, current) != [] && Fill(words, budget, current)[0][0] == current[0]
    decreases |words|
  {
    if words == [] {
    } else if current != [] && |Join(current, " ")| + 1 + |words[0]| > budget {
      FillIsFull(words[1..], budget, [words[0]]);
    } else {
      FillIsFull(words[1..], budget, current + [words[0]]);
    }
  }

  // The pieces, exactly: the words in order, cut where the next one does not fit, joined by single spaces.
  lemma HardSplitIsGreedy(text: string, budget: int) returns (groups: seq<seq<string>>)
    ensures Flatten(groups) == Words(text) && AllFit(groups, budget) && FullGroups(groups, budget)
    ensures |HardSplit(text, budget)| == |groups|
    ensures forall i :: 0 <= i < |groups| ==> HardSplit(text, budget)[i] == Join(groups[i], " ")
  {
    groups := Fill(Words(text), budget, []);
    FillKeepsWords(Words(text), budget, []);
    FillFits(Words(text), budget, []);
    FillIsFull(Words(text), budget, []);
  }

  /* Packing paragraphs into chunks with a carried tail. */

  // Where the first blank line starts; -1 when there is none.
  function FindBreak(text: string): (i: int)
    ensures i == -1 || (0 <= i < |text| - 1 && text[i] == '\n' && text[i + 1] == '\n')
    ensures forall j :: 0 <= j < (if i < 0 then |text| - 1 else i) ==> !(text[j] == '\n' && text[j + 1] == '\n')
  {
    if |text| < 2 then -1
    else if text[0] == '\n' && text[1] == '\n' then 0
    else
      var i := FindBreak(text[1..]);
      if i < 0 then -1 else i + 1
  }

  // The parts between blank lines, empty ones included.
  function SplitBreaks(text: string): (parts: seq<string>)
    ensures parts != []
    decreases |text|
  {
    var i := FindBreak(text);
    if i < 0 then [text] else [text[..i]] + SplitBreaks(text[i + 2..])
  }

  // The parts whose strip() is not empty.
  function KeepText(parts: seq<string>): seq<string> {
    if parts == [] then []
    else if !Blank(parts[0]) then [parts[0]] + KeepText(parts[1..])
    else KeepText(parts[1..])
  }

  function Paragraphs(text: string): seq<string> {
    KeepText(SplitBreaks(text))
  }

  // The end of a chunk that is carried into the next one. A zero budget takes the
  // whole chunk for its window, since position -0 is its beginning.
  function Tail(text: string, chars: int): string {
    if |text| <= chars then ""
    else
      var window := LStrip(From(text, -chars));
      var boundary := Find(window, ' ');
      if boundary > 0 then LStrip(window[boundary..]) else window
  }

  // A chunk under construction: what was carried into it, and what was added since.
  datatype Cut = Cut(carried: string, added: string)

  const NOTHING := Cut("", "")

  function TextOf(c: Cut): string {
    if c.carried == "" then c.added else c.carried + "\n\n" + c.added
  }

  function Texts(cuts: seq<Cut>): (texts: seq<string>)
    ensures |texts| == |cuts|
  {
    seq(|cuts|, i requires 0 <= i < |cuts| => TextOf(cuts[i]))
  }

  function Uncarried(pieces: seq<string>): (cuts: seq<Cut>)
    ensures |cuts| == |pieces|
  {
    seq(|pieces|, i requires 0 <= i < |pieces| => Cut("", pieces[i]))
  }

  function Emit(current: Cut): seq<Cut> {
    if TextOf(current) == "" then [] else [current]
  }

  function Extend(current: Cut, paragraph: string): Cut {
    if TextOf(current) == "" then Cut("", paragraph) else Cut(current.carried, current.added + "\n\n" + paragraph)
  }

  function Pack(paragraphs: seq<string>, budget: int, overlap: int, current: Cut): seq<Cut>
    decreases |paragraphs|
  {
    if paragraphs == [] then Emit(current)
    else
      var paragraph, rest := paragraphs[0], paragraphs[1..];
      if |paragraph| > budget then
        Emit(current) + Uncarried(HardSplit(paragraph, budget)) + Pack(rest, budget, overlap, NOTHING)
      else if TextOf(current) != "" && |TextOf(current)| + 2 + |paragraph| > budget then
        [current] + Pack(rest, budget, overlap, Cut(Tail(TextOf(current), overlap), paragraph))
      else
        Pack(rest, budget, overlap, Extend(current, paragraph))
  }

  function Cuts(text: string, maxTokens: int, overlap: int): seq<Cut> {
    Pack(Paragraphs(text), maxTokens * 4, overlap * 4, NOTHING)
  }

  function SplitText(text: string, maxTokens: int, overlap: int): seq<string> {
    KeepText(Texts(Cuts(text, maxTokens, overlap)))
  }

  lemma TextsConcat(a: seq<Cut>, b: seq<Cut>)
    ensures Texts(a + b) == Texts(a) + Texts(b)
  {
  }

  lemma TextsOfEmit(current: Cut, budget: int, overlap: int)
    ensures Texts(Pack([], budget, overlap, current)) == if TextOf(current) == "" then [] else [TextOf(current)]
  {
  }

  lemma TextsOfUncarried(pieces: seq<string>)
    ensures Texts(Uncarried(pieces)) == pieces
  {
  }

  // One turn of the packing, for each of the three things it can do with a paragraph.
  lemma PackFrom(paragraphs: seq<string>, i: nat, budget: int, overlap: int, current: Cut)
    requires i < |paragraphs|
    ensures var paragraph, rest := paragraphs[i], paragraphs[i + 1..];
            Pack(paragraphs[i..], budget, overlap, current)
            == if |paragraph| > budget then
                 Emit(current) + Uncarried(HardSplit(paragraph, budget)) + Pack(rest, budget, overlap, NOTHING)
               else if TextOf(current) != "" && |TextOf(current)| + 2 + |paragraph| > budget then
                 [current] + Pack(rest, budget, overlap, Cut(Tail(TextOf(current), overlap), paragraph))
               else Pack(rest, budget, overlap, Extend(current, paragraph))
  {
    assert paragraphs[i..][1..] == paragraphs[i + 1..];
  }

  // The same turn by its texts.
  lemma TextsOfOversized(paragraphs: seq<string>, i: nat, budget: int, overlap: int, current: Cut)
    requires i < |paragraphs| && |paragraphs[i]| > budget
    ensures Texts(Pack(paragraphs[i..], budget, overlap, current))
         == (if TextOf(current) == "" then [] else [TextOf(current)])
            + (HardSplit(paragraphs[i], budget) + Texts(Pack(paragraphs[i + 1..], budget, overlap, NOTHING)))
  {
    var pieces, rest := HardSplit(paragraphs[i], budget), Pack(paragraphs[i + 1..], budget, overlap, NOTHING);
    PackFrom(paragraphs, i, budget, overlap, current);
    Associate(Emit(current), Uncarried(pieces), rest);
    TextsConcat(Emit(current), Uncarried(pieces) + rest);
    TextsConcat(Uncarried(pieces), rest);
    TextsOfUncarried(pieces);
  }

  lemma TextsOfFull(paragraphs: seq<string>, i: nat, budget: int, overlap: int, current: Cut)
    requires i < |paragraphs| && |paragraphs[i]| <= budget
    requires TextOf(current) != "" && |TextOf(current)| + 2 + |paragraphs[i]| > budget
    ensures var next := Cut(Tail(TextOf(current), overlap), paragraphs[i]);
            Texts(Pack(paragraphs[i..], budget, overlap, current))
            == [TextOf(current)] + Texts(Pack(paragraphs[i + 1..], budget, overlap, next))
  {
    var next := Cut(Tail(TextOf(current), overlap), paragraphs[i]);
    PackFrom(paragraphs, i, budget, overlap, current);
    TextsConcat([current], Pack(paragraphs[i + 1..], budget, overlap, next));
  }

  // Closes the chunk being filled, if any, and appends the pieces of an oversized paragraph.
  method CloseAndSplit(chunks: seq<string>, current: string, paragraph: string, budget: int)
    returns (more: seq<string>)
    ensures more == chunks + (if current == "" then [] else [current]) + HardSplit(paragraph, budget)
  {
    more := chunks;
    if current != "" {
      more := more + [current];
    }
    var pieces := HardSplitLoop(paragraph, budget);
    more := more + pieces;
  }

  lemma Regroup<T>(a: seq<T>, b: seq<T>, c: seq<T>, d: seq<T>)
    ensures a + (b + (c + d)) == a + b + c + d
  {
  }

  lemma TextOfExtended(current: Cut, paragraph: string)
    ensures TextOf(Extend(current, paragraph))
         == if TextOf(current) == "" then paragraph else TextOf(current) + "\n\n" + paragraph
  {
  }

  // The chunk being filled after one paragraph more.
  function CutAfter(current: Cut, paragraph: string, budget: int, overlap: int): Cut {
    if |paragraph| > budget then NOTHING
    else if TextOf(current) != "" && |TextOf(current)| + 2 + |paragraph| > budget then
      Cut(Tail(TextOf(current), overlap), paragraph)
    else Extend(current, paragraph)
  }

  // One turn of the loop over the paragraphs. `cut` is the chunk being filled, whose text is `current`.
  method AddParagraph(chunks: seq<string>, current: string, paragraphs: seq<string>, i: nat, budget: int,
                      overlapChars: int, ghost cut: Cut)
    returns (chunks': seq<string>, current': string)
    requires i < |paragraphs| && current == TextOf(cut)
    ensures var next := CutAfter(cut, paragraphs[i], budget, overlapChars);
            && current' == TextOf(next)
            && chunks' + Texts(Pack(paragraphs[i + 1..], budget, overlapChars, next))
               == chunks + Texts(Pack(paragraphs[i..], budget, overlapChars, cut))
  {
    var paragraph := paragraphs[i];
    chunks', current' := chunks, current;
    if |paragraph| > budget {
      TextsOfOversized(paragraphs, i, budget, overlapChars, cut);
      Regroup(chunks, if current == "" then [] else [current], HardSplit(paragraph, budget),
              Texts(Pack(paragraphs[i + 1..], budget, overlapChars, NOTHING)));
      chunks' := CloseAndSplit(chunks, current, paragraph, budget);
      current' := "";
    } else {
      if current != "" && |current| + 2 + |paragraph| > budget {
        TextsOfFull(paragraphs, i, budget, overlapChars, cut);
        Associate(chunks, [current], Texts(Pack(paragraphs[i + 1..], budget, overlapChars,
                                                CutAfter(cut, paragraph, budget, overlapChars))));
        chunks' := chunks + [current];
        current' := Tail(current, overlapChars);
      } else {
        PackFrom(paragraphs, i, budget, overlapChars, cut);
        TextOfExtended(cut, paragraph);
      }
      current' := if current' != "" then current' + "\n\n" + paragraph else paragraph;
    }
  }

  method SplitTextLoop(text: string, maxTokens: int, overlap: int) returns (chunks: seq<string>)
    ensures chunks == SplitText(text, maxTokens, overlap)
  {
    var budget, overlapChars := maxTokens * 4, overlap * 4;
    var paragraphs := Paragraphs(text);
    chunks := [];
    if paragraphs == [] {
      TextsOfEmit(NOTHING, budget, overlapChars);
      return;
    }
    var current := "";
    ghost var cut, all := NOTHING, Texts(Cuts(text, maxTokens, overlap));
    assert paragraphs[0..] == paragraphs;
    for i := 0 to |paragraphs|
      invariant all == chunks + Texts(Pack(paragraphs[i..], budget, overlapChars, cut)) && current == TextOf(cut)
    {
      chunks, current := AddParagraph(chunks, current, paragraphs, i, budget, overlapChars, cut);
      cut := CutAfter(cut, paragraphs[i], budget, overlapChars);
    }
    assert paragraphs[|paragraphs|..] == [];
    TextsOfEmit(cut, budget, overlapChars);
    if current != "" {
      chunks := chunks + [current];
    }
    assert chunks == all;
    chunks := KeepText(chunks);
  }
}
