/** Character-budget slicing at word boundaries (src/alvis/chunk/size.py). */
module SizeChunk {
  import opened Text

  // The last place of a character within [lo, hi); -1 when it does not occur there.
  function RFind(text: string, c: char, lo: nat, hi: nat): (i: int)
    requires lo <= hi <= |text|
    ensures i == -1 || (lo <= i < hi && text[i] == c)
    ensures forall j :: (if i < 0 then lo else i + 1) <= j < hi ==> text[j] != c
    decreases hi
  {
    if hi == lo then -1
    else if text[hi - 1] == c then hi - 1
    else RFind(text, c, lo, hi - 1)
  }

  // Where the slice from `position` ends: at the budget, or at the last space before it.
  function SliceEnd(text: string, size: nat, position: nat): (end: nat)
    requires size >= 1 && position < |text|
    ensures position < end <= |text| && end <= position + size
  {
    var end := Min(position + size, |text|);
    if end < |text| then
      var boundary := RFind(text, ' ', position, end);
      if boundary > position then boundary else end
    else end
  }

  // A slice ends with the text, at the last space within the budget, or at the budget when it holds no space.
  lemma SliceEndsAtWordBoundary(text: string, size: nat, position: nat)
    requires size >= 1 && position < |text|
    ensures var end := SliceEnd(text, size, position);
            && (end == |text| || text[end] == ' ' || end == position + size)
            && (end < |text| ==>
                  var last := if text[end] == ' ' then end else position;
                  forall j :: last < j < position + size && j < |text| ==> text[j] != ' ')
            && (|text| - position <= size ==> end == |text|)
  {
  }

  predicate Skippable(c: char) {
    c == ' ' || c == '\t' || c == '\n'
  }

  function SkipBlanks(text: string, position: nat): (next: nat)
    requires position <= |text|
    ensures position <= next <= |text|
    ensures forall i :: position <= i < next ==> Skippable(text[i])
    ensures next < |text| ==> !Skippable(text[next])
    decreases |text| - position
  {
    if position < |text| && Skippable(text[position]) then SkipBlanks(text, position + 1) else position
  }

  // Where the next slice starts, before blanks are skipped.
  function StepBack(overlap: int, position: nat, end: nat): (next: nat)
    requires position < end
    ensures position < next <= end && end - next <= if overlap > 0 then overlap else 0
  {
    var next := if overlap > 0 then end - overlap else end;
    if next <= position then end else next
  }

  datatype Slice = Slice(start: nat, end: nat)

  function Slices(text: string, size: nat, overlap: int, position: nat): seq<Slice>
    requires size >= 1 && position <= |text|
    decreases |text| - position
  {
    if position >= |text| then []
    else
      var end := SliceEnd(text, size, position);
      [Slice(position, end)]
      + if end >= |text| then [] else Slices(text, size, overlap, SkipBlanks(text, StepBack(overlap, position, end)))
  }

  function PartOf(text: string, slice: Slice): string {
    if slice.start <= slice.end <= |text| then text[slice.start..slice.end] else ""
  }

  // The slices that are not blank, as text.
  function Kept(text: string, slices: seq<Slice>): seq<string> {
    if slices == [] then []
    else if Blank(PartOf(text, slices[0])) then Kept(text, slices[1..])
    else [PartOf(text, slices[0])] + Kept(text, slices[1..])
  }

  predicate BlankBetween(text: string, from: nat, to: nat) {
    forall k :: from <= k < to && k < |text| ==> IsSpace(text[k])
  }

  // What slicing promises from `position` on: budgeted slices that move forward, overlap by at most
  // `overlap`, and leave out nothing but whitespace.
  predicate Sliced(text: string, size: nat, overlap: nat, slices: seq<Slice>, position: nat)
    decreases |slices|
  {
    if slices == [] then BlankBetween(text, position, |text|)
    else
      && position == slices[0].start < slices[0].end <= |text|
      && slices[0].end - position <= size
      && if |slices| == 1 then BlankBetween(text, slices[0].end, |text|)
         else
           && position < slices[1].start
           && slices[0].end - slices[1].start <= overlap
           && BlankBetween(text, slices[0].end, slices[1].start)
           && Sliced(text, size, overlap, slices[1..], slices[1].start)
  }

  lemma {:induction false} SlicesAreSliced(text: string, size: nat, overlap: int, position: nat)
    requires size >= 1 && position <= |text|
    ensures Sliced(text, size, if overlap > 0 then overlap else 0, Slices(text, size, overlap, position), position)
    decreases |text| - position
  {
    if position >= |text| {
    } else {
      var end := SliceEnd(text, size, position);
      if end < |text| {
        var next := SkipBlanks(text, StepBack(overlap, position, end));
        SlicesAreSliced(text, size, overlap, next);
        assert Slices(text, size, overlap, position)[1..] == Slices(text, size, overlap, next);
        assert BlankBetween(text, end, next);
      }
    }
  }

  // A slice starts `overlap` characters before the end of the one before, or at that end when this would not
  // move forward, blanks skipped.
  lemma {:induction false} SlicesStepBack(text: string, size: nat, overlap: int, position: nat, i: nat)
    requires size >= 1 && position <= |text| && i + 1 < |Slices(text, size, overlap, position)|
    ensures var a, b := Slices(text, size, overlap, position)[i], Slices(text, size, overlap, position)[i + 1];
            var back := if 0 < overlap < a.end - a.start then a.end - overlap else a.end;
            back <= b.start <= |text| && BlankBetween(text, back, b.start)
              && (b.start < |text| ==> !Skippable(text[b.start]))
    decreases |text| - position
  {
    var end := SliceEnd(text, size, position);
    var next := SkipBlanks(text, StepBack(overlap, position, end));
    assert Slices(text, size, overlap, position)[1..] == Slices(text, size, overlap, next);
    if i > 0 {
      SlicesStepBack(text, size, overlap, next, i - 1);
    } else {
      assert Slices(text, size, overlap, next)[0].start == next;
    }
  }

  function SplitByChars(text: string, size: int, overlap: int): seq<string> {
    var budget := if size < 1 then 1 else size;
    if |text| <= budget then
      if Blank(text) then [] else [text]
    else
      Kept(text, Slices(text, budget, overlap, 0))
  }

  // The shortcut for texts within the budget is slicing too: their one slice is the whole text.
  lemma ShortcutIsSlicing(text: string, size: int, overlap: int)
    ensures SplitByChars(text, size, overlap) == Kept(text, Slices(text, if size < 1 then 1 else size, overlap, 0))
  {
    var budget := if size < 1 then 1 else size;
    if 0 < |text| <= budget {
      var slices := Slices(text, budget, overlap, 0);
      assert slices == [Slice(0, |text|)] && slices[1..] == [];
      assert PartOf(text, slices[0]) == text;
    }
  }

  // Keeping goes slice by slice and in order: a blank slice is dropped, any other kept as it stands in the text.
  lemma {:induction false} KeptSliceBySlice(text: string, before: seq<Slice>, slice: Slice, after: seq<Slice>)
    requires slice.start <= slice.end <= |text|
    ensures var part := text[slice.start..slice.end];
            Kept(text, before + [slice] + after)
            == Kept(text, before) + (if Blank(part) then [] else [part]) + Kept(text, after)
  {
    var all := before + [slice] + after;
    if before == [] {
      assert all[1..] == after;
    } else {
      KeptSliceBySlice(text, before[1..], slice, after);
      assert all[1..] == before[1..] + [slice] + after;
    }
  }

  // The slices from `position` on, one step at a time.
  lemma NextSlice(text: string, size: nat, overlap: int, position: nat, end: nat, next: nat)
    requires size >= 1 && position < |text| && end == SliceEnd(text, size, position)
    requires next == if end >= |text| then |text| else SkipBlanks(text, StepBack(overlap, position, end))
    ensures Kept(text, Slices(text, size, overlap, position))
         == (if Blank(text[position..end]) then [] else [text[position..end]])
           + Kept(text, Slices(text, size, overlap, next))
  {
    var slices := Slices(text, size, overlap, position);
    assert slices[0] == Slice(position, end) && slices[1..] == Slices(text, size, overlap, next);
    assert PartOf(text, slices[0]) == text[position..end];
  }

  method SplitByCharsLoop(text: string, size: int, overlap: int) returns (parts: seq<string>)
    ensures parts == SplitByChars(text, size, overlap)
  {
    var budget: nat := if size < 1 then 1 else size;
    if |text| <= budget {
      return if Blank(text) then [] else [text];
    }
    parts := SliceLoop(text, budget, overlap);
  }

  method SliceLoop(text: string, budget: nat, overlap: int) returns (parts: seq<string>)
    requires budget >= 1
    ensures parts == Kept(text, Slices(text, budget, overlap, 0))
  {
    parts := [];
    var position, length: nat := 0, |text|;
    ghost var whole := Kept(text, Slices(text, budget, overlap, 0));
    ghost var rest := whole;
    while position < length
      invariant position <= length && rest == Kept(text, Slices(text, budget, overlap, position))
      invariant whole == parts + rest
      decreases length - position
    {
      var end := FindEnd(text, budget, position);
      ghost var next := if end >= length then length else SkipBlanks(text, StepBack(overlap, position, end));
      NextSlice(text, budget, overlap, position, end, next);
      rest := Kept(text, Slices(text, budget, overlap, next));
      Associate(parts, if Blank(text[position..end]) then [] else [text[position..end]], rest);
      parts := AddPart(parts, text[position..end]);
      if end >= length {
        break;
      }
      position := FindNext(text, overlap, position, end);
    }
    assert rest == [];
  }

  method AddPart(parts: seq<string>, part: string) returns (more: seq<string>)
    ensures more == parts + if Blank(part) then [] else [part]
  {
    more := parts;
    if !Blank(part) {
      more := more + [part];
    }
  }

  method FindEnd(text: string, size: nat, position: nat) returns (end: nat)
    requires size >= 1 && position < |text|
    ensures end == SliceEnd(text, size, position)
  {
    end := Min(position + size, |text|);
    if end < |text| {
      var boundary := RFind(text, ' ', position, end);
      if boundary > position {
        end := boundary;
      }
    }
  }

  method FindNext(text: string, overlap: int, position: nat, end: nat) returns (next: nat)
    requires position < end <= |text|
    ensures next == SkipBlanks(text, StepBack(overlap, position, end))
  {
    var nextPosition := if overlap > 0 then end - overlap else end;
    if nextPosition <= position {
      nextPosition := end;
    }
    next := SkipBlanksLoop(text, nextPosition);
  }

  method SkipBlanksLoop(text: string, position: nat) returns (next: nat)
    requires position <= |text|
    ensures next == SkipBlanks(text, position)
  {
    next := position;
    while next < |text| && Skippable(text[next])
      invariant position <= next <= |text| && SkipBlanks(text, next) == SkipBlanks(text, position)
    {
      next := next + 1;
    }
  }

  // The characters of a text that are not whitespace.
  function Solids(text: string): string {
    if text == "" then "" else (if IsSpace(text[0]) then [] else [text[0]]) + Solids(text[1..])
  }

  function Concat(parts: seq<string>): string {
    if parts == [] then "" else parts[0] + Concat(parts[1..])
  }

  lemma {:induction false} SolidsConcat(a: string, b: string)
    ensures Solids(a + b) == Solids(a) + Solids(b)
  {
    if a == "" {
      assert a + b == b;
    } else {
      SolidsConcat(a[1..], b);
      assert (a + b)[1..] == a[1..] + b;
      Associate(if IsSpace(a[0]) then [] else [a[0]], Solids(a[1..]), Solids(b));
    }
  }

  lemma {:induction false} SolidsOfBlank(text: string)
    requires Blank(text)
    ensures Solids(text) == ""
  {
    if text == "" {
    } else {
      SolidsOfBlank(text[1..]);
    }
  }

  lemma SolidsSplitAt(text: string, from: nat, to: nat)
    requires from <= to <= |text|
    ensures Solids(text[from..]) == Solids(text[from..to]) + Solids(text[to..])
  {
    assert text[from..] == text[from..to] + text[to..];
    SolidsConcat(text[from..to], text[to..]);
  }

  lemma SolidsOfSpan(text: string, from: nat, to: nat)
    requires from <= to <= |text| && BlankBetween(text, from, to)
    ensures Solids(text[from..]) == Solids(text[to..])
  {
    SolidsSplitAt(text, from, to);
    SolidsOfBlank(text[from..to]);
  }

  lemma SolidsOfPart(part: string, rest: seq<string>)
    ensures Solids(Concat((if Blank(part) then [] else [part]) + rest)) == Solids(part) + Solids(Concat(rest))
  {
    if Blank(part) {
      SolidsOfBlank(part);
      assert [] + rest == rest;
    } else {
      assert ([part] + rest)[1..] == rest;
      SolidsConcat(part, Concat(rest));
    }
  }

  // With no overlap, slicing keeps every character that is not whitespace, once and in order.
  lemma {:induction false} SlicesKeepSolids(text: string, size: nat, overlap: int, position: nat)
    requires size >= 1 && overlap <= 0 && position <= |text|
    ensures Solids(Concat(Kept(text, Slices(text, size, overlap, position)))) == Solids(text[position..])
    decreases |text| - position
  {
    if position >= |text| {
    } else {
      var end := SliceEnd(text, size, position);
      var next := if end >= |text| then |text| else SkipBlanks(text, end);
      NextSlice(text, size, overlap, position, end, next);
      SolidsOfPart(text[position..end], Kept(text, Slices(text, size, overlap, next)));
      SlicesKeepSolids(text, size, overlap, next);
      SolidsOfSpan(text, end, next);
      SolidsSplitAt(text, position, end);
    }
  }

  lemma SplitByCharsKeepsSolids(text: string, size: int, overlap: int)
    requires overlap <= 0
    ensures Solids(Concat(SplitByChars(text, size, overlap))) == Solids(text)
  {
    var budget := if size < 1 then 1 else size;
    if |text| <= budget {
      SolidsOfPart(text, []);
      assert [text] + [] == [text];
      assert Solids(text) + "" == Solids(text);
    } else {
      SlicesKeepSolids(text, budget, overlap, 0);
      assert text[0..] == text;
    }
  }

  lemma {:induction false} SlicedPartsFit(text: string, size: nat, overlap: nat, slices: seq<Slice>, position: nat,
                                          i: nat)
    requires Sliced(text, size, overlap, slices, position) && i < |Kept(text, slices)|
    ensures |Kept(text, slices)[i]| <= size
    decreases |slices|
  {
    if |slices| <= 1 {
    } else {
      var blank := Blank(PartOf(text, slices[0]));
      if blank || i > 0 {
        SlicedPartsFit(text, size, overlap, slices[1..], slices[1].start, if blank then i else i - 1);
      }
    }
  }

  // Every part is within the budget, for every size and overlap.
  lemma PartsFitBudget(text: string, size: int, overlap: int, i: nat)
    requires i < |SplitByChars(text, size, overlap)|
    ensures |SplitByChars(text, size, overlap)[i]| <= if size < 1 then 1 else size
  {
    var budget := if size < 1 then 1 else size;
    if |text| > budget {
      SlicesAreSliced(text, budget, overlap, 0);
      SlicedPartsFit(text, budget, if overlap > 0 then overlap else 0, Slices(text, budget, overlap, 0), 0, i);
    }
  }

  lemma {:induction false} SliceCovering(text: string, size: nat, overlap: nat, slices: seq<Slice>, position: nat,
                                         k: nat)
    returns (slice: Slice)
    requires Sliced(text, size, overlap, slices, position) && position <= k < |text| && !IsSpace(text[k])
    ensures slice in slices && slice.start <= k < slice.end <= |text| && PartOf(text, slice) in Kept(text, slices)
    ensures slice.end - slice.start <= size
    decreases |slices|
  {
    assert slices != [];
    if k < slices[0].end {
      slice := slices[0];
      assert PartOf(text, slice)[k - slice.start] == text[k];
    } else {
      assert |slices| > 1 && slices[1].start <= k;
      slice := SliceCovering(text, size, overlap, slices[1..], slices[1].start, k);
    }
  }

  // Every character that is not whitespace lies in some part, whatever the size and the overlap.
  lemma EverySolidIsCovered(text: string, size: int, overlap: int, k: nat) returns (slice: Slice)
    requires k < |text| && !IsSpace(text[k])
    ensures slice.start <= k < slice.end <= |text| && slice.end - slice.start <= if size < 1 then 1 else size
    ensures text[slice.start..slice.end] in SplitByChars(text, size, overlap)
  {
    var budget: nat := if size < 1 then 1 else size;
    if |text| <= budget {
      slice := Slice(0, |text|);
      assert text[0..|text|] == text;
    } else {
      SlicesAreSliced(text, budget, overlap, 0);
      slice := SliceCovering(text, budget, if overlap > 0 then overlap else 0, Slices(text, budget, overlap, 0), 0, k);
    }
  }
}
