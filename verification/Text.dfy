/** Python's whitespace-separated words, and the string operations the chunkers use. */
module Text {
  // The characters Python's str.isspace, split and strip treat as whitespace.
  predicate IsSpace(c: char) {
    || '\t' <= c <= '\r' || '\U{1c}' <= c <= ' ' || c == '\U{85}' || c == '\U{a0}' || c == '\U{1680}'
    || '\U{2000}' <= c <= '\U{200a}' || c == '\U{2028}' || c == '\U{2029}' || c == '\U{202f}'
    || c == '\U{205f}' || c == '\U{3000}'
  }

  predicate Blank(s: string) {
    forall i :: 0 <= i < |s| ==> IsSpace(s[i])
  }

  // How many leading characters are not whitespace.
  function WordLength(s: string): (n: nat)
    ensures n <= |s|
    ensures forall i :: 0 <= i < n ==> !IsSpace(s[i])
    ensures n < |s| ==> IsSpace(s[n])
  {
    if s == "" || IsSpace(s[0]) then 0 else 1 + WordLength(s[1..])
  }

  // A word: not empty, no whitespace in it.
  predicate Solid(word: string) {
    word != "" && forall j :: 0 <= j < |word| ==> !IsSpace(word[j])
  }

  predicate AllSolid(words: seq<string>) {
    forall i :: 0 <= i < |words| ==> Solid(words[i])
  }

  lemma WordLengthIs(s: string, n: nat)
    requires n <= |s| && (forall i :: 0 <= i < n ==> !IsSpace(s[i])) && (n < |s| ==> IsSpace(s[n]))
    ensures WordLength(s) == n
  {
  }

  // The maximal runs of characters that are not whitespace.
  function Words(s: string): (words: seq<string>)
    ensures AllSolid(words)
    decreases |s|
  {
    if s == "" then []
    else if IsSpace(s[0]) then Words(s[1..])
    else
      var n := WordLength(s);
      [s[..n]] + Words(s[n..])
  }

  function LStrip(s: string): (r: string)
    ensures r != "" ==> !IsSpace(r[0])
  {
    if s == "" || !IsSpace(s[0]) then s else LStrip(s[1..])
  }

  function RStrip(s: string): (r: string)
    ensures r != "" ==> !IsSpace(r[|r| - 1])
  {
    if s == "" || !IsSpace(s[|s| - 1]) then s else RStrip(s[..|s| - 1])
  }

  function Strip(s: string): string {
    RStrip(LStrip(s))
  }

  lemma {:induction false} LeadingBlanks(s: string) returns (before: string)
    ensures s == before + LStrip(s) && Blank(before)
  {
    if s == "" || !IsSpace(s[0]) {
      before := "";
    } else {
      var more := LeadingBlanks(s[1..]);
      before := [s[0]] + more;
      Associate([s[0]], more, LStrip(s[1..]));
      assert s == [s[0]] + s[1..];
    }
  }

  lemma {:induction false} TrailingBlanks(s: string) returns (after: string)
    ensures s == RStrip(s) + after && Blank(after)
  {
    if s == "" || !IsSpace(s[|s| - 1]) {
      after := "";
    } else {
      var last := [s[|s| - 1]];
      var more := TrailingBlanks(s[..|s| - 1]);
      after := more + last;
      Associate(RStrip(s[..|s| - 1]), more, last);
      assert s == s[..|s| - 1] + last;
    }
  }

  // A text is its stripped core between blank ends.
  lemma StripSplits(s: string) returns (before: string, after: string)
    ensures s == before + Strip(s) + after && Blank(before) && Blank(after)
  {
    before := LeadingBlanks(s);
    after := TrailingBlanks(LStrip(s));
    Associate(before, Strip(s), after);
  }

  lemma StripEndsSolid(s: string)
    requires Strip(s) != ""
    ensures !IsSpace(Strip(s)[0]) && !IsSpace(Strip(s)[|Strip(s)| - 1])
  {
    var after := TrailingBlanks(LStrip(s));
    assert Strip(s)[0] == LStrip(s)[0];
  }

  lemma {:induction false} LStripIs(before: string, rest: string)
    requires Blank(before) && (rest != "" ==> !IsSpace(rest[0]))
    ensures LStrip(before + rest) == rest
  {
    if before == "" {
      assert before + rest == rest;
    } else {
      var s := before + rest;
      assert s[0] == before[0] && s[1..] == before[1..] + rest;
      LStripIs(before[1..], rest);
      assert LStrip(s) == LStrip(s[1..]);
    }
  }

  lemma {:induction false} RStripIs(rest: string, after: string)
    requires Blank(after) && (rest != "" ==> !IsSpace(rest[|rest| - 1]))
    ensures RStrip(rest + after) == rest
  {
    if after == "" {
      assert rest + after == rest;
    } else {
      var s, init := rest + after, after[..|after| - 1];
      assert s[|s| - 1] == after[|after| - 1] && s[..|s| - 1] == rest + init;
      RStripIs(rest, init);
      assert RStrip(s) == RStrip(s[..|s| - 1]);
    }
  }

  // What stands between blank ends, not starting or ending with whitespace itself, is the stripped text.
  lemma StripIsCore(before: string, core: string, after: string)
    requires Blank(before) && Blank(after) && core != "" && !IsSpace(core[0]) && !IsSpace(core[|core| - 1])
    ensures Strip(before + core + after) == core
  {
    Associate(before, core, after);
    assert (core + after)[0] == core[0];
    LStripIs(before, core + after);
    RStripIs(core, after);
  }

  // str.find for one character; -1 when it does not occur.
  function Find(s: string, c: char): (i: int)
    ensures -1 <= i < |s|
    ensures if i < 0 then c !in s else s[i] == c && c !in s[..i]
  {
    if s == "" then -1
    else if s[0] == c then 0
    else
      var i := Find(s[1..], c);
      if i < 0 then -1 else i + 1
  }

  function Min(a: int, b: int): int {
    if a < b then a else b
  }

  // The text behind a position; a negative one counts from the end.
  function From(s: string, i: int): string {
    if i >= |s| then "" else if i >= 0 then s[i..] else if -i >= |s| then s else s[|s| + i..]
  }

  function Join(parts: seq<string>, separator: string): string {
    if parts == [] then ""
    else if |parts| == 1 then parts[0]
    else parts[0] + separator + Join(parts[1..], separator)
  }

  // Joining one part more puts the separator and that part behind the rest.
  lemma {:induction false} JoinSnoc(parts: seq<string>, last: string, separator: string)
    ensures Join(parts + [last], separator) == if parts == [] then last else Join(parts, separator) + separator + last
  {
    if parts == [] {
    } else {
      JoinSnoc(parts[1..], last, separator);
      assert (parts + [last])[1..] == parts[1..] + [last];
    }
  }

  function Flatten<T>(groups: seq<seq<T>>): seq<T> {
    if groups == [] then [] else groups[0] + Flatten(groups[1..])
  }

  lemma Associate<T>(a: seq<T>, b: seq<T>, c: seq<T>)
    ensures a + b + c == a + (b + c)
  {
  }

  lemma {:induction false} FlattenConcat<T>(a: seq<seq<T>>, b: seq<seq<T>>)
    ensures Flatten(a + b) == Flatten(a) + Flatten(b)
  {
    if a == [] {
      assert a + b == b;
    } else {
      FlattenConcat(a[1..], b);
      assert (a + b)[1..] == a[1..] + b;
      Associate(a[0], Flatten(a[1..]), Flatten(b));
    }
  }

  lemma WordsAfterSpace(a: string)
    requires a != "" && IsSpace(a[0])
    ensures Words(a) == Words(a[1..])
  {
  }

  // Splitting off the first word, once its length is known.
  lemma FirstWord(s: string, n: nat)
    requires 0 < n <= |s| && Solid(s[..n]) && (n < |s| ==> IsSpace(s[n]))
    ensures Words(s) == [s[..n]] + Words(s[n..])
  {
    assert forall i :: 0 <= i < n ==> s[i] == s[..n][i];
    WordLengthIs(s, n);
  }

  // No word can run from the end of one text into the beginning of the next.
  predicate Apart(a: string, b: string) {
    a == "" || b == "" || IsSpace(a[|a| - 1]) || IsSpace(b[0])
  }

  lemma ConcatAtSpace(a: string, b: string)
    requires a != "" && IsSpace(a[0])
    requires Words(a[1..] + b) == Words(a[1..]) + Words(b)
    ensures Words(a + b) == Words(a) + Words(b)
  {
    WordsAfterSpace(a);
    WordsAfterSpace(a + b);
    assert (a + b)[1..] == a[1..] + b;
  }

  lemma ConcatAtWord(a: string, b: string, n: nat)
    requires 0 < n <= |a| && Solid(a[..n]) && (n < |a| ==> IsSpace(a[n])) && Apart(a[n..], b) && Apart(a, b)
    requires Words(a[n..] + b) == Words(a[n..]) + Words(b)
    ensures Words(a + b) == Words(a) + Words(b)
  {
    FirstWord(a, n);
    assert (a + b)[..n] == a[..n] && (a + b)[n..] == a[n..] + b;
    FirstWord(a + b, n);
    Associate([a[..n]], Words(a[n..]), Words(b));
  }

  // Words never span a whitespace boundary.
  lemma {:induction false} WordsConcat(a: string, b: string)
    requires Apart(a, b)
    ensures Words(a + b) == Words(a) + Words(b)
    decreases |a|
  {
    if a == "" {
      assert a + b == b;
    } else if IsSpace(a[0]) {
      WordsConcat(a[1..], b);
      ConcatAtSpace(a, b);
    } else {
      var n := WordLength(a);
      WordsConcat(a[n..], b);
      ConcatAtWord(a, b, n);
    }
  }

  lemma {:induction false} BlankIffNoWords(s: string)
    ensures Blank(s) <==> Words(s) == []
    decreases |s|
  {
    if s != "" && IsSpace(s[0]) {
      BlankIffNoWords(s[1..]);
      assert Blank(s) <==> Blank(s[1..]) by {
        assert forall i :: 0 <= i < |s[1..]| ==> s[1..][i] == s[i + 1];
        assert forall i :: 1 <= i < |s| ==> s[i] == s[1..][i - 1];
      }
    }
  }

  lemma {:induction false} LStripKeepsWords(s: string)
    ensures Words(LStrip(s)) == Words(s)
  {
    if s != "" && IsSpace(s[0]) {
      LStripKeepsWords(s[1..]);
    }
  }

  lemma {:induction false} RStripKeepsWords(s: string)
    ensures Words(RStrip(s)) == Words(s)
  {
    if s != "" && IsSpace(s[|s| - 1]) {
      var init, last := s[..|s| - 1], s[|s| - 1..];
      RStripKeepsWords(init);
      assert s == init + last;
      WordsConcat(init, last);
      assert last[1..] == "";
    }
  }

  lemma StripKeepsWords(s: string)
    ensures Words(Strip(s)) == Words(s)
  {
    LStripKeepsWords(s);
    RStripKeepsWords(LStrip(s));
  }

  lemma SolidIsOneWord(word: string)
    requires Solid(word)
    ensures Words(word) == [word]
  {
    WordLengthIs(word, |word|);
    assert word[..|word|] == word;
    assert Words(word[|word|..]) == [];
  }

  // Joining solid words by a space and splitting again gives the words back.
  lemma {:induction false} WordsOfJoin(words: seq<string>)
    requires AllSolid(words)
    ensures Words(Join(words, " ")) == words
  {
    if |words| == 1 {
      SolidIsOneWord(words[0]);
    } else if |words| > 1 {
      WordsOfJoin(words[1..]);
      SolidIsOneWord(words[0]);
      var rest := " " + Join(words[1..], " ");
      assert Join(words, " ") == words[0] + rest;
      WordsConcat(words[0], rest);
      WordsAfterSpace(rest);
      assert rest[1..] == Join(words[1..], " ");
    }
  }
}
