/** `cropString`: shortening a text to a length budget at word boundaries.
    A `char` here stands for one UTF-16 code unit of the original string;
    surrogate halves, which a `char` cannot hold, are encoded as some
    non-whitespace `char`, and under that encoding `|s|` is the JavaScript
    `s.length`. */
module Crop {

  /** The characters matched by the regular-expression class `\s`, which are
      also exactly the ones `String.prototype.trim` removes: the ECMAScript
      WhiteSpace and LineTerminator characters. */
  predicate IsWhitespace(c: char) {
    c == '\t' || c == '\n' || c == '\U{000B}' || c == '\U{000C}' || c == '\r'
    || c == ' ' || c == '\U{00A0}' || c == '\U{1680}' || ('\U{2000}' <= c <= '\U{200A}')
    || c == '\U{2028}' || c == '\U{2029}' || c == '\U{202F}' || c == '\U{205F}'
    || c == '\U{3000}' || c == '\U{FEFF}'
  }

  predicate NoWhitespace(s: string) {
    forall k :: 0 <= k < |s| ==> !IsWhitespace(s[k])
  }

  // ---------------------------------------------------------------------
  // String.prototype.split(/\s+/) and String.prototype.trim
  // ---------------------------------------------------------------------

  /** The first whitespace position at or after `i`, or `|s|`. */
  function WordEnd(s: string, i: nat): (j: nat)
    requires i <= |s|
    ensures i <= j <= |s|
    ensures j < |s| ==> IsWhitespace(s[j])
    ensures forall k :: i <= k < j ==> !IsWhitespace(s[k])
    decreases |s| - i
  {
    if i == |s| || IsWhitespace(s[i]) then i else WordEnd(s, i + 1)
  }

  /** The first non-whitespace position at or after `i`, or `|s|`. */
  function RunEnd(s: string, i: nat): (j: nat)
    requires i <= |s|
    ensures i <= j <= |s|
    ensures j < |s| ==> !IsWhitespace(s[j])
    ensures forall k :: i <= k < j ==> IsWhitespace(s[k])
    decreases |s| - i
  {
    if i == |s| || !IsWhitespace(s[i]) then i else RunEnd(s, i + 1)
  }

  /** `s.split(/\s+/)`: the pieces between maximal whitespace runs. A leading
      (trailing) run yields an empty first (last) piece, and the empty string
      splits into one empty piece. */
  function Split(s: string): (words: seq<string>)
    ensures |words| >= 1
    ensures forall k :: 0 <= k < |words| ==> NoWhitespace(words[k])
    decreases |s|
  {
    var i := WordEnd(s, 0);
    if i == |s| then [s]
    else [s[..i]] + Split(s[RunEnd(s, i)..])
  }

  /** Trailing whitespace removed. */
  function TrimEnd(s: string): (r: string)
    ensures |r| <= |s| && r == s[..|r|]
    ensures r == [] || !IsWhitespace(r[|r| - 1])
    ensures forall k :: |r| <= k < |s| ==> IsWhitespace(s[k])
  {
    if s != [] && IsWhitespace(s[|s| - 1]) then TrimEnd(s[..|s| - 1]) else s
  }

  /** `s.trim()`: the piece of `s` that starts at its first non-whitespace
      character and neither starts nor ends with whitespace; everything
      dropped is whitespace. */
  function Trim(s: string): (r: string)
    ensures |r| <= |s|
    ensures r == [] || (!IsWhitespace(r[0]) && !IsWhitespace(r[|r| - 1]))
    ensures var a := RunEnd(s, 0);
            a + |r| <= |s| && r == s[a..a + |r|]
            && forall k :: a + |r| <= k < |s| ==> IsWhitespace(s[k])
  {
    var a := RunEnd(s, 0);
    var r := TrimEnd(s[a..]);
    assert r == s[a..][..|r|] == s[a..a + |r|];
    r
  }

  /** Appending a space never changes what `trim` keeps. */
  lemma TrimTrailingSpace(s: string)
    ensures Trim(s + " ") == Trim(s)
  {
    var t := s + " ";
    var a, b := RunEnd(s, 0), RunEnd(t, 0);
    if a < |s| {
      assert forall k :: 0 <= k <= a ==> t[k] == s[k];
      assert b == a;
      assert t[a..] == s[a..] + " ";
      assert (s[a..] + " ")[..|s[a..]|] == s[a..];
    } else {
      assert b == |t|;
    }
  }

  // ---------------------------------------------------------------------
  // The greedy accumulation
  // ---------------------------------------------------------------------

  /** What keeping `words` charges against the budget: each word's length
      plus one for the space that follows it. */
  function Cost(words: seq<string>): nat {
    if words == [] then 0 else |words[0]| + 1 + Cost(words[1..])
  }

  /** The text the loop accumulates from `words`: each word followed by one
      space. */
  function Spaced(words: seq<string>): string {
    if words == [] then [] else words[0] + " " + Spaced(words[1..])
  }

  /** The words joined by single spaces. */
  function Join(words: seq<string>): string {
    if words == [] then []
    else if |words| == 1 then words[0]
    else words[0] + " " + Join(words[1..])
  }

  /** How many leading words the loop keeps when `used` characters of the
      budget `maxLength` are already spent: it keeps a word while the running
      total stays at most `maxLength`, and stops at the first that does not fit. */
  function GreedyCount(words: seq<string>, maxLength: int, used: int): (k: nat)
    ensures k <= |words|
  {
    if words == [] || used + |words[0]| + 1 > maxLength then 0
    else 1 + GreedyCount(words[1..], maxLength, used + |words[0]| + 1)
  }

  /** The words of `s` that survive the crop. */
  function KeptWords(s: string, maxLength: int): (kept: seq<string>)
    ensures kept <= Split(s)
  {
    var words := Split(s);
    words[..GreedyCount(words, maxLength, 0)]
  }

  /** What `cropString(s, maxLength)` returns. */
  function Cropped(s: string, maxLength: int): string {
    if |s| <= maxLength then s
    else
      var kept := Trim(Spaced(KeptWords(s, maxLength)));
      if |kept| < |s| then kept + "..." else kept
  }

  // ---------------------------------------------------------------------
  // The loop
  // ---------------------------------------------------------------------

  /** `cropString`: the input when it is within the budget; otherwise the
      greedily kept whole words, trimmed, with "..." appended when that is
      shorter than the input. */
  method CropString(s: string, maxLength: int) returns (r: string)
    ensures r == Cropped(s, maxLength)
    ensures |s| <= maxLength ==> r == s
  {
    if |s| <= maxLength {
      return s;
    }
    var words := Split(s);
    var cropped: string := "";
    var currentLength := 0;
    var i := 0;
    while i < |words|
      invariant 0 <= i <= |words|
      invariant cropped == Spaced(words[..i])
      invariant currentLength == Cost(words[..i])
      invariant GreedyCount(words, maxLength, 0) == i + GreedyCount(words[i..], maxLength, currentLength)
    {
      var word := words[i];
      if currentLength + |word| + 1 <= maxLength {
        assert words[i..][1..] == words[i + 1..];
        assert words[..i + 1] == words[..i] + [word];
        SpacedAppend(words[..i], word);
        CostAppend(words[..i], word);
        cropped := cropped + word + " ";
        currentLength := currentLength + |word| + 1;
        i := i + 1;
      } else {
        break;
      }
    }
    assert i == GreedyCount(words, maxLength, 0);
    cropped := Trim(cropped);
    if |cropped| < |s| {
      cropped := cropped + "...";
    }
    r := cropped;
  }

  lemma {:induction false} SpacedAppend(words: seq<string>, w: string)
    ensures Spaced(words + [w]) == Spaced(words) + w + " "
  {
    if words != [] {
      assert (words + [w])[1..] == words[1..] + [w];
      SpacedAppend(words[1..], w);
    }
  }

  lemma {:induction false} CostAppend(words: seq<string>, w: string)
    ensures Cost(words + [w]) == Cost(words) + |w| + 1
  {
    if words != [] {
      assert (words + [w])[1..] == words[1..] + [w];
      CostAppend(words[1..], w);
    }
  }

  // ---------------------------------------------------------------------
  // Properties
  // ---------------------------------------------------------------------

  /** The accumulated text is as long as the budget it was charged. */
  lemma {:induction false} SpacedLength(words: seq<string>)
    ensures |Spaced(words)| == Cost(words)
  {
    if words != [] {
      SpacedLength(words[1..]);
    }
  }

  /** The accumulated text, trimmed, is the single-space join of the words,
      trimmed. */
  lemma {:induction false} SpacedTrimIsJoinTrim(words: seq<string>)
    ensures Trim(Spaced(words)) == Trim(Join(words))
  {
    if words != [] {
      SpacedIsJoinPlusSpace(words);
      TrimTrailingSpace(Join(words));
    }
  }

  lemma {:induction false} SpacedIsJoinPlusSpace(words: seq<string>)
    requires words != []
    ensures Spaced(words) == Join(words) + " "
  {
    if |words| > 1 {
      SpacedIsJoinPlusSpace(words[1..]);
    }
  }

  /** The greedy count is the length of the longest prefix whose cost fits
      the budget: that prefix fits, and every longer prefix does not, so no
      word after the first one that does not fit is kept, however short. */
  lemma {:induction false} GreedyIsLongestFit(words: seq<string>, maxLength: int, used: int)
    ensures var k := GreedyCount(words, maxLength, used);
            (k > 0 ==> used + Cost(words[..k]) <= maxLength)
            && forall j :: k < j <= |words| ==> used + Cost(words[..j]) > maxLength
  {
    var k := GreedyCount(words, maxLength, used);
    if words == [] {
    } else {
      var w := words[0];
      forall j | 1 <= j <= |words|
        ensures Cost(words[..j]) == |w| + 1 + Cost(words[1..][..j - 1])
      {
        assert words[..j][1..] == words[1..][..j - 1];
      }
      if used + |w| + 1 > maxLength {
        assert k == 0;
      } else {
        GreedyIsLongestFit(words[1..], maxLength, used + |w| + 1);
      }
    }
  }

  /** Over the budget, the result is the single-space join of the longest
      fitting prefix of the words, trimmed, followed by "...": that text is
      within the budget and so shorter than the input, and the result is at
      most three characters over the budget. (A negative budget with the empty
      input is the one case where nothing is appended.) */
  lemma CroppedTruncates(s: string, maxLength: int)
    requires |s| > maxLength
    ensures var words := Split(s);
            var kept := KeptWords(s, maxLength);
            var text := Trim(Join(kept));
            && kept == words[..|kept|]
            && (kept != [] ==> Cost(kept) <= maxLength)
            && (forall j :: |kept| < j <= |words| ==> Cost(words[..j]) > maxLength)
            && |text| <= (if maxLength < 0 then 0 else maxLength)
            && (s != [] ==> |text| < |s|)
            && Cropped(s, maxLength) == (if s == [] then [] else text + "...")
  {
    var words := Split(s);
    var kept := KeptWords(s, maxLength);
    GreedyIsLongestFit(words, maxLength, 0);
    SpacedTrimIsJoinTrim(kept);
    SpacedLength(kept);
  }

  /** Over a non-negative budget the result always ends in "..." and is at
      most three characters longer than the budget. */
  lemma CroppedLengthBound(s: string, maxLength: int)
    requires 0 <= maxLength < |s|
    ensures var r := Cropped(s, maxLength);
            |r| <= maxLength + 3 && |r| >= 3 && r[|r| - 3..] == "..."
  {
    CroppedTruncates(s, maxLength);
  }

  /** When the first word alone does not fit, the result is just "...". */
  lemma CroppedFirstWordTooLong(s: string, maxLength: int)
    requires |s| > maxLength && s != []
    requires |Split(s)[0]| + 1 > maxLength
    ensures Cropped(s, maxLength) == "..."
  {
    assert KeptWords(s, maxLength) == [];
  }

  /** A string without whitespace is a single piece. */
  lemma SplitWord(w: string)
    requires NoWhitespace(w)
    ensures Split(w) == [w]
  {
    assert WordEnd(w, 0) == |w|;
  }

  /** A whitespace-free word followed by one space and a text that does not
      start with whitespace splits into that word and the pieces of the text. */
  lemma SplitWordSpace(w: string, rest: string)
    requires NoWhitespace(w)
    requires rest == [] || !IsWhitespace(rest[0])
    ensures Split(w + " " + rest) == [w] + Split(rest)
  {
    var s := w + " " + rest;
    assert forall k :: 0 <= k < |w| ==> s[k] == w[k];
    assert s[|w|] == ' ';
    assert WordEnd(s, 0) == |w|;
    assert RunEnd(s, |w|) == |w| + 1;
    assert s[..|w|] == w && s[|w| + 1..] == rest;
  }

  /** `trim` leaves a string alone that neither starts nor ends with whitespace. */
  lemma TrimTrimmed(s: string)
    requires s == [] || (!IsWhitespace(s[0]) && !IsWhitespace(s[|s| - 1]))
    ensures Trim(s) == s
  {
    assert RunEnd(s, 0) == 0;
    assert s[0..] == s;
  }

  /** Splitting undoes joining: words that are non-empty and free of
      whitespace, joined by single spaces, split back into the same words. */
  lemma {:induction false} SplitJoin(words: seq<string>)
    requires words != []
    requires forall k :: 0 <= k < |words| ==> words[k] != [] && NoWhitespace(words[k])
    ensures Split(Join(words)) == words
  {
    if |words| == 1 {
      SplitWord(words[0]);
    } else {
      var rest := words[1..];
      SplitJoin(rest);
      JoinStart(rest);
      SplitWordSpace(words[0], Join(rest));
    }
  }

  /** A join of non-empty words starts with the first word's first character. */
  lemma {:induction false} JoinStart(words: seq<string>)
    requires words != [] && words[0] != []
    ensures Join(words) != [] && Join(words)[0] == words[0][0]
  {
  }

  /** The input with every maximal whitespace run replaced by one space,
      computed character by character. */
  function Collapse(s: string): (r: string)
    decreases |s|
  {
    if s == [] then []
    else if IsWhitespace(s[0]) then " " + Collapse(s[RunEnd(s, 0)..])
    else [s[0]] + Collapse(s[1..])
  }

  /** A whitespace-free prefix passes through `Collapse` unchanged. */
  lemma {:induction false} CollapsePrefix(s: string, k: nat)
    requires k <= |s|
    requires forall m :: 0 <= m < k ==> !IsWhitespace(s[m])
    ensures Collapse(s) == s[..k] + Collapse(s[k..])
  {
    if k > 0 {
      CollapsePrefix(s[1..], k - 1);
      assert s[1..][k - 1..] == s[k..];
      assert s[..k] == [s[0]] + s[1..][..k - 1];
    }
  }

  /** Searching for the end of a whitespace run in a suffix. */
  lemma RunEndSuffix(s: string, i: nat)
    requires i <= |s|
    ensures RunEnd(s[i..], 0) == RunEnd(s, i) - i
  {
    var a, b := RunEnd(s[i..], 0), RunEnd(s, i) - i;
    assert forall k :: 0 <= k < |s| - i ==> s[i..][k] == s[i + k];
  }

  /** The pieces of a split, joined by single spaces, are the input with each
      whitespace run collapsed to one space: the split keeps every character
      that is not whitespace, in order, and never breaks a word. */
  lemma {:induction false} JoinSplit(s: string)
    ensures Join(Split(s)) == Collapse(s)
    decreases |s|
  {
    var i := WordEnd(s, 0);
    if i == |s| {
      CollapsePrefix(s, i);
      assert s[..i] == s && s[i..] == [];
    } else {
      var j := RunEnd(s, i);
      JoinSplit(s[j..]);
      JoinSplitStep(s, i, j);
      CollapseStep(s, i, j);
    }
  }

  /** One step of the split: the first word, then the split of what follows
      the first whitespace run, joined by one space. */
  lemma JoinSplitStep(s: string, i: nat, j: nat)
    requires i == WordEnd(s, 0) && i < |s| && j == RunEnd(s, i)
    ensures Join(Split(s)) == s[..i] + " " + Join(Split(s[j..]))
  {
    JoinCons(s[..i], Split(s[j..]));
  }

  /** One step of `Collapse`: the first word, then one space for the first
      whitespace run. */
  lemma CollapseStep(s: string, i: nat, j: nat)
    requires i == WordEnd(s, 0) && i < |s| && j == RunEnd(s, i)
    ensures Collapse(s) == s[..i] + " " + Collapse(s[j..])
  {
    CollapsePrefix(s, i);
    CollapseRun(s, i);
  }

  /** `Collapse` at a whitespace run: the run becomes one space. */
  lemma CollapseRun(s: string, i: nat)
    requires i < |s| && IsWhitespace(s[i])
    ensures Collapse(s[i..]) == " " + Collapse(s[RunEnd(s, i)..])
  {
    var t := s[i..];
    assert t[0] == s[i];
    RunEndSuffix(s, i);
    assert t[RunEnd(t, 0)..] == s[RunEnd(s, i)..];
  }

  lemma JoinCons(w: string, rest: seq<string>)
    requires rest != []
    ensures Join([w] + rest) == w + " " + Join(rest)
  {
    assert ([w] + rest)[1..] == rest;
  }

  /** The words of the worked example below. */
  lemma ExampleSplit(s: string)
    requires s == "The quick brown fox"
    ensures Split(s) == ["The", "quick", "brown", "fox"]
  {
    var words := ["The", "quick", "brown", "fox"];
    assert s == Join(words);
    SplitJoin(words);
  }

  /** The words the crop keeps in the worked example below. */
  lemma ExampleWords(s: string)
    requires s == "The quick brown fox"
    ensures KeptWords(s, 10) == ["The", "quick"]
  {
    ExampleSplit(s);
    ExampleGreedy(Split(s));
  }

  /** Of the example's words, a budget of 10 keeps the first two. */
  lemma ExampleGreedy(words: seq<string>)
    requires words == ["The", "quick", "brown", "fox"]
    ensures words[..GreedyCount(words, 10, 0)] == ["The", "quick"]
  {
    assert GreedyCount(words[2..], 10, 10) == 0;
    assert GreedyCount(words[1..], 10, 4) == 1;
  }

  /** The worked example: "The" and "quick" cost 4 + 6 = 10, which fits a
      budget of 10; "brown" would bring it to 16. */
  lemma CroppedExample(s: string)
    requires s == "The quick brown fox"
    ensures Cropped(s, 10) == "The quick..."
  {
    ExampleWords(s);
    SpacedTrimIsJoinTrim(["The", "quick"]);
    assert Join(["The", "quick"]) == "The quick";
    TrimTrimmed("The quick");
  }

  /** The budget bounds the kept text, not the result: "a " costs 2, which
      fits a budget of 2, and "..." then makes the result longer than the
      three-character input. */
  lemma CroppedLongerThanInput(s: string)
    requires s == "a b"
    ensures Cropped(s, 2) == "a..."
    ensures |Cropped(s, 2)| > |s|
  {
    var words := ["a", "b"];
    assert Split(s) == words by {
      assert s == Join(words);
      SplitJoin(words);
    }
    assert GreedyCount(words[1..], 2, 2) == 0;
    assert KeptWords(s, 2) == ["a"];
    SpacedTrimIsJoinTrim(["a"]);
    TrimTrimmed("a");
  }

  /** Being over the budget does not always change the input: "..." has no
      word that fits a budget of 2, so the result is "" followed by "...". */
  lemma CroppedOverBudgetUnchanged(s: string)
    requires s == "..."
    ensures |s| > 2 && Cropped(s, 2) == s
  {
    assert KeptWords(s, 2) == [] by {
      SplitWord(s);
    }
  }
}
