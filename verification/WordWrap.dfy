/** Greedy word wrapping: the loop, what it loses, and that no other wrapping uses fewer lines. */
module WordWrap {

  // ---------------------------------------------------------------------------------------------
  // Words and lines
  // ---------------------------------------------------------------------------------------------

  /** text.split(' '): consecutive spaces give empty words, and the empty text gives one. */
  function Split(text: string): (words: seq<string>)
    ensures words != []
  {
    if text == "" then [""]
    else
      var front := Split(text[..|text| - 1]);
      var last := text[|text| - 1];
      if last == ' ' then front + [""]
      else front[..|front| - 1] + [front[|front| - 1] + [last]]
  }

  function Join(words: seq<string>): string {
    if words == [] then ""
    else if |words| == 1 then words[0]
    else Join(words[..|words| - 1]) + " " + words[|words| - 1]
  }

  lemma {:induction false} JoinSplit(text: string)
    ensures Join(Split(text)) == text
  {
    if text != "" {
      var front := text[..|text| - 1];
      var words := Split(front);
      JoinSplit(front);
      assert text == front + [text[|text| - 1]];
      if text[|text| - 1] == ' ' {
        assert (words + [""])[..|words|] == words;
      } else {
        JoinLonger(words, [text[|text| - 1]]);
      }
    }
  }

  lemma Regroup(a: string, b: string, c: string)
    ensures (a + b) + c == a + (b + c)
  {
  }

  lemma JoinLonger(words: seq<string>, more: string)
    requires words != []
    ensures Join(words[..|words| - 1] + [words[|words| - 1] + more]) == Join(words) + more
  {
    var n := |words| - 1;
    var longer := words[..n] + [words[n] + more];
    assert longer[..n] == words[..n];
    if n > 0 {
      assert Join(longer) == Join(words[..n]) + " " + (words[n] + more);
      assert Join(words) == Join(words[..n]) + " " + words[n];
      hide Join;
      Regroup(Join(words[..n]) + " ", words[n], more);
    }
  }

  /** No leading, trailing or double space. */
  predicate SingleSpaced(words: seq<string>) {
    forall i :: 0 <= i < |words| ==> words[i] != ""
  }

  // ---------------------------------------------------------------------------------------------
  // The loop
  // ---------------------------------------------------------------------------------------------

  /** The finished lines and the current one after some words. */
  function Progress(words: seq<string>, width: int): (seq<string>, string) {
    if words == [] then ([], "")
    else
      var (lines, current) := Progress(words[..|words| - 1], width);
      var word := words[|words| - 1];
      var candidate := if current != "" then current + " " + word else word;
      if |candidate| > width && current != "" then (lines + [current], word) else (lines, candidate)
  }

  function Wrapped(text: string, width: int): seq<string> {
    var (lines, current) := Progress(Split(text), width);
    if current != "" then lines + [current] else lines
  }

  method WrapWords(text: string, maxCharsPerLine: int) returns (lines: seq<string>)
    ensures lines == Wrapped(text, maxCharsPerLine)
  {
    var words := Split(text);
    lines := [];
    var current := "";
    for i := 0 to |words|
      invariant (lines, current) == Progress(words[..i], maxCharsPerLine)
    {
      assert words[..i + 1][..i] == words[..i];
      var word := words[i];
      var candidate := if current != "" then current + " " + word else word;
      if |candidate| > maxCharsPerLine && current != "" {
        lines := lines + [current];
        current := word;
      } else {
        current := candidate;
      }
    }
    assert words[..|words|] == words;
    if current != "" {
      lines := lines + [current];
    }
  }

  // ---------------------------------------------------------------------------------------------
  // Wrappings in general
  // ---------------------------------------------------------------------------------------------

  function Flatten(groups: seq<seq<string>>): seq<string> {
    if groups == [] then [] else Flatten(groups[..|groups| - 1]) + groups[|groups| - 1]
  }

  /** A line may be too long only if it is one word. */
  predicate LineOk(group: seq<string>, width: int) {
    group != [] && (|group| == 1 || |Join(group)| <= width)
  }

  /** Any way of cutting the words into lines, in order, within the width. */
  ghost predicate IsWrapping(groups: seq<seq<string>>, words: seq<string>, width: int) {
    Flatten(groups) == words && forall i :: 0 <= i < |groups| ==> LineOk(groups[i], width)
  }

  function Render(groups: seq<seq<string>>): seq<string> {
    if groups == [] then [] else Render(groups[..|groups| - 1]) + [Join(groups[|groups| - 1])]
  }

  /** What the loop builds, as groups of words. */
  function Greedy(words: seq<string>, width: int): (groups: seq<seq<string>>)
    ensures words != [] ==> groups != []
  {
    if words == [] then []
    else
      var groups := Greedy(words[..|words| - 1], width);
      var word := words[|words| - 1];
      if groups == [] then [[word]]
      else
        var last := groups[|groups| - 1] + [word];
        if |Join(last)| > width then groups + [[word]] else groups[..|groups| - 1] + [last]
  }

  lemma JoinAppend(group: seq<string>, word: string)
    requires group != []
    ensures Join(group + [word]) == Join(group) + " " + word
  {
    assert (group + [word])[..|group|] == group;
  }

  lemma {:induction false} GreedyIsWrapping(words: seq<string>, width: int)
    ensures IsWrapping(Greedy(words, width), words, width)
  {
    if words != [] {
      var front, word := words[..|words| - 1], words[|words| - 1];
      var groups := Greedy(front, width);
      GreedyIsWrapping(front, width);
      assert words == front + [word];
      hide IsWrapping;
      NewLine(groups, front, width, word);
      if groups != [] && |Join(groups[|groups| - 1] + [word])| <= width {
        LongerLine(groups, front, width, word);
      } else if groups == [] {
        assert [] + [[word]] == [[word]];
      }
    } else {
      assert Greedy(words, width) == [];
    }
  }

  lemma NewLine(groups: seq<seq<string>>, words: seq<string>, width: int, word: string)
    requires IsWrapping(groups, words, width)
    ensures IsWrapping(groups + [[word]], words + [word], width)
  {
    hide Join;
    assert (groups + [[word]])[..|groups|] == groups;
  }

  lemma LongerLine(groups: seq<seq<string>>, words: seq<string>, width: int, word: string)
    requires IsWrapping(groups, words, width) && groups != [] && |Join(groups[|groups| - 1] + [word])| <= width
    ensures IsWrapping(groups[..|groups| - 1] + [groups[|groups| - 1] + [word]], words + [word], width)
  {
    hide Join;
    var n := |groups| - 1;
    assert (groups[..n] + [groups[n] + [word]])[..n] == groups[..n];
    assert Flatten(groups[..n]) + (groups[n] + [word]) == (Flatten(groups[..n]) + groups[n]) + [word];
  }

  /** No line begins with an empty word, that is, with a space. */
  predicate NoLeadingSpace(groups: seq<seq<string>>) {
    forall i :: 0 <= i < |groups| ==> groups[i] != [] && groups[i][0] != ""
  }

  lemma LineBegins(groups: seq<seq<string>>, word: string)
    ensures NoLeadingSpace(groups + [[word]]) <==> NoLeadingSpace(groups) && word != ""
  {
    var more := groups + [[word]];
    assert more[|groups|] == [word];
    assert forall i :: 0 <= i < |groups| ==> more[i] == groups[i];
  }

  lemma LineGoesOn(groups: seq<seq<string>>, word: string)
    requires groups != [] && groups[|groups| - 1] != []
    ensures NoLeadingSpace(groups[..|groups| - 1] + [groups[|groups| - 1] + [word]]) <==> NoLeadingSpace(groups)
  {
    var n := |groups| - 1;
    var more := groups[..n] + [groups[n] + [word]];
    assert forall i :: 0 <= i < n ==> more[i] == groups[i];
    assert more[n] == groups[n] + [word] && more[n][0] == groups[n][0];
  }

  lemma FrontHasNone(words: seq<string>, width: int)
    requires words != []
    ensures
      var groups := Greedy(words[..|words| - 1], width);
      NoLeadingSpace(Greedy(words, width)) <==>
      && NoLeadingSpace(groups)
      && (|Greedy(words, width)| > |groups| ==> words[|words| - 1] != "")
  {
    var front, word := words[..|words| - 1], words[|words| - 1];
    var groups := Greedy(front, width);
    GreedyIsWrapping(front, width);
    LineBegins(groups, word);
    if groups != [] {
      assert LineOk(groups[|groups| - 1], width);
      LineGoesOn(groups, word);
    } else {
      assert [] + [[word]] == [[word]];
    }
    hide Flatten, Join, NoLeadingSpace;
  }

  /** All lines but the last, rendered, and the last one. */
  function Rendered(groups: seq<seq<string>>): (seq<string>, string)
    requires groups != []
  {
    (Render(groups[..|groups| - 1]), Join(groups[|groups| - 1]))
  }

  lemma RenderedNext(groups: seq<seq<string>>, word: string)
    requires groups != [] && groups[|groups| - 1] != []
    ensures
      var (lines, current) := Rendered(groups);
      && Rendered(groups + [[word]]) == (lines + [current], word)
      && Rendered(groups[..|groups| - 1] + [groups[|groups| - 1] + [word]]) == (lines, current + " " + word)
  {
    var n := |groups| - 1;
    JoinAppend(groups[n], word);
    JoinOne(word);
    assert (groups + [[word]])[..n + 1] == groups;
    assert (groups[..n] + [groups[n] + [word]])[..n] == groups[..n];
    hide Join;
  }

  lemma JoinOne(word: string)
    ensures Join([word]) == word && Join([]) == ""
  {
  }

  lemma JoinIsNonEmpty(group: seq<string>)
    requires group != [] && group[0] != ""
    ensures Join(group) != ""
  {
  }

  /** As long as no line begins with a space, the loop is the greedy wrapping, rendered. */
  lemma {:induction false} ProgressIsGreedy(words: seq<string>, width: int)
    requires words != [] && NoLeadingSpace(Greedy(words, width))
    ensures Progress(words, width) == Rendered(Greedy(words, width))
    ensures Progress(words, width).1 != ""
  {
    var front, word := words[..|words| - 1], words[|words| - 1];
    var groups := Greedy(front, width);
    FrontHasNone(words, width);
    if front == [] {
      FirstWord(word, width);
      assert words == [word];
    } else {
      ProgressIsGreedy(front, width);
      assert groups[|groups| - 1] != [] && Greedy(words, width)[|Greedy(words, width)| - 1][0] != "";
      RenderedNext(groups, word);
      JoinAppend(groups[|groups| - 1], word);
      JoinIsNonEmpty(Greedy(words, width)[|Greedy(words, width)| - 1]);
      hide Join, Render, NoLeadingSpace;
    }
  }

  lemma FirstWord(word: string, width: int)
    ensures Progress([word], width) == ([], word) == Rendered(Greedy([word], width))
    ensures word != "" ==> NoLeadingSpace(Greedy([word], width))
  {
    assert [word][..0] == [] && Progress([], width) == ([], "") && Greedy([], width) == [];
    JoinOne(word);
  }

  // ---------------------------------------------------------------------------------------------
  // Results
  // ---------------------------------------------------------------------------------------------

  lemma {:induction false} JoinRender(groups: seq<seq<string>>)
    requires forall i :: 0 <= i < |groups| ==> groups[i] != []
    ensures Join(Render(groups)) == Join(Flatten(groups))
    ensures |Render(groups)| == |groups|
    ensures groups != [] ==> Flatten(groups) != []
  {
    if groups != [] {
      var n := |groups| - 1;
      JoinRender(groups[..n]);
      if n > 0 {
        JoinAppend(Render(groups[..n]), Join(groups[n]));
        JoinConcat(Flatten(groups[..n]), groups[n]);
      } else {
        assert groups[..0] == [] && Flatten(groups) == groups[0];
        assert Render(groups) == [Join(groups[0])];
      }
    }
  }

  lemma {:induction false} JoinConcat(a: seq<string>, b: seq<string>)
    requires a != [] && b != []
    ensures Join(a + b) == Join(a) + " " + Join(b)
  {
    var n := |b| - 1;
    assert a + b == (a + b[..n]) + [b[n]] && b == b[..n] + [b[n]];
    if n == 0 {
      assert a + b[..0] == a && Join(b) == b[0];
      JoinAppend(a, b[0]);
    } else {
      JoinConcat(a, b[..n]);
      JoinAppend(a + b[..n], b[n]);
      JoinAppend(b[..n], b[n]);
      hide Join;
      var x, y, z := Join(a) + " ", Join(b[..n]), " " + b[n];
      assert Join(a + b) == (x + y) + z;
      assert Join(b) == y + z;
    }
  }

  lemma {:induction false} RenderAt(groups: seq<seq<string>>, i: nat)
    requires i < |groups|
    ensures |Render(groups)| == |groups| && Render(groups)[i] == Join(groups[i])
  {
    RenderLength(groups);
    RenderLength(groups[..|groups| - 1]);
    if i < |groups| - 1 {
      RenderAt(groups[..|groups| - 1], i);
    }
  }

  lemma {:induction false} RenderLength(groups: seq<seq<string>>)
    ensures |Render(groups)| == |groups|
  {
    if groups != [] {
      RenderLength(groups[..|groups| - 1]);
    }
  }

  lemma WrappedIsGreedy(text: string, width: int)
    requires NoLeadingSpace(Greedy(Split(text), width))
    ensures Wrapped(text, width) == Render(Greedy(Split(text), width))
  {
    ProgressIsGreedy(Split(text), width);
  }

  lemma SingleSpacedHasNone(words: seq<string>, width: int)
    requires SingleSpaced(words)
    ensures NoLeadingSpace(Greedy(words, width))
  {
    var groups := Greedy(words, width);
    GreedyIsWrapping(words, width);
    forall i | 0 <= i < |groups|
      ensures groups[i] != [] && groups[i][0] != ""
    {
      assert LineOk(groups[i], width);
      FlattenHolds(groups, i);
      assert groups[i][0] in words;
    }
  }

  /** The lines so far, the current one among them unless it is empty. */
  function Output(lines: seq<string>, current: string): string {
    Join(if current != "" then lines + [current] else lines)
  }

  /** A word adds at most itself and the space before it. */
  lemma OutputGrows(words: seq<string>, width: int)
    requires |words| > 1
    ensures
      var (lines, current) := Progress(words[..|words| - 1], width);
      var (lines', current') := Progress(words, width);
      var word := words[|words| - 1];
      && |Output(lines', current')| <= |Output(lines, current)| + 1 + |word|
      && (|lines'| > |lines| && word == "" ==> |Output(lines', current')| == |Output(lines, current)|)
  {
    var (lines, current) := Progress(words[..|words| - 1], width);
    var word := words[|words| - 1];
    hide Join;
    if current != "" {
      JoinAppend(lines + [current], word);
      JoinLonger(lines + [current], " " + word);
      assert (lines + [current])[..|lines|] == lines && current + (" " + word) == current + " " + word;
      assert Join(lines + [current + " " + word]) == Join(lines + [current]) + (" " + word);
    } else if lines != [] {
      JoinAppend(lines, word);
    } else {
      JoinOne(word);
    }
  }

  /** Once a line begins with a space, that space is missing for good. */
  lemma {:induction false} SpaceIsLost(words: seq<string>, width: int)
    requires words != []
    ensures
      var (lines, current) := Progress(words, width);
      && |Output(lines, current)| <= |Join(words)|
      && (words != [""] && !NoLeadingSpace(Greedy(words, width)) ==> |Output(lines, current)| < |Join(words)|)
  {
    var front, word := words[..|words| - 1], words[|words| - 1];
    assert words == front + [word];
    FrontHasNone(words, width);
    if front == [] {
      FirstWord(word, width);
      JoinOne(word);
      assert words == [word];
    } else {
      SpaceIsLost(front, width);
      OutputGrows(words, width);
      JoinAppend(front, word);
      if front == [""] {
        SecondWord(word, width);
      } else if NoLeadingSpace(Greedy(front, width)) && !NoLeadingSpace(Greedy(words, width)) {
        ProgressIsGreedy(front, width);
        BreaksAlike(words, width);
      }
      hide Progress, Greedy, Join, Output, NoLeadingSpace;
    }
  }

  lemma SecondWord(word: string, width: int)
    ensures
      var (lines, current) := Progress([""] + [word], width);
      |Output(lines, current)| < 1 + |word| && Join([""]) == ""
  {
    assert ([""] + [word])[..1] == [""] && [""][..0] == [];
    assert Progress([], width) == ([], "") && Progress([""], width) == ([], "");
    JoinOne(word);
  }

  /** While they agree, the loop ends a line exactly where the greedy wrapping does. */
  lemma BreaksAlike(words: seq<string>, width: int)
    requires |words| > 1 && NoLeadingSpace(Greedy(words[..|words| - 1], width))
    ensures
      var front := words[..|words| - 1];
      |Progress(words, width).0| > |Progress(front, width).0| <==> |Greedy(words, width)| > |Greedy(front, width)|
  {
    var front := words[..|words| - 1];
    ProgressIsGreedy(front, width);
    var groups := Greedy(front, width);
    assert groups[|groups| - 1] != [];
    JoinAppend(groups[|groups| - 1], words[|words| - 1]);
    hide Join, Render, NoLeadingSpace;
  }

  /** Exactly when wrapping loses nothing, for any text and width: when no line of the greedy wrapping
      of its words, the empty ones between spaces included, begins with a space. */
  lemma LosslessIff(text: string, width: int)
    ensures Join(Wrapped(text, width)) == text <==> text == "" || NoLeadingSpace(Greedy(Split(text), width))
  {
    var words := Split(text);
    var groups := Greedy(words, width);
    JoinSplit(text);
    if NoLeadingSpace(groups) {
      WrappedIsGreedy(text, width);
      GreedyIsWrapping(words, width);
      JoinRender(groups);
    } else if text == "" {
      assert [""][..0] == [] && Progress([], width) == ([], "") && Progress([""], width) == ([], "");
    } else {
      SpaceIsLost(words, width);
    }
  }

  /** On single-spaced text it loses nothing, and a line longer than the width is a single word. */
  lemma WrapIsLossless(text: string, width: int)
    requires SingleSpaced(Split(text))
    ensures Join(Wrapped(text, width)) == text
    ensures forall i :: 0 <= i < |Wrapped(text, width)| && |Wrapped(text, width)[i]| > width ==> Wrapped(text, width)[i] in Split(text)
  {
    SingleSpacedHasNone(Split(text), width);
    LosslessIff(text, width);
    WrapKeepsWords(text, width);
  }

  // ---------------------------------------------------------------------------------------------
  // No word is lost
  // ---------------------------------------------------------------------------------------------

  predicate OneWord(w: string) {
    forall i :: 0 <= i < |w| ==> w[i] != ' '
  }

  function NonEmpty(words: seq<string>): seq<string> {
    if words == [] then []
    else NonEmpty(words[..|words| - 1]) + if words[|words| - 1] != "" then [words[|words| - 1]] else []
  }

  /** The words of some lines. */
  function WordsOf(lines: seq<string>): seq<string> {
    if lines == [] then [] else WordsOf(lines[..|lines| - 1]) + NonEmpty(Split(lines[|lines| - 1]))
  }

  lemma SplitStep(text: string, c: char)
    ensures
      var words := Split(text);
      Split(text + [c]) == if c == ' ' then words + [""] else words[..|words| - 1] + [words[|words| - 1] + [c]]
  {
    assert (text + [c])[..|text|] == text;
  }

  lemma {:induction false} SplitWords(text: string)
    ensures forall w :: w in Split(text) ==> OneWord(w)
  {
    if text != "" {
      var front, c := text[..|text| - 1], text[|text| - 1];
      SplitWords(front);
      SplitStep(front, c);
      assert text == front + [c];
      assert Split(front)[|Split(front)| - 1] in Split(front);
      hide Split;
    }
  }

  lemma {:induction false} SplitMore(a: string, w: string)
    requires OneWord(w)
    ensures Split(a + " " + w) == Split(a) + [w]
  {
    hide Split;
    if w == "" {
      SplitStep(a, ' ');
      assert a + " " + w == a + [' '];
    } else {
      var front, c := w[..|w| - 1], w[|w| - 1];
      SplitMore(a, front);
      SplitStep(a + " " + front, c);
      assert w == front + [c];
      assert a + " " + w == (a + " " + front) + [c];
    }
  }

  lemma {:induction false} SplitWord(w: string)
    requires OneWord(w)
    ensures Split(w) == [w]
  {
    if w != "" {
      var front, c := w[..|w| - 1], w[|w| - 1];
      SplitWord(front);
      SplitStep(front, c);
      assert w == front + [c];
    }
  }

  lemma NonEmptyAppend(words: seq<string>, w: string)
    ensures NonEmpty(words + [w]) == NonEmpty(words) + if w != "" then [w] else []
  {
    assert (words + [w])[..|words|] == words;
  }

  lemma WordsOfAppend(lines: seq<string>, line: string)
    ensures WordsOf(lines + [line]) == WordsOf(lines) + NonEmpty(Split(line))
  {
    assert (lines + [line])[..|lines|] == lines;
  }

  /** What the loop has in hand: lines that are not empty, and longer than the width only as single
      words. */
  predicate LinesOk(lines: seq<string>, current: string, words: seq<string>, width: int) {
    && (forall i :: 0 <= i < |lines| ==> lines[i] != "" && (|lines[i]| > width ==> lines[i] in words))
    && (|current| > width ==> current == "" || current in words)
  }

  lemma LinesNext(lines: seq<string>, current: string, front: seq<string>, word: string, width: int)
    requires LinesOk(lines, current, front, width)
    ensures
      var candidate := if current != "" then current + " " + word else word;
      if |candidate| > width && current != "" then LinesOk(lines + [current], word, front + [word], width)
      else LinesOk(lines, candidate, front + [word], width)
  {
    assert forall w :: w in front ==> w in front + [word];
    assert word in front + [word];
  }

  lemma {:induction false} ProgressLines(words: seq<string>, width: int)
    ensures LinesOk(Progress(words, width).0, Progress(words, width).1, words, width)
  {
    if words != [] {
      var front, word := words[..|words| - 1], words[|words| - 1];
      ProgressLines(front, width);
      LinesNext(Progress(front, width).0, Progress(front, width).1, front, word, width);
      assert words == front + [word];
      hide LinesOk;
    }
  }

  lemma NonEmptyOne(word: string)
    ensures NonEmpty([word]) == if word != "" then [word] else []
  {
    assert [word][..0] == [];
  }

  /** The words in hand, finished lines and current one. */
  function Held(lines: seq<string>, current: string): seq<string> {
    WordsOf(lines) + NonEmpty(Split(current))
  }

  lemma HeldIs(lines: seq<string>, current: string)
    ensures Held(lines, current) == WordsOf(if current != "" then lines + [current] else lines)
  {
    WordsOfAppend(lines, current);
    SplitWord("");
    NonEmptyOne("");
    hide WordsOf, NonEmpty, Split;
  }

  /** Breaking the line or not, they are those before and the next word. */
  lemma WordsNext(lines: seq<string>, current: string, word: string)
    requires OneWord(word)
    ensures
      var more := Held(lines, current) + if word != "" then [word] else [];
      && Held(lines + [current], word) == more
      && Held(lines, current + " " + word) == more
      && (current == "" ==> Held(lines, word) == more)
  {
    NonEmptyOne(word);
    NonEmptyOne("");
    SplitWord(word);
    SplitWord("");
    SplitMore(current, word);
    NonEmptyAppend(Split(current), word);
    WordsOfAppend(lines, current);
    hide WordsOf, NonEmpty, Split, OneWord;
    var more := if word != "" then [word] else [];
    Regrouped(WordsOf(lines), NonEmpty(Split(current)), more);
  }

  lemma Regrouped(a: seq<string>, b: seq<string>, c: seq<string>)
    ensures a + (b + c) == (a + b) + c
  {
  }

  lemma {:induction false} ProgressWords(words: seq<string>, width: int)
    requires forall w :: w in words ==> OneWord(w)
    ensures Held(Progress(words, width).0, Progress(words, width).1) == NonEmpty(words)
  {
    if words == [] {
      HeldIs([], "");
    } else {
      hide Held, NonEmpty, OneWord;
      var front, word := words[..|words| - 1], words[|words| - 1];
      ProgressWords(front, width);
      WordsNext(Progress(front, width).0, Progress(front, width).1, word);
      NonEmptyAppend(front, word);
      assert words == front + [word];
    }
  }

  /** For every text and width: the lines hold its words, none lost, added or moved; no line is empty,
      and one longer than the width is a single word. */
  lemma WrapKeepsWords(text: string, width: int)
    ensures WordsOf(Wrapped(text, width)) == NonEmpty(Split(text))
    ensures forall line :: line in Wrapped(text, width) ==> line != "" && (|line| > width ==> line in Split(text))
  {
    var words := Split(text);
    SplitWords(text);
    ProgressWords(words, width);
    ProgressLines(words, width);
    HeldIs(Progress(words, width).0, Progress(words, width).1);
    hide Held, NonEmpty, Split, WordsOf, Progress, OneWord;
  }

  lemma {:induction false} FlattenHolds(groups: seq<seq<string>>, i: nat)
    requires i < |groups|
    ensures forall w :: w in groups[i] ==> w in Flatten(groups)
  {
    if i < |groups| - 1 {
      FlattenHolds(groups[..|groups| - 1], i);
    }
  }

  /** Fewer words at the end make a shorter line. */
  lemma {:induction false} SuffixIsShorter(words: seq<string>, m: nat, n: nat)
    requires m <= n <= |words|
    ensures |Join(words[|words| - m..])| <= |Join(words[|words| - n..])|
    decreases n - m
  {
    if m < n {
      SuffixIsShorter(words, m, n - 1);
      var shorter := words[|words| - (n - 1)..];
      assert words[|words| - n..] == [words[|words| - n]] + shorter;
      if shorter != [] {
        JoinConcat([words[|words| - n]], shorter);
      }
    }
  }

  lemma {:induction false} LastIsSuffix(groups: seq<seq<string>>)
    requires groups != []
    ensures
      var words, last := Flatten(groups), groups[|groups| - 1];
      |last| <= |words| && words[|words| - |last|..] == last
  {
  }

  /** The greedy wrapping stays ahead of every other: it has no more lines, and as long as it has as
      many, no more words in its last one. */
  lemma {:induction false} GreedyStaysAhead(words: seq<string>, width: int, other: seq<seq<string>>)
    requires words != [] && other != [] && IsWrapping(other, words, width)
    ensures
      var groups := Greedy(words, width);
      && |groups| <= |other|
      && (|groups| == |other| ==> |groups[|groups| - 1]| <= |other[|other| - 1]|)
    decreases |words|
  {
    var front, word := words[..|words| - 1], words[|words| - 1];
    var n := |other| - 1;
    var last := other[n];
    assert LineOk(last, width);
    var less := if |last| == 1 then other[..n] else other[..n] + [last[..|last| - 1]];
    ShorterIsWrapping(other, words, width);
    if front == [] {
      assert Greedy(front, width) == [];
    } else {
      GreedyStaysAhead(front, width, less);
      GreedyStep(words, width, other, less);
    }
  }

  /** Taking the last word away from a wrapping. */
  lemma ShorterIsWrapping(other: seq<seq<string>>, words: seq<string>, width: int)
    requires words != [] && other != [] && IsWrapping(other, words, width)
    ensures
      var last := other[|other| - 1];
      var less := if |last| == 1 then other[..|other| - 1] else other[..|other| - 1] + [last[..|last| - 1]];
      && IsWrapping(less, words[..|words| - 1], width) && (|words| > 1 ==> less != [])
  {
    var n := |other| - 1;
    var last := other[n];
    assert LineOk(last, width);
    var cut := last[..|last| - 1];
    assert words == Flatten(other[..n]) + last && last == cut + [last[|last| - 1]];
    assert words[..|words| - 1] == Flatten(other[..n]) + cut;
    if |last| == 1 {
      assert cut == [];
    } else {
      assert (other[..n] + [cut])[..n] == other[..n];
      JoinAppend(cut, last[|last| - 1]);
    }
  }

  lemma GreedyStep(words: seq<string>, width: int, other: seq<seq<string>>, less: seq<seq<string>>)
    requires |words| > 1 && other != [] && less != [] && IsWrapping(other, words, width)
    requires
      var last := other[|other| - 1];
      less == if |last| == 1 then other[..|other| - 1] else other[..|other| - 1] + [last[..|last| - 1]]
    requires
      var groups := Greedy(words[..|words| - 1], width);
      && |groups| <= |less| && (|groups| == |less| ==> |groups[|groups| - 1]| <= |less[|less| - 1]|)
    ensures
      var groups := Greedy(words, width);
      && |groups| <= |other| && (|groups| == |other| ==> |groups[|groups| - 1]| <= |other[|other| - 1]|)
  {
    var groups := Greedy(words[..|words| - 1], width);
    var last := other[|other| - 1];
    assert LineOk(last, width);
    if |last| > 1 && |groups| == |less| {
      NextWordFits(words, width, other);
    }
    hide IsWrapping, Join;
  }

  /** Greedy's last line with the next word is a suffix of the other wrapping's last line. */
  lemma NextWordFits(words: seq<string>, width: int, other: seq<seq<string>>)
    requires |words| > 1 && other != [] && IsWrapping(other, words, width)
    requires
      var groups := Greedy(words[..|words| - 1], width);
      groups != [] && |groups[|groups| - 1]| < |other[|other| - 1]|
    ensures
      var groups := Greedy(words[..|words| - 1], width);
      |Join(groups[|groups| - 1] + [words[|words| - 1]])| <= width
  {
    hide *;
    var front, word := words[..|words| - 1], words[|words| - 1];
    var groups := Greedy(front, width);
    var mine, last := groups[|groups| - 1], other[|other| - 1];
    GreedyIsWrapping(front, width);
    LastLine(groups, front, width);
    LastLine(other, words, width);
    SuffixAndWord(words, mine);
    SuffixIsShorter(words, |mine| + 1, |last|);
  }

  lemma LastLine(groups: seq<seq<string>>, words: seq<string>, width: int)
    requires groups != [] && IsWrapping(groups, words, width)
    ensures
      var last := groups[|groups| - 1];
      && 0 < |last| <= |words| && words[|words| - |last|..] == last
      && (|last| > 1 ==> |Join(last)| <= width)
  {
    assert LineOk(groups[|groups| - 1], width);
    LastIsSuffix(groups);
  }

  lemma SuffixAndWord(words: seq<string>, mine: seq<string>)
    requires |words| > 0 && |mine| < |words| && words[..|words| - 1][|words| - 1 - |mine|..] == mine
    ensures words[|words| - (|mine| + 1)..] == mine + [words[|words| - 1]]
  {
  }

  /** No other way of cutting the words into fitting or single-word lines uses fewer lines. */
  lemma WrapIsOptimal(text: string, width: int, other: seq<seq<string>>)
    requires SingleSpaced(Split(text)) && IsWrapping(other, Split(text), width)
    ensures |Wrapped(text, width)| <= |other|
  {
    var words := Split(text);
    SingleSpacedHasNone(words, width);
    WrappedIsGreedy(text, width);
    RenderLength(Greedy(words, width));
    if other != [] {
      GreedyStaysAhead(words, width, other);
    }
  }
}
