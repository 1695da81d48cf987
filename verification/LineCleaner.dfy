/** cleanLineBuffer of CommandInterface.cpp: a command line is reduced in place to its words. */
module LineCleaner {
  const NULL := '\0'

  predicate Printable(c: char) {
    0x1F as char < c < 0x7F as char
  }

  /** Not printable, and not the terminator. */
  predicate InvalidChar(c: char) {
    !(Printable(c) || c == NULL)
  }

  // ---------------------------------------------------------------------------
  // What the line should become.
  // ---------------------------------------------------------------------------

  /** The valid characters, in order. */
  function Kept(s: string): string {
    if s == "" then "" else
      var n := |s| - 1;
      Kept(s[..n]) + if InvalidChar(s[n]) then "" else [s[n]]
  }

  predicate AfterGap(s: string) {
    s == "" || s[|s| - 1] == ' '
  }

  /** A word: some characters, none of them a space. */
  predicate IsWord(w: string) {
    w != "" && ' ' !in w
  }

  /** The maximal runs of characters between spaces. */
  function Words(s: string): (words: seq<string>)
    ensures forall i :: 0 <= i < |words| ==> IsWord(words[i])
    ensures !AfterGap(s) ==> words != []
  {
    if s == "" then [] else
      var n := |s| - 1;
      var before := Words(s[..n]);
      if s[n] == ' ' then before
      else if AfterGap(s[..n]) then before + [[s[n]]]
      else before[|before| - 1 := before[|before| - 1] + [s[n]]]
  }

  /** The words with one space between neighbours. */
  function Joined(words: seq<string>): string {
    if words == [] then "" else
      var n := |words| - 1;
      if n == 0 then words[0] else Joined(words[..n]) + " " + words[n]
  }

  function Clean(line: string): string {
    Joined(Words(Kept(line)))
  }

  // ---------------------------------------------------------------------------
  // Words and Joined undo each other, and cleaning twice is cleaning once.
  // ---------------------------------------------------------------------------

  lemma WordsOfLonger(s: string, c: char)
    ensures c == ' ' ==> Words(s + [c]) == Words(s)
    ensures c != ' ' && AfterGap(s) ==> Words(s + [c]) == Words(s) + [[c]]
    ensures c != ' ' && !AfterGap(s) ==>
      Words(s + [c]) == Words(s)[|Words(s)| - 1 := Words(s)[|Words(s)| - 1] + [c]]
  {
    assert (s + [c])[..|s|] == s;
  }

  lemma OneCharLonger(s: string, v: string, w: string, c: char)
    requires w == v + [c]
    ensures s + w == s + v + [c]
  {
  }

  lemma {:induction false} WordsOfOneWord(s: string, w: string)
    requires AfterGap(s) && IsWord(w)
    ensures Words(s + w) == Words(s) + [w] && !AfterGap(s + w)
    decreases |w|
  {
    var n := |w| - 1;
    var v := w[..n];
    OneCharLonger(s, v, w, w[n]);
    WordsOfLonger(s + v, w[n]);
    if n == 0 {
      assert s + v == s;
    } else {
      WordsOfOneWord(s, v);
    }
  }

  lemma AfterTheSpace(a: string, t: string)
    ensures AfterGap(a + " " + t) == AfterGap(t)
  {
    assert t == "" ==> a + " " + t == a + " ";
  }

  lemma OneCharFurther(a: string, t: string, c: char)
    requires Words(a + " " + t) == Words(a) + Words(t)
    ensures Words(a + " " + t + [c]) == Words(a) + Words(t + [c])
  {
    var s, before, words := a + " " + t, Words(a), Words(t);
    AfterTheSpace(a, t);
    WordsOfLonger(s, c);
    WordsOfLonger(t, c);
    if c != ' ' && !AfterGap(t) {
      var k := |words| - 1;
      assert (before + words)[|before| + k := words[k] + [c]] == before + words[k := words[k] + [c]];
    }
  }

  /** A space ends a word and starts none: the words of two strings around a space are the words of the one
    * and then those of the other; and a string without a space is one word, or none if it is empty. */
  lemma {:induction false} WordsAroundASpace(a: string, b: string)
    ensures Words(a + " " + b) == Words(a) + Words(b)
    ensures ' ' !in b ==> Words(b) == if b == "" then [] else [b]
    decreases |b|
  {
    if b == "" {
      assert a + " " + b == a + [' '];
      WordsOfLonger(a, ' ');
    } else {
      var t, c := b[..|b| - 1], b[|b| - 1];
      WordsAroundASpace(a, t);
      OneCharFurther(a, t, c);
      assert b == t + [c] && a + " " + b == a + " " + t + [c];
      if ' ' !in b { WordsOfOneWord("", b); assert "" + b == b; }
    }
  }

  lemma {:induction false} WordsOfJoined(words: seq<string>)
    requires forall i :: 0 <= i < |words| ==> IsWord(words[i])
    ensures Words(Joined(words)) == words
  {
    if words != [] {
      var n := |words| - 1;
      assert words == words[..n] + [words[n]];
      WordsOfJoined(words[..n]);
      if n == 0 {
        WordsOfOneWord("", words[0]);
        assert "" + words[0] == words[0];
      } else {
        var s := Joined(words[..n]) + " ";
        assert s[..|s| - 1] == Joined(words[..n]);
        WordsOfOneWord(s, words[n]);
      }
    }
  }

  lemma KeptOfLonger(s: string, c: char)
    ensures Kept(s + [c]) == Kept(s) + if InvalidChar(c) then "" else [c]
  {
    assert (s + [c])[..|s|] == s;
  }

  /** Which characters stay: the printable ones of ASCII and the terminator, each by itself, in order. */
  lemma {:induction false} KeptJoins(a: string, b: string)
    ensures Kept(a + b) == Kept(a) + Kept(b)
    ensures |b| == 1 ==> Kept(b) == if b[0] == NULL || ' ' <= b[0] <= '~' then b else ""
    decreases |b|
  {
    if b == "" {
      assert a + b == a;
    } else {
      var t, c := b[..|b| - 1], b[|b| - 1];
      KeptJoins(a, t);
      assert a + b == a + t + [c];
      KeptOfLonger(a + t, c);
      assert |b| == 1 ==> b == [c];
    }
  }

  predicate AllPrintable(s: string) {
    forall c :: c in s ==> Printable(c)
  }

  lemma {:induction false} KeptIsPrintable(s: string)
    requires NULL !in s
    ensures AllPrintable(Kept(s))
  {
    if s != "" {
      KeptIsPrintable(s[..|s| - 1]);
      assert s[|s| - 1] in s;
    }
  }

  lemma {:induction false} KeptOfPrintable(s: string)
    requires AllPrintable(s)
    ensures Kept(s) == s
  {
    if s != "" {
      var t, c := s[..|s| - 1], s[|s| - 1];
      assert s == t + [c];
      assert AllPrintable(t) && c in s;
      KeptOfPrintable(t);
      KeptOfLonger(t, c);
    }
  }

  lemma {:induction false} WordsOfPrintable(s: string)
    requires AllPrintable(s)
    ensures forall i :: 0 <= i < |Words(s)| ==> AllPrintable(Words(s)[i])
  {
    if s != "" {
      WordsOfPrintable(s[..|s| - 1]);
      assert s[|s| - 1] in s;
    }
  }

  lemma {:induction false} JoinedIsPrintable(words: seq<string>)
    requires forall i :: 0 <= i < |words| ==> AllPrintable(words[i])
    ensures AllPrintable(Joined(words))
  {
    if words != [] {
      var n := |words| - 1;
      JoinedIsPrintable(words[..n]);
      assert AllPrintable(words[n]);
    }
  }

  /** What is left is printable, so still ends at the same null, and cleaning it again changes nothing. */
  lemma CleanIsIdempotent(line: string)
    requires NULL !in line
    ensures AllPrintable(Clean(line)) && NULL !in Clean(line)
    ensures Clean(Clean(line)) == Clean(line)
  {
    KeptIsPrintable(line);
    WordsOfPrintable(Kept(line));
    JoinedIsPrintable(Words(Kept(line)));
    KeptOfPrintable(Clean(line));
    WordsOfJoined(Words(Kept(line)));
  }

  // ---------------------------------------------------------------------------
  // What the passes over the line do to it.
  // ---------------------------------------------------------------------------

  /** A space is dropped when the last character kept is one. */
  function Put(kept: string, c: char): string {
    if c == ' ' && kept != "" && kept[|kept| - 1] == ' ' then kept else kept + [c]
  }

  function Squeezed(s: string): string {
    if s == "" then "" else Put(Squeezed(s[..|s| - 1]), s[|s| - 1])
  }

  function WithoutFirstSpace(s: string): string {
    if s != "" && s[0] == ' ' then s[1..] else s
  }

  lemma SqueezedOfLonger(s: string, c: char)
    ensures Squeezed(s + [c]) == Put(Squeezed(s), c)
  {
    assert (s + [c])[..|s|] == s;
  }

  lemma {:induction false} SqueezedEnds(s: string)
    ensures Squeezed(s) == "" <==> s == ""
    ensures s != "" ==> Squeezed(s)[|Squeezed(s)| - 1] == s[|s| - 1]
  {
    if s != "" {
      SqueezedEnds(s[..|s| - 1]);
    }
  }

  lemma JoinedOfMore(words: seq<string>, w: string)
    ensures Joined(words + [w]) == if words == [] then w else Joined(words) + " " + w
  {
    assert (words + [w])[..|words|] == words;
  }

  lemma JoinedOfLongerWord(words: seq<string>, c: char)
    requires words != []
    ensures Joined(words[|words| - 1 := words[|words| - 1] + [c]]) == Joined(words) + [c]
  {
    var n := |words| - 1;
    assert words[n := words[n] + [c]][..n] == words[..n];
  }

  /** What is left of the line after the first two passes. */
  predicate IsWordsWithGaps(s: string) {
    && WithoutFirstSpace(Squeezed(s)) == Joined(Words(s)) + (if Words(s) != [] && AfterGap(s) then " " else "")
    && (Words(s) == [] ==> Squeezed(s) == "" || Squeezed(s) == " ")
  }

  lemma FirstSpaceOfLonger(q: string, c: char)
    requires q != "" || c != ' '
    ensures WithoutFirstSpace(q + [c]) == WithoutFirstSpace(q) + [c]
  {
  }

  lemma SpaceFollows(t: string)
    requires IsWordsWithGaps(t)
    ensures IsWordsWithGaps(t + [' '])
  {
    WordsOfLonger(t, ' ');
    SqueezedOfLonger(t, ' ');
    SqueezedEnds(t);
    if !AfterGap(t) {
      FirstSpaceOfLonger(Squeezed(t), ' ');
    }
  }

  /** What the two sides of IsWordsWithGaps become. */
  lemma BothSides(t: string, c: char, words: seq<string>)
    requires c != ' ' && words == Words(t + [c])
    ensures WithoutFirstSpace(Squeezed(t + [c])) == WithoutFirstSpace(Squeezed(t)) + [c] && !AfterGap(t + [c])
    ensures words != []
  {
    WordsOfLonger(t, c);
    SqueezedOfLonger(t, c);
    FirstSpaceOfLonger(Squeezed(t), c);
  }

  lemma FirstWordStarts(t: string, c: char)
    requires IsWordsWithGaps(t) && c != ' ' && Words(t) == [] && AfterGap(t)
    ensures IsWordsWithGaps(t + [c])
  {
    WordsOfLonger(t, c);
    BothSides(t, c, Words(t + [c]));
    JoinedOfMore([], [c]);
  }

  lemma NextWordStarts(t: string, c: char)
    requires IsWordsWithGaps(t) && c != ' ' && Words(t) != [] && AfterGap(t)
    ensures IsWordsWithGaps(t + [c])
  {
    WordsOfLonger(t, c);
    BothSides(t, c, Words(t + [c]));
    JoinedOfMore(Words(t), [c]);
  }

  lemma WordGrows(t: string, c: char)
    requires IsWordsWithGaps(t) && c != ' ' && !AfterGap(t)
    ensures IsWordsWithGaps(t + [c])
  {
    WordsOfLonger(t, c);
    BothSides(t, c, Words(t + [c]));
    JoinedOfLongerWord(Words(t), c);
  }

  lemma CharacterFollows(t: string, c: char)
    requires IsWordsWithGaps(t) && c != ' '
    ensures IsWordsWithGaps(t + [c])
  {
    if !AfterGap(t) {
      WordGrows(t, c);
    } else if Words(t) == [] {
      FirstWordStarts(t, c);
    } else {
      NextWordStarts(t, c);
    }
  }

  /** After the first two passes the line is its words, perhaps with one space at either end. */
  lemma {:induction false} SqueezedIsWords(s: string)
    ensures WithoutFirstSpace(Squeezed(s)) == Joined(Words(s)) + if Words(s) != [] && AfterGap(s) then " " else ""
    ensures Words(s) == [] ==> Squeezed(s) == "" || Squeezed(s) == " "
  {
    if s != "" {
      var t, c := s[..|s| - 1], s[|s| - 1];
      assert s == t + [c];
      SqueezedIsWords(t);
      if c == ' ' {
        SpaceFollows(t);
      } else {
        CharacterFollows(t, c);
      }
    }
  }

  lemma {:induction false} JoinedEnds(words: seq<string>)
    requires forall i :: 0 <= i < |words| ==> IsWord(words[i])
    ensures words != [] ==> Joined(words) != "" && !AfterGap(Joined(words))
  {
    if words != [] {
      var n := |words| - 1;
      assert words[n][|words[n]| - 1] in words[n];
    }
  }

  // ---------------------------------------------------------------------------
  // The passes, in place.
  // ---------------------------------------------------------------------------

  method FindNull(buffer: array<char>, first: nat, last: nat) returns (at: nat)
    requires first <= last <= buffer.Length
    ensures first <= at <= last && NULL !in buffer[first..at]
    ensures at < last ==> buffer[at] == NULL
  {
    at := first;
    while at != last && buffer[at] != NULL
      invariant first <= at <= last && NULL !in buffer[first..at]
    {
      assert buffer[first..at + 1] == buffer[first..at] + [buffer[at]];
      at := at + 1;
    }
  }

  /** Nothing outside [first, end) changes. */
  twostate predicate Outside(buffer: array<char>, first: nat, end: nat)
    reads buffer
  {
    forall i :: 0 <= i < buffer.Length && !(first <= i < end) ==> buffer[i] == old(buffer[i])
  }

  /** The character goes after those kept, unless it is invalid. */
  method KeepValid(buffer: array<char>, first: nat, end: nat, c: char) returns (newEnd: nat)
    requires first <= end < buffer.Length
    modifies buffer
    ensures end <= newEnd <= end + 1 && Outside(buffer, end, end + 1)
    ensures buffer[first..newEnd] == old(buffer[first..end]) + if InvalidChar(c) then [] else [c]
  {
    newEnd := end;
    if !InvalidChar(c) {
      buffer[newEnd] := c;
      newEnd := newEnd + 1;
    }
  }

  /** remove_if with InvalidChar. */
  method RemoveInvalid(buffer: array<char>, first: nat, end: nat) returns (newEnd: nat)
    requires first <= end <= buffer.Length
    modifies buffer
    ensures first <= newEnd <= end
    ensures buffer[first..newEnd] == Kept(old(buffer[first..end]))
    ensures Outside(buffer, first, end)
  {
    newEnd := first;
    var next := first;
    while next != end
      invariant first <= newEnd <= next <= end
      invariant buffer[first..newEnd] == Kept(old(buffer[first..next]))
      invariant Outside(buffer, first, next)
    {
      ghost var seen := old(buffer[first..next]);
      assert old(buffer[first..next + 1]) == seen + [buffer[next]];
      KeptOfLonger(seen, buffer[next]);
      newEnd := KeepValid(buffer, first, newEnd, buffer[next]);
      next := next + 1;
    }
  }

  /** The character goes after those kept, unless it is a second space. */
  method Keep(buffer: array<char>, first: nat, end: nat, c: char) returns (newEnd: nat)
    requires first < end < buffer.Length
    modifies buffer
    ensures end <= newEnd <= end + 1 && Outside(buffer, end, end + 1)
    ensures buffer[first..newEnd] == Put(old(buffer[first..end]), c)
  {
    newEnd := end;
    if !(buffer[newEnd - 1] == ' ' && c == ' ') {
      buffer[newEnd] := c;
      newEnd := newEnd + 1;
    }
  }

  /** unique, where two spaces count as equal. */
  method UniqueSpaces(buffer: array<char>, first: nat, end: nat) returns (newEnd: nat)
    requires first < end <= buffer.Length
    modifies buffer
    ensures first < newEnd <= end
    ensures buffer[first..newEnd] == Squeezed(old(buffer[first..end]))
    ensures Outside(buffer, first, end)
  {
    newEnd := first + 1;
    var next := first + 1;
    SqueezedOfLonger("", buffer[first]);
    assert "" + [buffer[first]] == buffer[first..next];
    while next != end
      invariant first < newEnd <= next <= end
      invariant buffer[first..newEnd] == Squeezed(old(buffer[first..next]))
      invariant Outside(buffer, first, next)
    {
      ghost var seen := old(buffer[first..next]);
      assert old(buffer[first..next + 1]) == seen + [buffer[next]];
      SqueezedOfLonger(seen, buffer[next]);
      newEnd := Keep(buffer, first, newEnd, buffer[next]);
      next := next + 1;
    }
  }

  /** The characters after the first move one place left. */
  method MoveLeft(buffer: array<char>, first: nat, end: nat) returns (newEnd: nat)
    requires first < end <= buffer.Length
    modifies buffer
    ensures newEnd == end - 1
    ensures buffer[first..newEnd] == old(buffer[first + 1..end])
    ensures Outside(buffer, first, end)
  {
    newEnd := first;
    while newEnd + 1 != end
      invariant first <= newEnd < end
      invariant buffer[first..newEnd] == old(buffer[first + 1..newEnd + 1])
      invariant Outside(buffer, first, newEnd)
    {
      buffer[newEnd] := buffer[newEnd + 1];
      newEnd := newEnd + 1;
    }
  }

  /** A leading space goes. */
  method TrimStart(buffer: array<char>, first: nat, end: nat) returns (newEnd: nat)
    requires first < end <= buffer.Length
    modifies buffer
    ensures first <= newEnd <= end
    ensures buffer[first..newEnd] == WithoutFirstSpace(old(buffer[first..end]))
    ensures Outside(buffer, first, end)
  {
    newEnd := end;
    if buffer[first] == ' ' {
      newEnd := MoveLeft(buffer, first, end);
    }
  }

  /** A space before the terminator goes. */
  method TrimEnd(buffer: array<char>, first: nat, end: nat) returns (newEnd: nat)
    requires first <= end <= buffer.Length
    modifies buffer
    ensures first <= newEnd <= end
    ensures buffer[first..newEnd] == WithoutSpaceBeforeLast(old(buffer[first..end]))
    ensures Outside(buffer, first, end)
  {
    newEnd := end;
    if newEnd - 2 > first {
      if buffer[newEnd - 2] == ' ' {
        buffer[newEnd - 2] := buffer[newEnd - 1];
        newEnd := newEnd - 1;
      }
    }
  }

  function WithoutSpaceBeforeLast(s: string): string {
    var n := |s|;
    if n > 2 && s[n - 2] == ' ' then s[..n - 2] + [s[n - 1]] else s
  }

  /** The passes over a terminated line leave its words. */
  lemma PassesClean(line: string)
    requires NULL !in line
    ensures Kept(line + [NULL]) == Kept(line) + [NULL]
    ensures WithoutSpaceBeforeLast(WithoutFirstSpace(Squeezed(Kept(line) + [NULL]))) == Clean(line) + [NULL]
  {
    KeptOfLonger(line, NULL);
    var k := Kept(line);
    SqueezedOfLonger(k, NULL);
    SqueezedIsWords(k);
    JoinedEnds(Words(k));
    LastSpaceGoes(Squeezed(k), Clean(line), Words(k) != [] && AfterGap(k));
  }

  lemma LastSpaceGoes(q: string, clean: string, space: bool)
    requires WithoutFirstSpace(q) == clean + if space then " " else ""
    requires space ==> clean != ""
    requires clean != "" ==> !AfterGap(clean)
    ensures WithoutSpaceBeforeLast(WithoutFirstSpace(q + [NULL])) == clean + [NULL]
  {
    var t := WithoutFirstSpace(q);
    assert WithoutFirstSpace(q + [NULL]) == t + [NULL];
    if space {
      assert (t + [NULL])[..|t| - 1] == clean;
    }
  }

  method CleanTerminated(buffer: array<char>, first: nat, end: nat, ghost line: string) returns (lineEditEnd: nat)
    requires first < end <= buffer.Length
    requires NULL !in line && buffer[first..end] == line + [NULL]
    modifies buffer
    ensures first <= lineEditEnd <= end
    ensures buffer[first..lineEditEnd] == Clean(line) + [NULL]
    ensures Outside(buffer, first, end)
  {
    PassesClean(line);
    lineEditEnd := RemoveInvalid(buffer, first, end);
    lineEditEnd := UniqueSpaces(buffer, first, lineEditEnd);
    lineEditEnd := TrimStart(buffer, first, lineEditEnd);
    lineEditEnd := TrimEnd(buffer, first, lineEditEnd);
  }

  /** A line that is not terminated is left alone. Otherwise its words take its place, ended by the null, and the
    * position after that is the result; nothing outside the line and its null changes. */
  method CleanLineBuffer(buffer: array<char>, first: nat, last: nat) returns (lineEditEnd: nat, ghost line: string)
    requires first <= last <= buffer.Length
    modifies buffer
    ensures NULL !in old(buffer[first..last]) ==> lineEditEnd == first && buffer[..] == old(buffer[..])
    ensures NULL in old(buffer[first..last]) ==>
      && NULL !in line && line + [NULL] <= old(buffer[first..last])
      && first < lineEditEnd <= first + |line| + 1
      && buffer[first..lineEditEnd] == Clean(line) + [NULL]
      && Outside(buffer, first, first + |line| + 1)
  {
    lineEditEnd := FindNull(buffer, first, last);
    line := buffer[first..lineEditEnd];
    if lineEditEnd == last {
      return first, line;
    }
    assert buffer[lineEditEnd] == buffer[first..last][lineEditEnd - first];
    lineEditEnd := lineEditEnd + 1;
    assert buffer[first..lineEditEnd] == line + [NULL];
    lineEditEnd := CleanTerminated(buffer, first, lineEditEnd, line);
  }
}
