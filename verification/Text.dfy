/** The string operations of Python that the baker's text formats rest on. */
module Text {

  // ----- Characters

  /** Where `str.splitlines` ends a line. */
  predicate IsBreak(c: char) {
    var n := c as int;
    0x0A <= n <= 0x0D || 0x1C <= n <= 0x1E || n == 0x85 || n == 0x2028 || n == 0x2029
  }

  /** What `str.strip` and `str.split` treat as white space; every line end is. */
  predicate IsSpace(c: char) {
    var n := c as int;
    || IsBreak(c) || n == 0x09 || n == 0x1F || n == 0x20 || n == 0xA0 || n == 0x1680
    || 0x2000 <= n <= 0x200A || n == 0x202F || n == 0x205F || n == 0x3000
  }

  predicate NoBreaks(s: string) {
    forall i :: 0 <= i < |s| ==> !IsBreak(s[i])
  }

  predicate NoSpaces(s: string) {
    forall i :: 0 <= i < |s| ==> !IsSpace(s[i])
  }

  /** A word that `str.split` gives back whole. */
  predicate IsToken(s: string) {
    s != "" && NoSpaces(s)
  }

  // ----- Lines

  /** `str.splitlines`, reading character by character with the line collected so far. */
  function Lines(s: string, open: string): seq<string>
    decreases |s|
  {
    if s == "" then if open == "" then [] else [open]
    else if IsBreak(s[0]) then
      [open] + Lines(if s[0] == '\r' && |s| > 1 && s[1] == '\n' then s[2..] else s[1..], "")
    else Lines(s[1..], open + [s[0]])
  }

  function SplitLines(s: string): seq<string> {
    Lines(s, "")
  }

  lemma {:induction false} LineOpen(open: string, line: string, rest: string)
    requires NoBreaks(line)
    ensures Lines(line + rest, open) == Lines(rest, open + line)
    decreases |line|
  {
    if line == "" {
      assert line + rest == rest && open + line == open;
    } else {
      assert (line + rest)[0] == line[0] && (line + rest)[1..] == line[1..] + rest;
      LineOpen(open + [line[0]], line[1..], rest);
      assert (open + [line[0]]) + line[1..] == open + line;
    }
  }

  /** What the lines of a string are: every break ends one, CR LF is a single break, and the last
      line may be unfinished. */
  lemma LinesAre(line: string, c: char, rest: string)
    requires NoBreaks(line)
    ensures SplitLines(line) == if line == "" then [] else [line]
    ensures IsBreak(c) && !(c == '\r' && rest != "" && rest[0] == '\n') ==>
              SplitLines(line + ([c] + rest)) == [line] + SplitLines(rest)
    ensures SplitLines(line + ("\r\n" + rest)) == [line] + SplitLines(rest)
  {
    LineOpen("", line, "");
    assert line + "" == line && "" + line == line;
    var one, two := [c] + rest, "\r\n" + rest;
    LineOpen("", line, one);
    LineOpen("", line, two);
    assert one[0] == c && one[1..] == rest;
    assert two[0] == '\r' && two[1] == '\n' && two[2..] == rest;
  }

  /** `"\n".join(lines) + "\n"` for at least one line. */
  function Join(lines: seq<string>): string {
    if lines == [] then "" else lines[0] + "\n" + Join(lines[1..])
  }

  lemma {:induction false} LinesHaveNoBreaks(s: string, open: string)
    requires NoBreaks(open)
    ensures forall i :: 0 <= i < |Lines(s, open)| ==> NoBreaks(Lines(s, open)[i])
    decreases |s|
  {
    if s != "" {
      if IsBreak(s[0]) {
        LinesHaveNoBreaks(if s[0] == '\r' && |s| > 1 && s[1] == '\n' then s[2..] else s[1..], "");
      } else {
        LinesHaveNoBreaks(s[1..], open + [s[0]]);
      }
    }
  }

  lemma {:induction false} FirstLine(open: string, line: string, rest: string)
    requires NoBreaks(line)
    ensures Lines(line + "\n" + rest, open) == [open + line] + Lines(rest, "")
    decreases |line|
  {
    var s := line + "\n" + rest;
    if line == "" {
      assert s[0] == '\n' && s[1..] == rest;
      assert open + line == open;
    } else {
      assert s[0] == line[0] && s[1..] == line[1..] + "\n" + rest;
      FirstLine(open + [line[0]], line[1..], rest);
      assert open + [line[0]] + line[1..] == open + line;
    }
  }

  lemma {:induction false} SplitOfJoin(lines: seq<string>)
    requires forall i :: 0 <= i < |lines| ==> NoBreaks(lines[i])
    ensures SplitLines(Join(lines)) == lines
  {
    if lines != [] {
      SplitOfJoin(lines[1..]);
      FirstLine("", lines[0], Join(lines[1..]));
      assert "" + lines[0] == lines[0];
    }
  }

  // ----- Stripping

  function RStrip(s: string): string {
    if s != "" && IsSpace(s[|s| - 1]) then RStrip(s[..|s| - 1]) else s
  }

  function LStrip(s: string): string {
    if s != "" && IsSpace(s[0]) then LStrip(s[1..]) else s
  }

  function Strip(s: string): string {
    LStrip(RStrip(s))
  }

  lemma {:induction false} RStripFacts(s: string)
    ensures RStrip(s) <= s
    ensures RStrip(s) != "" ==> !IsSpace(RStrip(s)[|RStrip(s)| - 1])
    ensures forall i :: |RStrip(s)| <= i < |s| ==> IsSpace(s[i])
  {
    if s != "" && IsSpace(s[|s| - 1]) {
      RStripFacts(s[..|s| - 1]);
    }
  }

  lemma {:induction false} LStripFacts(s: string)
    ensures |LStrip(s)| <= |s| && LStrip(s) == s[|s| - |LStrip(s)|..]
    ensures LStrip(s) != "" ==> !IsSpace(LStrip(s)[0])
  {
    if s != "" && IsSpace(s[0]) {
      LStripFacts(s[1..]);
    }
  }

  lemma RStripTwice(s: string)
    ensures RStrip(RStrip(s)) == RStrip(s)
    ensures Strip(RStrip(s)) == Strip(s)
  {
    RStripFacts(s);
  }

  /** No white space at either end. */
  predicate Trimmed(s: string) {
    s == "" || (!IsSpace(s[0]) && !IsSpace(s[|s| - 1]))
  }

  lemma TrimmedStays(s: string)
    requires Trimmed(s)
    ensures RStrip(s) == s && Strip(s) == s
  {
  }

  lemma StripFacts(s: string)
    ensures Trimmed(Strip(s)) && forall c :: c in Strip(s) ==> c in s
  {
    var r := RStrip(s);
    var t := LStrip(r);
    RStripFacts(s);
    LStripFacts(r);
    assert t != "" ==> t[|t| - 1] == r[|r| - 1];
    assert forall i :: 0 <= i < |t| ==> t[i] == r[|r| - |t| + i];
    assert forall i :: 0 <= i < |r| ==> r[i] == s[i];
  }

  predicate StartsWith(s: string, prefix: string) {
    |prefix| <= |s| && s[..|prefix|] == prefix
  }

  // ----- Words

  /** `str.split()` with the word collected so far. */
  function Words(s: string, open: string): seq<string>
    decreases |s|
  {
    if s == "" then if open == "" then [] else [open]
    else if IsSpace(s[0]) then (if open == "" then [] else [open]) + Words(s[1..], "")
    else Words(s[1..], open + [s[0]])
  }

  function Fields(s: string): seq<string> {
    Words(s, "")
  }

  lemma {:induction false} OneWord(word: string, open: string, rest: string)
    requires NoSpaces(word) && open + word != ""
    requires rest != "" ==> IsSpace(rest[0])
    ensures Words(word + rest, open) == [open + word] + Words(rest, "")
    decreases |word|
  {
    var s := word + rest;
    if word == "" {
      assert s == rest && open + word == open;
      if rest != "" {
        assert Words(rest, "") == Words(rest[1..], "");
      }
    } else {
      assert s[0] == word[0] && s[1..] == word[1..] + rest;
      OneWord(word[1..], open + [word[0]], rest);
      assert open + [word[0]] + word[1..] == open + word;
    }
  }

  /** `" ".join(words)`. */
  function Sentence(words: seq<string>): string {
    if words == [] then "" else if |words| == 1 then words[0] else words[0] + " " + Sentence(words[1..])
  }

  /** What the words of a string are: white space separates them and is not part of any. */
  lemma FieldsAre(word: string, c: char, rest: string)
    ensures Fields("") == []
    ensures IsSpace(c) ==> Fields([c] + rest) == Fields(rest)
    ensures IsToken(word) ==> Fields(word) == [word]
    ensures IsToken(word) && IsSpace(c) ==> Fields(word + ([c] + rest)) == [word] + Fields(rest)
  {
    assert ([c] + rest)[0] == c && ([c] + rest)[1..] == rest;
    if IsToken(word) {
      OneWord(word, "", "");
      assert word + "" == word && "" + word == word;
      if IsSpace(c) {
        OneWord(word, "", [c] + rest);
      }
    }
  }

  lemma {:induction false} FieldsOfSentence(words: seq<string>)
    requires forall i :: 0 <= i < |words| ==> IsToken(words[i])
    ensures Fields(Sentence(words)) == words
  {
    if |words| == 1 {
      OneWord(words[0], "", "");
      assert words[0] + "" == words[0] && "" + words[0] == words[0];
    } else if words != [] {
      FieldsOfSentence(words[1..]);
      var rest := " " + Sentence(words[1..]);
      OneWord(words[0], "", rest);
      assert Sentence(words) == words[0] + rest && "" + words[0] == words[0];
      assert rest[1..] == Sentence(words[1..]);
      assert Words(rest, "") == Words(rest[1..], "");
    }
  }

  lemma {:induction false} SentenceIsTrimmed(words: seq<string>)
    requires words != [] && forall i :: 0 <= i < |words| ==> IsToken(words[i])
    ensures Sentence(words) != "" && Trimmed(Sentence(words)) && NoBreaks(Sentence(words))
    ensures words[0] <= Sentence(words)
  {
    if |words| > 1 {
      SentenceIsTrimmed(words[1..]);
      var s, rest := Sentence(words), Sentence(words[1..]);
      assert s == words[0] + " " + rest;
      assert s[|s| - 1] == rest[|rest| - 1];
      assert !IsBreak(' ');
    }
  }

  /** A stripped string that is not empty has a first word, and starts with it. */
  lemma {:induction false} FirstWord(s: string, open: string)
    requires open != "" || (s != "" && !IsSpace(s[0]))
    ensures Words(s, open) != [] && open <= Words(s, open)[0]
    decreases |s|
  {
    if s != "" && !IsSpace(s[0]) {
      FirstWord(s[1..], open + [s[0]]);
    }
  }

  // ----- Counting and replacing a marker

  function Count(s: string, marker: string): nat
    requires marker != ""
    decreases |s|
  {
    if |s| < |marker| then 0
    else if StartsWith(s, marker) then 1 + Count(s[|marker|..], marker)
    else Count(s[1..], marker)
  }

  function Replace(s: string, marker: string, by_: string): string
    requires marker != ""
    decreases |s|
  {
    if |s| < |marker| then s
    else if StartsWith(s, marker) then by_ + Replace(s[|marker|..], marker, by_)
    else [s[0]] + Replace(s[1..], marker, by_)
  }

  lemma {:induction false} NothingToReplace(s: string, marker: string, by_: string)
    requires marker != "" && Count(s, marker) == 0
    ensures Replace(s, marker, by_) == s
    decreases |s|
  {
    if |s| >= |marker| {
      NothingToReplace(s[1..], marker, by_);
    }
  }

  lemma MarkerAtBreak(rest: string, marker: string, by_: string)
    requires marker != "" && marker[0] != '\n'
    ensures Count("\n" + rest, marker) == Count(rest, marker)
    ensures Replace("\n" + rest, marker, by_) == "\n" + Replace(rest, marker, by_)
  {
    var s := "\n" + rest;
    assert s[0] == '\n' && s[1..] == rest;
    assert marker[0] != s[0];
  }

  /** The marker starts a text exactly if it starts its first line. */
  lemma MarkerAtFront(line: string, tail: string, marker: string)
    requires marker != "" && forall i :: 0 <= i < |marker| ==> marker[i] != '\n'
    requires tail != "" && tail[0] == '\n'
    ensures StartsWith(line + tail, marker) <==> StartsWith(line, marker)
  {
    var s := line + tail;
    if |marker| <= |line| {
      assert s[..|marker|] == line[..|marker|];
    } else {
      assert marker[|line|] != s[|line|];
    }
  }

  /** A marker without a newline never straddles the end of a line. */
  lemma {:induction false} CountWithinLine(line: string, tail: string, marker: string)
    requires marker != "" && forall i :: 0 <= i < |marker| ==> marker[i] != '\n'
    requires tail != "" && tail[0] == '\n'
    ensures Count(line + tail, marker) == Count(line, marker) + Count(tail, marker)
    decreases |line|
  {
    var s := line + tail;
    MarkerAtFront(line, tail, marker);
    if line == "" {
      assert s == tail;
    } else if StartsWith(line, marker) {
      CountWithinLine(line[|marker|..], tail, marker);
      assert s[|marker|..] == line[|marker|..] + tail;
    } else {
      CountWithinLine(line[1..], tail, marker);
      assert s[1..] == line[1..] + tail;
    }
  }

  lemma {:induction false} ReplaceWithinLine(line: string, tail: string, marker: string, by_: string)
    requires marker != "" && forall i :: 0 <= i < |marker| ==> marker[i] != '\n'
    requires tail != "" && tail[0] == '\n'
    ensures Replace(line + tail, marker, by_) == Replace(line, marker, by_) + Replace(tail, marker, by_)
    decreases |line|
  {
    var after := Replace(tail, marker, by_);
    MarkerAtFront(line, tail, marker);
    if line == "" {
      assert line + tail == tail;
      assert Replace(line, marker, by_) + after == after;
    } else if StartsWith(line, marker) {
      ReplaceWithinLine(line[|marker|..], tail, marker, by_);
      ReplaceHit(line, tail, after, marker, by_);
    } else {
      ReplaceWithinLine(line[1..], tail, marker, by_);
      ReplaceMiss(line, tail, after, marker, by_);
    }
  }

  lemma ReplaceHit(line: string, tail: string, after: string, marker: string, by_: string)
    requires marker != "" && StartsWith(line + tail, marker) && StartsWith(line, marker)
    requires Replace(line[|marker|..] + tail, marker, by_) == Replace(line[|marker|..], marker, by_) + after
    ensures Replace(line + tail, marker, by_) == Replace(line, marker, by_) + after
  {
    assert (line + tail)[|marker|..] == line[|marker|..] + tail;
    assert by_ + (Replace(line[|marker|..], marker, by_) + after) ==
      by_ + Replace(line[|marker|..], marker, by_) + after;
  }

  lemma ReplaceMiss(line: string, tail: string, after: string, marker: string, by_: string)
    requires marker != "" && line != "" && after == Replace(tail, marker, by_)
    requires !StartsWith(line + tail, marker) && !StartsWith(line, marker)
    requires Replace(line[1..] + tail, marker, by_) == Replace(line[1..], marker, by_) + after
    ensures Replace(line + tail, marker, by_) == Replace(line, marker, by_) + after
  {
    var s := line + tail;
    assert s[1..] == line[1..] + tail && s[0] == line[0];
    assert [line[0]] + line[1..] == line;
    assert [line[0]] + (Replace(line[1..], marker, by_) + after) == [line[0]] + Replace(line[1..], marker, by_) + after;
    assert |s| < |marker| ==> after == tail;
  }
}
